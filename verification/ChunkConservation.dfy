/** Chunking loses no text, and cuts a document in one way only. */
module ChunkConservation {
  import opened PlainText
  import opened MemoryChunker

  /** What the packets hold of their own, overlaps left out. */
  function OwnText(cuts: seq<seq<Packet>>): string {
    if cuts == [] then "" else OwnText(cuts[..|cuts| - 1]) + Concat(OwnOf(cuts[|cuts| - 1]))
  }

  lemma {:induction false} ParagraphsInk(pieces: seq<string>)
    ensures Ink(Concat(Paragraphs(pieces))) == Ink(Concat(pieces))
  {
    if pieces != [] {
      var p := Trim(pieces[0]);
      var rest := pieces[1..];
      ParagraphsInk(rest);
      TrimInk(pieces[0]);
      ConcatInk([pieces[0]], rest);
      assert [pieces[0]] + rest == pieces;
      ConcatInk([p], Paragraphs(rest));
      assert Paragraphs(pieces) == (if p == "" then [] else [p]) + Paragraphs(rest);
      assert [] + Paragraphs(rest) == Paragraphs(rest);
      assert Concat([p]) == p && Concat([pieces[0]]) == pieces[0];
    }
  }

  lemma {:induction false} NewlinesInk(s: string, n: nat)
    requires n <= Newlines(s)
    ensures Ink(s[..n]) == ""
  {
    if n > 0 {
      NewlinesInk(s[1..], n - 1);
      assert s[..n][1..] == s[1..][..n - 1];
    }
  }

  lemma ParagraphsOfInk(content: string)
    ensures Ink(Concat(ParagraphsOf(content))) == Ink(content)
  {
    forall t: string | ParagraphBreak(t) <= |t|
      ensures Ink(t[..ParagraphBreak(t)]) == ""
    {
      NewlinesInk(t, ParagraphBreak(t));
    }
    SplitInk(content, ParagraphBreak);
    ParagraphsInk(Split(content, ParagraphBreak));
  }

  lemma CutInk(section: Section, packets: seq<Packet>)
    requires CutOf(section, packets)
    ensures Ink(Concat(OwnOf(packets))) == Ink(section.content)
  {
    if |section.content| <= MAX_CHUNK_SIZE {
      assert OwnOf(packets) == OwnOf(packets[..0]) + [section.content] == [section.content];
    } else {
      ParagraphsOfInk(section.content);
    }
  }

  lemma SectionInk(lines: seq<string>, last: Section, packets: seq<Packet>)
    requires IsSection(lines, last) && CutOf(last, packets)
    ensures Ink(Text(lines[..last.endLine])) == Ink(Text(lines[..last.startLine - 1])) + Ink(Concat(OwnOf(packets)))
  {
    var from := last.startLine - 1;
    CutInk(last, packets);
    TrimInk(Text(lines[from..last.endLine]));
    LinesUpTo(lines, from, last.endLine);
  }

  lemma LinesUpTo(lines: seq<string>, from: nat, upto: nat)
    requires from <= upto <= |lines|
    ensures Ink(Text(lines[..upto])) == Ink(Text(lines[..from])) + Ink(Text(lines[from..upto]))
  {
    assert lines[..from] + lines[from..upto] == lines[..upto];
    TextInk(lines[..from], lines[from..upto]);
  }

  lemma LastCutInk(cuts: seq<seq<Packet>>)
    requires cuts != []
    ensures Ink(OwnText(cuts)) == Ink(OwnText(cuts[..|cuts| - 1])) + Ink(Concat(OwnOf(cuts[|cuts| - 1])))
  {
    InkAppend(OwnText(cuts[..|cuts| - 1]), Concat(OwnOf(cuts[|cuts| - 1])));
  }

  lemma {:induction false} SectionsInk(lines: seq<string>, sections: seq<Section>, cuts: seq<seq<Packet>>, n: nat)
    requires n <= |lines| && Sectioned(lines, sections, n) && Cut(sections, cuts)
    ensures Ink(OwnText(cuts)) == Ink(Text(lines[..n]))
    decreases |sections|
  {
    if sections != [] {
      var k := |sections| - 1;
      LastCutInk(cuts);
      CutPrefix(sections, cuts, k);
      SectionsInk(lines, sections[..k], cuts[..k], sections[k].startLine - 1);
      SectionInk(lines, sections[k], cuts[k]);
    }
  }

  lemma CutPrefix(sections: seq<Section>, cuts: seq<seq<Packet>>, k: nat)
    requires Cut(sections, cuts) && k <= |sections|
    ensures Cut(sections[..k], cuts[..k])
  {
  }

  lemma LinesInk(text: string)
    ensures Ink(Text(Split(text, LineBreak))) == Ink(text)
  {
    forall t: string | LineBreak(t) <= |t|
      ensures Ink(t[..LineBreak(t)]) == ""
    {
      LineBreakInk(t);
    }
    JoinInk(Split(text, LineBreak), "\n");
    SplitInk(text, LineBreak);
  }

  lemma LineBreakInk(t: string)
    requires LineBreak(t) <= |t|
    ensures Ink(t[..LineBreak(t)]) == ""
  {
    if LineBreak(t) == 1 {
      assert t[..1] == "\n";
    } else if LineBreak(t) == 2 {
      assert t[..2] == "\r\n";
      assert "\r\n"[1..] == "\n";
    }
  }

  /** Chunking conserves text: take away white space and overlaps, and what is left is the document, in order. */
  lemma ChunkingConserves(text: string, sections: seq<Section>, cuts: seq<seq<Packet>>)
    requires var lines := Split(text, LineBreak); Sectioned(lines, sections, |lines|) && Cut(sections, cuts)
    ensures Ink(OwnText(cuts)) == Ink(text)
  {
    var lines := Split(text, LineBreak);
    SectionsInk(lines, sections, cuts, |lines|);
    assert lines[..|lines|] == lines;
    LinesInk(text);
  }

  // ---- Every heading opens a section ----

  lemma HasInkAt(lines: seq<string>, n: nat, i: nat)
    requires i < n <= |lines| && Ink(lines[i]) != ""
    ensures Ink(Text(lines[..n])) != ""
  {
    assert lines[..n] == lines[..i] + lines[i..n];
    TextInk(lines[..i], lines[i..n]);
    assert lines[i..n] == [lines[i]] + lines[i + 1..n];
    TextInk([lines[i]], lines[i + 1..n]);
  }

  /** Each heading line opens a section of its own, and sections open nowhere else but at the top. */
  lemma {:induction false} HeadingsOpenSections(lines: seq<string>, sections: seq<Section>, n: nat, i: nat)
    requires i < n <= |lines| && Sectioned(lines, sections, n) && Heading(lines[i]).Some?
    ensures exists s :: s in sections && s.startLine == i + 1 && (s.headingLevel, s.heading) == Heading(lines[i]).value
    decreases |sections|
  {
    if sections == [] {
      HeadingHasInk(lines[i]);
      HasInkAt(lines, n, i);
    } else {
      var k := |sections| - 1;
      if i + 1 < sections[k].startLine {
        HeadingsOpenSections(lines, sections[..k], sections[k].startLine - 1, i);
        var s :| s in sections[..k] && s.startLine == i + 1 && (s.headingLevel, s.heading) == Heading(lines[i]).value;
        assert s in sections;
      } else {
        assert sections[k].startLine == i + 1;
        assert sections[k] in sections;
      }
    }
  }

  // ---- One way to cut ----

  lemma {:induction false} OwnOfAppend(a: seq<Packet>, b: seq<Packet>)
    ensures OwnOf(a + b) == OwnOf(a) + OwnOf(b)
  {
    if b == [] {
      assert a + b == a;
    } else {
      var n := |b| - 1;
      assert (a + b)[..|a| + n] == a + b[..n];
      calc {
        OwnOf(a + b);
        OwnOf(a + b[..n]) + b[n].own;
        { OwnOfAppend(a, b[..n]); }
        OwnOf(a) + OwnOf(b[..n]) + b[n].own;
        OwnOf(a) + (OwnOf(b[..n]) + b[n].own);
      }
    }
  }

  lemma {:induction false} PackedAt(packets: seq<Packet>, k: nat)
    requires Packed(packets) && k < |packets|
    ensures Packed(packets[..k]) && Joins(packets[..k], packets[k])
  {
    var n := |packets| - 1;
    if k < n {
      PackedAt(packets[..n], k);
      PrefixOfPrefix(packets, n, k);
    }
  }

  lemma PrefixOfPrefix<T>(s: seq<T>, n: nat, k: nat)
    requires k < n <= |s|
    ensures s[..n][..k] == s[..k] && s[..n][k] == s[k]
  {
  }

  function Rest(packets: seq<Packet>, k: nat): seq<string>
    requires k <= |packets|
  {
    OwnOf(packets[k..])
  }

  lemma RestAt(packets: seq<Packet>, k: nat)
    requires k < |packets|
    ensures Rest(packets, k) == packets[k].own + Rest(packets, k + 1)
  {
    var p := packets[k];
    assert packets[k..] == [p] + packets[k + 1..];
    OwnOfAppend([p], packets[k + 1..]);
    assert [p][..0] == [];
  }

  lemma RestIsSame(p: seq<Packet>, q: seq<Packet>, k: nat)
    requires OwnOf(p) == OwnOf(q) && k <= |p| && k <= |q| && p[..k] == q[..k]
    ensures Rest(p, k) == Rest(q, k)
  {
    assert p == p[..k] + p[k..] && q == q[..k] + q[k..];
    OwnOfAppend(p[..k], p[k..]);
    OwnOfAppend(q[..k], q[k..]);
    var n := |OwnOf(p[..k])|;
    assert OwnOf(p)[n..] == Rest(p, k) && OwnOf(q)[n..] == Rest(q, k);
  }

  /** A packet that is followed by another was full. */
  lemma NextDidNotFit(p: seq<Packet>, k: nat)
    requires Packed(p) && k + 1 < |p|
    ensures p[k + 1].own != [] && Rest(p, k + 1)[0] == p[k + 1].own[0]
    ensures p[k].Weight() + |p[k + 1].own[0]| > MAX_CHUNK_SIZE
  {
    PackedAt(p, k + 1);
    assert p[..k + 1][k] == p[k];
    RestAt(p, k + 1);
  }

  /** Of two greedy fillings from the same point, neither stops before the other. */
  lemma NoEarlierStop(p: seq<Packet>, q: seq<Packet>, k: nat)
    requires Packed(p) && Packed(q) && k < |p| && k < |q|
    requires p[k].carried == q[k].carried && Rest(p, k) == Rest(q, k)
    ensures |p[k].own| >= |q[k].own|
  {
    PackedAt(p, k);
    PackedAt(q, k);
    RestAt(p, k);
    RestAt(q, k);
    if |p[k].own| < |q[k].own| {
      ShorterPrefix(p[k].own, Rest(p, k + 1), q[k].own, Rest(q, k + 1));
      assert p[k].Weight() + |q[k].own[|p[k].own|]| <= MAX_CHUNK_SIZE;
      assert k + 1 < |p|;
      NextDidNotFit(p, k);
    }
  }

  lemma ShorterPrefix<T>(a: seq<T>, b: seq<T>, c: seq<T>, d: seq<T>)
    requires a + b == c + d && |a| < |c|
    ensures c[..|a|] == a && b != [] && b[0] == c[|a|]
  {
    assert (a + b)[..|a|] == a && (c + d)[..|a|] == c[..|a|];
    assert (a + b)[|a|] == (c + d)[|a|];
  }

  lemma SamePacket(p: seq<Packet>, q: seq<Packet>, k: nat)
    requires Packed(p) && Packed(q) && k < |p| && k < |q| && p[..k] == q[..k] && Rest(p, k) == Rest(q, k)
    ensures p[k] == q[k]
  {
    PackedAt(p, k);
    PackedAt(q, k);
    NoEarlierStop(p, q, k);
    NoEarlierStop(q, p, k);
    RestAt(p, k);
    RestAt(q, k);
    assert p[k].own == Rest(p, k)[..|p[k].own|] && q[k].own == Rest(q, k)[..|q[k].own|];
  }

  lemma NothingLeft(p: seq<Packet>, k: nat)
    requires Packed(p) && k <= |p| && Rest(p, k) == []
    ensures k == |p|
  {
    if k < |p| {
      PackedAt(p, k);
      RestAt(p, k);
    }
  }

  lemma {:induction false} SamePackets(p: seq<Packet>, q: seq<Packet>, k: nat)
    requires Packed(p) && Packed(q) && OwnOf(p) == OwnOf(q) && k <= |p| && k <= |q| && p[..k] == q[..k]
    ensures p == q
    decreases |p| - k
  {
    RestIsSame(p, q, k);
    if k == |p| || k == |q| {
      assert p[|p|..] == [] && q[|q|..] == [];
      NothingLeft(p, k);
      NothingLeft(q, k);
      assert p[..k] == p && q[..k] == q;
    } else {
      SamePacket(p, q, k);
      TakeSnoc(p, k);
      TakeSnoc(q, k);
      SamePackets(p, q, k + 1);
    }
  }

  /** The paragraphs of a section can be packed in one way only. */
  lemma PackingIsUnique(p: seq<Packet>, q: seq<Packet>)
    requires Packed(p) && Packed(q) && OwnOf(p) == OwnOf(q)
    ensures p == q
  {
    SamePackets(p, q, 0);
  }
}
