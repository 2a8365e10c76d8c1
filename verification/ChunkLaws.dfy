/** What the chunks of a document are, told from their own fields. */
module ChunkLaws {
  import opened WorkflowNode
  import opened ChunkId
  import opened PlainText
  import opened MemoryChunker
  import opened ChunkConservation

  // ---- Splitting ----

  /** The pieces with the separators between them. */
  function Weave(parts: seq<string>, seps: seq<string>): string
    requires |parts| == |seps| + 1
  {
    if seps == [] then parts[0] else parts[0] + seps[0] + Weave(parts[1..], seps[1..])
  }

  /** Every separator is one that `cut` finds at its place, and no piece holds a place where it finds one. */
  ghost predicate WovenOf(s: string, cut: string -> nat, parts: seq<string>, seps: seq<string>) {
    && |parts| == |seps| + 1 && Weave(parts, seps) == s
    && (forall k :: 0 <= k < |seps| ==> Separates(seps[k], cut))
  }

  ghost predicate Separates(sep: string, cut: string -> nat) {
    exists after :: |sep| == cut(sep + after) > 0
  }

  lemma {:induction false} SplitWeaves(s: string, cut: string -> nat) returns (seps: seq<string>)
    ensures WovenOf(s, cut, Split(s, cut), seps)
    decreases |s|
  {
    if s == "" {
      seps := [];
    } else if 0 < cut(s) <= |s| {
      var rest := SplitWeaves(s[cut(s)..], cut);
      seps := [s[..cut(s)]] + rest;
      SeparatorInFront(s, cut, Split(s[cut(s)..], cut), rest);
    } else {
      seps := SplitWeaves(s[1..], cut);
      var rest := Split(s[1..], cut);
      LetterInFront(s[0], rest, seps);
      assert s == [s[0]] + s[1..];
      assert Split(s, cut) == [[s[0]] + rest[0]] + rest[1..];
    }
  }

  lemma SeparatorInFront(s: string, cut: string -> nat, parts: seq<string>, seps: seq<string>)
    requires 0 < cut(s) <= |s| && WovenOf(s[cut(s)..], cut, parts, seps)
    ensures WovenOf(s, cut, [""] + parts, [s[..cut(s)]] + seps)
  {
    var sep, after := s[..cut(s)], s[cut(s)..];
    assert s == sep + after;
    var longer := [sep] + seps;
    assert ([""] + parts)[1..] == parts && longer[1..] == seps;
    forall k | 0 <= k < |longer|
      ensures Separates(longer[k], cut)
    {
      if k > 0 {
        assert Separates(seps[k - 1], cut);
      } else {
        assert |sep| == cut(sep + after);
      }
    }
  }

  lemma LetterInFront(c: char, parts: seq<string>, seps: seq<string>)
    requires |parts| == |seps| + 1
    ensures Weave([[c] + parts[0]] + parts[1..], seps) == [c] + Weave(parts, seps)
  {
    assert ([[c] + parts[0]] + parts[1..])[1..] == parts[1..];
    if seps != [] {
      var rest := Weave(parts[1..], seps[1..]);
      assert [c] + parts[0] + seps[0] + rest == [c] + (parts[0] + seps[0] + rest);
    }
  }

  lemma {:induction false} FirstPiece(s: string, cut: string -> nat)
    ensures Split(s, cut)[0] <= s
    decreases |s|
  {
    if s != "" && !(0 < cut(s) <= |s|) {
      FirstPiece(s[1..], cut);
      assert s == [s[0]] + s[1..];
    }
  }

  predicate NoBlankLine(p: string) {
    forall i :: 0 < i < |p| ==> !(p[i - 1] == '\n' && p[i] == '\n')
  }

  lemma NoBlankLineInFront(c: char, p: string)
    requires NoBlankLine(p) && !(c == '\n' && p != "" && p[0] == '\n')
    ensures NoBlankLine([c] + p)
  {
    var q := [c] + p;
    forall i | 0 < i < |q|
      ensures !(q[i - 1] == '\n' && q[i] == '\n')
    {
      assert q[i] == p[i - 1] && (i > 1 ==> q[i - 1] == p[i - 2]);
    }
  }

  lemma {:induction false} PiecesHoldNoBlankLine(s: string)
    ensures forall k :: 0 <= k < |Split(s, ParagraphBreak)| ==> NoBlankLine(Split(s, ParagraphBreak)[k])
    decreases |s|
  {
    if s == "" {
    } else if ParagraphBreak(s) > 0 {
      PiecesHoldNoBlankLine(s[ParagraphBreak(s)..]);
    } else {
      PiecesHoldNoBlankLine(s[1..]);
      FirstPiece(s[1..], ParagraphBreak);
      var first := Split(s[1..], ParagraphBreak)[0];
      assert s[0] == '\n' && first != "" && first[0] == '\n' ==> Newlines(s) >= 2;
      NoBlankLineInFront(s[0], first);
    }
  }

  /** Paragraphs are parted at runs of two or more newlines, and nowhere else. */
  lemma ParagraphsArePartedAtBlankLines(s: string) returns (seps: seq<string>)
    ensures |Split(s, ParagraphBreak)| == |seps| + 1 && Weave(Split(s, ParagraphBreak), seps) == s
    ensures forall k :: 0 <= k < |seps| ==> |seps[k]| >= 2 && forall i :: 0 <= i < |seps[k]| ==> seps[k][i] == '\n'
    ensures forall k :: 0 <= k < |seps| + 1 ==> NoBlankLine(Split(s, ParagraphBreak)[k])
  {
    seps := SplitWeaves(s, ParagraphBreak);
    PiecesHoldNoBlankLine(s);
    forall k | 0 <= k < |seps|
      ensures |seps[k]| >= 2 && forall i :: 0 <= i < |seps[k]| ==> seps[k][i] == '\n'
    {
      assert Separates(seps[k], ParagraphBreak);
      var after :| |seps[k]| == ParagraphBreak(seps[k] + after) > 0;
      assert forall i :: 0 <= i < |seps[k]| ==> seps[k][i] == (seps[k] + after)[i];
    }
  }

  lemma {:induction false} LinesHoldNoNewline(s: string)
    ensures forall k :: 0 <= k < |Split(s, LineBreak)| ==> '\n' !in Split(s, LineBreak)[k]
    decreases |s|
  {
    if s == "" {
    } else if LineBreak(s) > 0 {
      LinesHoldNoNewline(s[LineBreak(s)..]);
    } else {
      LinesHoldNoNewline(s[1..]);
    }
  }

  /** Lines are parted at newlines, each with the carriage return before it if there is one, and nowhere else. */
  lemma LinesArePartedAtNewlines(s: string) returns (seps: seq<string>)
    ensures |Split(s, LineBreak)| == |seps| + 1 && Weave(Split(s, LineBreak), seps) == s
    ensures forall k :: 0 <= k < |seps| ==> seps[k] == "\n" || seps[k] == "\r\n"
    ensures forall k :: 0 <= k < |seps| + 1 ==> '\n' !in Split(s, LineBreak)[k]
  {
    seps := SplitWeaves(s, LineBreak);
    LinesHoldNoNewline(s);
    forall k | 0 <= k < |seps|
      ensures seps[k] == "\n" || seps[k] == "\r\n"
    {
      assert Separates(seps[k], LineBreak);
      var after :| |seps[k]| == LineBreak(seps[k] + after) > 0;
      assert (seps[k] + after)[0] == seps[k][0] && (|seps[k]| == 2 ==> (seps[k] + after)[1] == seps[k][1]);
    }
  }

  // ---- Headings ----

  predicate Blank(s: string) {
    forall k :: 0 <= k < |s| ==> IsSpace(s[k])
  }

  /** The line is `level` hash signs, white space, and a title of which not even the white space breaks the line. */
  predicate HeadingLine(line: string, level: nat, gap: string, title: string) {
    && |line| == level + |gap| + |title| && 1 <= level <= 6 && gap != "" && Blank(gap) && OneLine(title)
    && (title != "" ==> !IsSpace(title[0]))
    && (forall k :: 0 <= k < level ==> line[k] == '#')
    && line[level..] == gap + title
  }

  lemma {:induction false} HashesCount(line: string)
    ensures forall k :: 0 <= k < Hashes(line) ==> line[k] == '#'
    ensures Hashes(line) < |line| ==> line[Hashes(line)] != '#'
  {
    if line != "" && line[0] == '#' {
      HashesCount(line[1..]);
    }
  }

  lemma {:induction false} TrimStartGap(gap: string, title: string)
    requires Blank(gap) && (title != "" ==> !IsSpace(title[0]))
    ensures TrimStart(gap + title) == title
  {
    if gap == "" {
      assert gap + title == title;
    } else {
      assert (gap + title)[1..] == gap[1..] + title;
      TrimStartGap(gap[1..], title);
    }
  }

  lemma {:induction false} GapBefore(s: string) returns (gap: string)
    ensures Blank(gap) && gap + TrimStart(s) == s
  {
    gap := "";
    if s != "" && IsSpace(s[0]) {
      var rest := GapBefore(s[1..]);
      gap := [s[0]] + rest;
      assert s == [s[0]] + s[1..];
    }
  }

  /** A heading line opens a section of its level and trimmed title, ... */
  lemma HeadingIsFound(line: string, level: nat, gap: string, title: string)
    requires HeadingLine(line, level, gap, title)
    ensures Heading(line) == Some((level, Trim(title)))
  {
    HashesCount(line);
    assert line[level] == gap[0];
    assert Hashes(line) == level;
    TrimStartGap(gap, title);
  }

  /** ... and no other line does. */
  lemma FoundIsHeading(line: string) returns (level: nat, gap: string, title: string)
    requires Heading(line).Some?
    ensures HeadingLine(line, level, gap, title) && Heading(line) == Some((level, Trim(title)))
  {
    level := Hashes(line);
    title := TrimStart(line[level..]);
    gap := GapBefore(line[level..]);
    HashesCount(line);
    TrimStartTrims(line[level..]);
  }

  // ---- Overlaps ----

  lemma {:induction false} PiecesHoldNoNewline(s: string)
    ensures forall k :: 0 <= k < |Split(s, Newline)| ==> '\n' !in Split(s, Newline)[k]
  {
    if s != "" {
      PiecesHoldNoNewline(s[1..]);
    }
  }

  /** What a chunk hands on to the next one is its last two lines, or all of it if it has no more. */
  lemma OverlapIsLastTwoLines(s: string) returns (head: string, line: string, last: string)
    ensures
      || ('\n' !in s && Overlap(s) == s)
      || ('\n' !in line && '\n' !in last && Overlap(s) == line + "\n" + last
            && (s == Overlap(s) || s == head + "\n" + Overlap(s)))
  {
    var lines := Split(s, Newline);
    JoinSplit(s);
    PiecesHoldNoNewline(s);
    head, line, last := "", "", lines[|lines| - 1];
    if |lines| == 1 {
      assert lines[0..] == lines;
    } else {
      var n := |lines| - 2;
      var tail := lines[n..];
      line := lines[n];
      assert tail == [line, last] && tail[1..] == [last];
      if n > 0 {
        head := Join(lines[..n], "\n");
        JoinAppend(lines[..n], tail, "\n");
        assert lines[..n] + tail == lines;
      } else {
        assert tail == lines;
      }
    }
  }

  function NewlineCount(s: string): nat {
    if s == "" then 0 else NewlineCount(s[1..]) + if s[0] == '\n' then 1 else 0
  }

  /** A text has one line more than it has newlines. */
  lemma {:induction false} LineCountIs(s: string)
    ensures LineCount(s) == NewlineCount(s) + 1
  {
    if s != "" {
      LineCountIs(s[1..]);
    }
  }

  lemma NoneBeforeTheFirst(lines: seq<string>, sections: seq<Section>)
    requires Sectioned(lines, sections, 0)
    ensures sections == []
  {
  }

  /** What comes before the first heading is a section of level zero without a heading. */
  lemma TopHasNoHeading(lines: seq<string>, sections: seq<Section>, n: nat, k: nat)
    requires n <= |lines| && Sectioned(lines, sections, n) && k < |sections|
    ensures 1 <= sections[k].startLine <= |lines|
    ensures Heading(lines[sections[k].startLine - 1]).None? ==>
      k == 0 && sections[k].startLine == 1 && sections[k].heading == "" && sections[k].headingLevel == 0
    decreases |sections|
  {
    var last := |sections| - 1;
    if k < last {
      TopHasNoHeading(lines, sections[..last], sections[last].startLine - 1, k);
    } else if sections[k].startLine == 1 {
      NoneBeforeTheFirst(lines, sections[..last]);
    }
  }

  // ---- Conservation, on the chunks ----

  /** The first `n` characters of chunk `k` are carried over: none, or the tail of the chunk before and a blank line. */
  predicate Carries(chunks: seq<Chunk>, k: nat, n: nat)
    requires k < |chunks|
  {
    && n <= |chunks[k].content|
    && (n > 0 ==>
          && k > 0 && chunks[k].heading == chunks[k - 1].heading
          && chunks[k].content[..n] == TrimStart(Overlap(chunks[k - 1].content)) + "\n\n")
  }

  predicate CarriesOver(chunks: seq<Chunk>, carried: seq<nat>) {
    |carried| == |chunks| && forall k :: 0 <= k < |chunks| ==> Carries(chunks, k, carried[k])
  }

  /** What the chunks hold that is not carried over, in order. */
  function NewText(chunks: seq<Chunk>, carried: seq<nat>): string
    requires CarriesOver(chunks, carried)
  {
    if chunks == [] then ""
    else
      var n := |chunks| - 1;
      CarriesPrefix(chunks, carried, n);
      assert Carries(chunks, n, carried[n]);
      NewText(chunks[..n], carried[..n]) + chunks[n].content[carried[n]..]
  }

  lemma CarriesPrefix(chunks: seq<Chunk>, carried: seq<nat>, n: nat)
    requires CarriesOver(chunks, carried) && n <= |chunks|
    ensures CarriesOver(chunks[..n], carried[..n])
  {
    forall k | 0 <= k < n
      ensures Carries(chunks[..n], k, carried[..n][k])
    {
      assert Carries(chunks, k, carried[k]);
    }
  }

  lemma CarriesSnoc(chunks: seq<Chunk>, carried: seq<nat>, c: Chunk, n: nat)
    requires CarriesOver(chunks, carried) && Carries(chunks + [c], |chunks|, n)
    ensures CarriesOver(chunks + [c], carried + [n])
    ensures NewText(chunks + [c], carried + [n]) == NewText(chunks, carried) + c.content[n..]
  {
    var longer := chunks + [c];
    forall k | 0 <= k < |longer|
      ensures Carries(longer, k, (carried + [n])[k])
    {
      if k < |chunks| {
        assert Carries(chunks, k, carried[k]);
      }
    }
    assert longer[..|chunks|] == chunks && (carried + [n])[..|chunks|] == carried;
  }

  lemma SnocOfSum<T>(a: seq<T>, b: seq<T>, x: T)
    ensures a + (b + [x]) == a + b + [x]
  {
  }

  lemma AppendSnoc(a: seq<Chunk>, ca: seq<nat>, b: seq<Chunk>, cb: seq<nat>, c: Chunk, n: nat)
    requires CarriesOver(a, ca) && CarriesOver(b, cb) && CarriesOver(a + b, ca + cb) && Carries(b + [c], |b|, n)
    requires NewText(a + b, ca + cb) == NewText(a, ca) + NewText(b, cb)
    ensures CarriesOver(a + (b + [c]), ca + (cb + [n])) && CarriesOver(b + [c], cb + [n])
    ensures NewText(a + (b + [c]), ca + (cb + [n])) == NewText(a, ca) + NewText(b + [c], cb + [n])
  {
    CarriesLater(a, b, c, n);
    CarriesSnoc(a + b, ca + cb, c, n);
    CarriesSnoc(b, cb, c, n);
    SnocOfSum(a, b, c);
    SnocOfSum(ca, cb, n);
  }

  lemma {:induction false} NewTextAppend(a: seq<Chunk>, ca: seq<nat>, b: seq<Chunk>, cb: seq<nat>)
    requires CarriesOver(a, ca) && CarriesOver(b, cb)
    ensures CarriesOver(a + b, ca + cb) && NewText(a + b, ca + cb) == NewText(a, ca) + NewText(b, cb)
  {
    if b == [] {
      assert a + b == a && ca + cb == ca;
    } else {
      var n := |b| - 1;
      CarriesPrefix(b, cb, n);
      NewTextAppend(a, ca, b[..n], cb[..n]);
      LastOf(b);
      LastOf(cb);
      assert Carries(b, n, cb[n]);
      AppendSnoc(a, ca, b[..n], cb[..n], b[n], cb[n]);
    }
  }

  lemma LastOf<T>(s: seq<T>)
    requires s != []
    ensures s[..|s| - 1] + [s[|s| - 1]] == s
  {
  }

  lemma CarriesLater(a: seq<Chunk>, b: seq<Chunk>, c: Chunk, n: nat)
    requires Carries(b + [c], |b|, n)
    ensures Carries(a + b + [c], |a + b|, n)
  {
    if b != [] {
      assert (a + b + [c])[|a + b| - 1] == b[|b| - 1];
    }
  }

  /** What of a packet's content is carried over. */
  function CarriedLength(p: Packet): (n: nat)
    ensures n <= |p.Content()|
  {
    if p.carried == "" then 0 else |TrimStart(p.carried)| + 2
  }

  lemma PacketRest(p: Packet)
    ensures p.Content()[CarriedLength(p)..] == Join(p.own, "\n\n")
    ensures p.carried != "" ==> p.Content()[..CarriedLength(p)] == TrimStart(p.carried) + "\n\n"
  {
  }

  lemma BlankLine()
    ensures Ink("\n\n") == ""
  {
    assert "\n\n"[1..] == "\n";
  }

  /** The chunk of a packet that follows these chunks of its section. */
  lemma PacketCarries(chunks: seq<Chunk>, carried: seq<nat>, c: Chunk, before: seq<Packet>, p: Packet)
    requires CarriesOver(chunks, carried) && |chunks| == |before| && c.content == p.Content() && Joins(before, p)
    requires before != [] ==>
      chunks[|chunks| - 1].content == before[|before| - 1].Content() && chunks[|chunks| - 1].heading == c.heading
    ensures CarriesOver(chunks + [c], carried + [CarriedLength(p)])
    ensures Ink(NewText(chunks + [c], carried + [CarriedLength(p)]))
         == Ink(NewText(chunks, carried)) + Ink(Concat(p.own))
  {
    PacketRest(p);
    CarriesSnoc(chunks, carried, c, CarriedLength(p));
    BlankLine();
    JoinInk(p.own, "\n\n");
    InkAppend(NewText(chunks, carried), Join(p.own, "\n\n"));
  }

  /** A packed section's chunks. */
  lemma {:induction false} PackedCarries(section: Section, packets: seq<Packet>, sourceKey: string,
                                         hash: string -> string)
    returns (carried: seq<nat>)
    requires Packed(packets)
    ensures
      var chunks := ChunksOf(section, packets, sourceKey, hash);
      && |chunks| == |packets| && CarriesOver(chunks, carried)
      && (packets != [] ==>
            chunks[|packets| - 1].content == packets[|packets| - 1].Content()
            && chunks[|packets| - 1].heading == section.heading)
      && Ink(NewText(chunks, carried)) == Ink(Concat(OwnOf(packets)))
  {
    carried := [];
    if packets != [] {
      var n := |packets| - 1;
      var front := PackedCarries(section, packets[..n], sourceKey, hash);
      var c := ChunkOf(section, packets[..n], packets[n], sourceKey, hash);
      PacketCarries(ChunksOf(section, packets[..n], sourceKey, hash), front, c, packets[..n], packets[n]);
      ConcatInk(OwnOf(packets[..n]), packets[n].own);
      carried := front + [CarriedLength(packets[n])];
    }
  }

  lemma SmallCarries(section: Section, sourceKey: string, hash: string -> string)
    ensures
      var c := MakeChunk(section, sourceKey, hash);
      CarriesOver([c], [0]) && NewText([c], [0]) == section.content
  {
    var c := MakeChunk(section, sourceKey, hash);
    CarriesSnoc([], [], c, 0);
    assert [] + [c] == [c] && [] + [0] == [0];
  }

  lemma SectionCarries(section: Section, packets: seq<Packet>, sourceKey: string, hash: string -> string)
    returns (carried: seq<nat>)
    requires CutOf(section, packets)
    ensures
      var chunks := SectionChunks(section, packets, sourceKey, hash);
      CarriesOver(chunks, carried) && Ink(NewText(chunks, carried)) == Ink(section.content)
  {
    if |section.content| <= MAX_CHUNK_SIZE {
      carried := [0];
      SmallCarries(section, sourceKey, hash);
    } else {
      CutInk(section, packets);
      carried := PackedCarries(section, packets, sourceKey, hash);
    }
  }

  lemma {:induction false} SectionsCarry(lines: seq<string>, sections: seq<Section>, cuts: seq<seq<Packet>>, n: nat,
                                         sourceKey: string, hash: string -> string)
    returns (carried: seq<nat>)
    requires n <= |lines| && Sectioned(lines, sections, n) && Cut(sections, cuts)
    ensures
      var chunks := AllChunks(sections, cuts, sourceKey, hash);
      CarriesOver(chunks, carried) && Ink(NewText(chunks, carried)) == Ink(Text(lines[..n]))
    decreases |sections|
  {
    carried := [];
    if sections != [] {
      var k := |sections| - 1;
      var last := sections[k];
      CutPrefix(sections, cuts, k);
      var before := SectionsCarry(lines, sections[..k], cuts[..k], last.startLine - 1, sourceKey, hash);
      var own := SectionCarries(last, cuts[k], sourceKey, hash);
      var a, b := AllChunks(sections[..k], cuts[..k], sourceKey, hash), SectionChunks(last, cuts[k], sourceKey, hash);
      NewTextAppend(a, before, b, own);
      InkAppend(NewText(a, before), NewText(b, own));
      carried := before + own;
      LinesUpTo(lines, last.startLine - 1, n);
      TrimInk(Text(lines[last.startLine - 1..n]));
    }
  }

  /** The chunks of a document conserve it: leave out what each carries over from the one before it, and the visible
      text of the chunks, read in order, is that of the document. */
  lemma ChunksConserveText(text: string, sourceKey: string, hash: string -> string, sections: seq<Section>,
                           cuts: seq<seq<Packet>>, chunks: seq<Chunk>)
    returns (carried: seq<nat>)
    requires Chunked(text, sourceKey, hash, sections, cuts, chunks)
    ensures CarriesOver(chunks, carried) && Ink(NewText(chunks, carried)) == Ink(text)
  {
    var lines := Split(text, LineBreak);
    carried := SectionsCarry(lines, sections, cuts, |lines|, sourceKey, hash);
    assert lines[..|lines|] == lines;
    LinesInk(text);
  }

  // ---- Each section's chunks ----

  /** A chunk's two hashes are those of its content and of where it stands. */
  predicate Hashed(c: Chunk, sourceKey: string, hash: string -> string) {
    c.contentHash == hash(c.content) && c.id == hash(IdText(sourceKey, c.startLine, c.endLine, c.contentHash))
  }

  /** A small section is one chunk, with its heading, level, lines and content. */
  predicate WholeChunk(section: Section, c: Chunk, sourceKey: string, hash: string -> string) {
    && c.heading == section.heading && c.headingLevel == section.headingLevel
    && c.startLine == section.startLine && c.endLine == section.endLine && c.content == section.content
    && Hashed(c, sourceKey, hash)
  }

  /** Chunk `k` of a long section carries its heading and level; the first starts at the section's first line, each
      other two lines before the end of the one before it, and each ends as many lines on as its content has. */
  predicate FieldsOf(section: Section, chunks: seq<Chunk>, k: nat, sourceKey: string, hash: string -> string)
    requires k < |chunks|
  {
    && chunks[k].heading == section.heading && chunks[k].headingLevel == section.headingLevel
    && Hashed(chunks[k], sourceKey, hash)
    && chunks[k].endLine - chunks[k].startLine + 1 == LineCount(chunks[k].content)
    && chunks[k].startLine == if k == 0 then section.startLine else chunks[k - 1].endLine - 1
  }

  /** The chunks of a section: one if it has at most 1500 characters, else one or more, each as it should be. */
  predicate ChunksOfSection(section: Section, chunks: seq<Chunk>, sourceKey: string, hash: string -> string) {
    && chunks != []
    && if |section.content| <= 1500 then |chunks| == 1 && WholeChunk(section, chunks[0], sourceKey, hash)
       else forall k :: 0 <= k < |chunks| ==> FieldsOf(section, chunks, k, sourceKey, hash)
  }

  lemma {:induction false} PackedFields(section: Section, packets: seq<Packet>, sourceKey: string,
                                        hash: string -> string)
    ensures
      var chunks := ChunksOf(section, packets, sourceKey, hash);
      && |chunks| == |packets|
      && (forall k :: 0 <= k < |chunks| ==> FieldsOf(section, chunks, k, sourceKey, hash))
      && NextLine(section.startLine, packets)
           == if packets == [] then section.startLine else chunks[|chunks| - 1].endLine - 1
  {
    if packets != [] {
      var n := |packets| - 1;
      PackedFields(section, packets[..n], sourceKey, hash);
      FieldsSnoc(section, ChunksOf(section, packets[..n], sourceKey, hash),
        ChunkOf(section, packets[..n], packets[n], sourceKey, hash), sourceKey, hash);
    }
  }

  lemma FieldsSnoc(section: Section, chunks: seq<Chunk>, c: Chunk, sourceKey: string, hash: string -> string)
    requires forall k :: 0 <= k < |chunks| ==> FieldsOf(section, chunks, k, sourceKey, hash)
    requires FieldsOf(section, chunks + [c], |chunks|, sourceKey, hash)
    ensures forall k :: 0 <= k < |chunks + [c]| ==> FieldsOf(section, chunks + [c], k, sourceKey, hash)
  {
    forall k | 0 <= k < |chunks + [c]|
      ensures FieldsOf(section, chunks + [c], k, sourceKey, hash)
    {
      assert k < |chunks| ==> FieldsOf(section, chunks, k, sourceKey, hash);
    }
  }

  lemma SectionHasInk(lines: seq<string>, section: Section)
    requires IsSection(lines, section)
    ensures Ink(section.content) != ""
  {
    TrimTrims(Text(lines[section.startLine - 1..section.endLine]));
    HasInk(section.content, 0);
  }

  lemma SectionFields(lines: seq<string>, section: Section, packets: seq<Packet>, sourceKey: string,
                      hash: string -> string)
    requires IsSection(lines, section) && CutOf(section, packets)
    ensures ChunksOfSection(section, SectionChunks(section, packets, sourceKey, hash), sourceKey, hash)
  {
    if |section.content| > MAX_CHUNK_SIZE {
      SectionHasInk(lines, section);
      CutInk(section, packets);
      PackedFields(section, packets, sourceKey, hash);
    }
  }

  /** Where the chunks of section `k` begin when those of each section end there. */
  function From(ends: seq<nat>, k: nat): nat
    requires k <= |ends|
  {
    if k == 0 then 0 else ends[k - 1]
  }

  /** The chunks come section by section, each section's up to its end. */
  ghost predicate BySection(sections: seq<Section>, chunks: seq<Chunk>, ends: seq<nat>, sourceKey: string,
                            hash: string -> string) {
    && |ends| == |sections| && From(ends, |ends|) == |chunks|
    && forall k :: 0 <= k < |sections| ==> HasPart(sections, chunks, ends, k, sourceKey, hash)
  }

  predicate HasPart(sections: seq<Section>, chunks: seq<Chunk>, ends: seq<nat>, k: nat, sourceKey: string,
                    hash: string -> string)
    requires k < |sections| == |ends|
  {
    && From(ends, k) <= ends[k] <= |chunks|
    && ChunksOfSection(sections[k], chunks[From(ends, k)..ends[k]], sourceKey, hash)
  }

  lemma PartStays(sections: seq<Section>, chunks: seq<Chunk>, ends: seq<nat>, k: nat, section: Section,
                  own: seq<Chunk>, end: nat, sourceKey: string, hash: string -> string)
    requires k < |sections| == |ends| && HasPart(sections, chunks, ends, k, sourceKey, hash)
    ensures HasPart(sections + [section], chunks + own, ends + [end], k, sourceKey, hash)
  {
    assert (chunks + own)[From(ends, k)..ends[k]] == chunks[From(ends, k)..ends[k]];
  }

  lemma PartAdded(sections: seq<Section>, chunks: seq<Chunk>, ends: seq<nat>, section: Section, own: seq<Chunk>,
                  sourceKey: string, hash: string -> string)
    requires |ends| == |sections| && From(ends, |ends|) == |chunks|
    requires ChunksOfSection(section, own, sourceKey, hash)
    ensures HasPart(sections + [section], chunks + own, ends + [|chunks + own|], |sections|, sourceKey, hash)
  {
    assert (chunks + own)[|chunks|..|chunks + own|] == own;
  }

  lemma BySectionSnoc(sections: seq<Section>, chunks: seq<Chunk>, ends: seq<nat>, section: Section, own: seq<Chunk>,
                      sourceKey: string, hash: string -> string)
    requires BySection(sections, chunks, ends, sourceKey, hash) && ChunksOfSection(section, own, sourceKey, hash)
    ensures BySection(sections + [section], chunks + own, ends + [|chunks + own|], sourceKey, hash)
  {
    var more, all, later := sections + [section], chunks + own, ends + [|chunks + own|];
    forall k | 0 <= k < |more|
      ensures HasPart(more, all, later, k, sourceKey, hash)
    {
      if k < |sections| {
        assert HasPart(sections, chunks, ends, k, sourceKey, hash);
        PartStays(sections, chunks, ends, k, section, own, |all|, sourceKey, hash);
      } else {
        PartAdded(sections, chunks, ends, section, own, sourceKey, hash);
      }
    }
  }

  /** The chunks of one section more. */
  lemma OneMoreSection(lines: seq<string>, sections: seq<Section>, cuts: seq<seq<Packet>>, ends: seq<nat>,
                       sourceKey: string, hash: string -> string)
    returns (later: seq<nat>)
    requires sections != [] && |cuts| == |sections|
    requires
      var k := |sections| - 1;
      && IsSection(lines, sections[k]) && CutOf(sections[k], cuts[k])
      && BySection(sections[..k], AllChunks(sections[..k], cuts[..k], sourceKey, hash), ends, sourceKey, hash)
    ensures BySection(sections, AllChunks(sections, cuts, sourceKey, hash), later, sourceKey, hash)
  {
    var k := |sections| - 1;
    SectionFields(lines, sections[k], cuts[k], sourceKey, hash);
    later := AddPart(sections, AllChunks(sections[..k], cuts[..k], sourceKey, hash), ends,
      SectionChunks(sections[k], cuts[k], sourceKey, hash), sourceKey, hash);
  }

  lemma AddPart(sections: seq<Section>, front: seq<Chunk>, ends: seq<nat>, own: seq<Chunk>, sourceKey: string,
                hash: string -> string)
    returns (later: seq<nat>)
    requires sections != [] && ChunksOfSection(sections[|sections| - 1], own, sourceKey, hash)
    requires BySection(sections[..|sections| - 1], front, ends, sourceKey, hash)
    ensures BySection(sections, front + own, later, sourceKey, hash)
  {
    BySectionSnoc(sections[..|sections| - 1], front, ends, sections[|sections| - 1], own, sourceKey, hash);
    LastOf(sections);
    later := ends + [|front + own|];
  }

  lemma {:induction false} ChunksComeBySection(lines: seq<string>, sections: seq<Section>, cuts: seq<seq<Packet>>,
                                               n: nat, sourceKey: string, hash: string -> string)
    returns (ends: seq<nat>)
    requires n <= |lines| && Sectioned(lines, sections, n) && Cut(sections, cuts)
    ensures BySection(sections, AllChunks(sections, cuts, sourceKey, hash), ends, sourceKey, hash)
    decreases |sections|
  {
    ends := [];
    if sections != [] {
      var k := |sections| - 1;
      CutPrefix(sections, cuts, k);
      ends := ChunksComeBySection(lines, sections[..k], cuts[..k], sections[k].startLine - 1, sourceKey, hash);
      ends := OneMoreSection(lines, sections, cuts, ends, sourceKey, hash);
    }
  }

  /** The chunks of a document are those of its sections, one section after the other. */
  lemma EachSectionHasItsChunks(text: string, sourceKey: string, hash: string -> string, sections: seq<Section>,
                                cuts: seq<seq<Packet>>, chunks: seq<Chunk>)
    returns (ends: seq<nat>)
    requires Chunked(text, sourceKey, hash, sections, cuts, chunks)
    ensures BySection(sections, chunks, ends, sourceKey, hash)
  {
    var lines := Split(text, LineBreak);
    ends := ChunksComeBySection(lines, sections, cuts, |lines|, sourceKey, hash);
  }

  // ---- How full chunks are ----

  lemma {:induction false} JoinLength(ss: seq<string>)
    requires ss != []
    ensures |Join(ss, "\n\n")| == Length(ss) + 2 * (|ss| - 1)
  {
    if |ss| > 1 {
      var n := |ss| - 1;
      JoinLength(ss[..n]);
      LastOf(ss);
      JoinAppend(ss[..n], [ss[n]], "\n\n");
    } else {
      assert ss[..0] == [] && Length(ss) == |ss[0]|;
    }
  }

  lemma TrimStartShortens(s: string)
    ensures |TrimStart(s)| <= |s|
  {
    TrimStartTrims(s);
  }

  lemma ContentLength(p: Packet)
    requires p.own != []
    ensures |p.Content()| <= |p.carried| + Length(p.own) + 2 * |p.own|
  {
    JoinLength(p.own);
    TrimStartShortens(p.carried);
  }

  lemma FittingWeight(p: Packet)
    requires p.Fits() && |p.own| > 1
    ensures p.Weight() <= 1500
  {
    var n := |p.own| - 1;
    assert |p.carried| + Length(p.own[..n]) + |p.own[n]| <= MAX_CHUNK_SIZE;
  }

  /** Several paragraphs share a packet only if they and what is carried over come to at most 1500 characters, so that
      its content is hardly longer; and a packet is closed only when the next paragraph would make it more. */
  lemma PacketsAreFull(packets: seq<Packet>, k: nat)
    requires Packed(packets) && k < |packets|
    ensures
      var p := packets[k];
      && p.own != []
      && (|p.own| > 1 ==> |p.carried| + Length(p.own) <= 1500 && |p.Content()| <= 1500 + 2 * |p.own|)
      && p.carried == if k == 0 then "" else Overlap(packets[k - 1].Content())
    ensures k + 1 < |packets| ==>
      packets[k + 1].own != [] &&
      |packets[k].carried| + Length(packets[k].own) + |packets[k + 1].own[0]| > 1500
  {
    var p := packets[k];
    PackedAt(packets, k);
    if |p.own| > 1 {
      FittingWeight(p);
      ContentLength(p);
    }
    if k + 1 < |packets| {
      NextDidNotFit(packets, k);
    }
  }
}
