/** Cutting a markdown document into chunks. */
module MemoryChunker {
  import opened WorkflowNode
  import opened ChunkId
  import opened PlainText

  const MAX_CHUNK_SIZE: nat := 1500
  const OVERLAP_LINES: nat := 2

  datatype Section = Section(heading: string, headingLevel: nat, startLine: int, endLine: int, content: string)

  datatype Chunk = Chunk(
    id: string, heading: string, headingLevel: nat, startLine: int, endLine: int, content: string, contentHash: string)

  function LineBreak(s: string): nat {
    if s != "" && s[0] == '\n' then 1 else if |s| >= 2 && s[0] == '\r' && s[1] == '\n' then 2 else 0
  }

  function Newlines(s: string): (n: nat)
    ensures n <= |s| && forall k :: 0 <= k < n ==> s[k] == '\n'
  {
    if s != "" && s[0] == '\n' then 1 + Newlines(s[1..]) else 0
  }

  function ParagraphBreak(s: string): nat {
    if Newlines(s) >= 2 then Newlines(s) else 0
  }

  function MakeChunk(section: Section, sourceKey: string, hash: string -> string): Chunk {
    var h := hash(section.content);
    Chunk(hash(IdText(sourceKey, section.startLine, section.endLine, h)), section.heading, section.headingLevel,
          section.startLine, section.endLine, section.content, h)
  }

  // ---- Headings ----

  predicate OneLine(s: string) {
    '\n' !in s && '\r' !in s && '\U{2028}' !in s && '\U{2029}' !in s
  }

  function Hashes(line: string): (n: nat)
    ensures n <= |line|
  {
    if line != "" && line[0] == '#' then 1 + Hashes(line[1..]) else 0
  }

  /** `^(#{1,6})\s+(.*)$`: the level and the trimmed title of a heading line. */
  function Heading(line: string): Option<(nat, string)> {
    var n := Hashes(line);
    var after := line[n..];
    var title := TrimStart(after);
    if 1 <= n <= 6 && |title| < |after| && OneLine(title) then
      Some((n, Trim(title)))
    else None
  }

  lemma HeadingHasInk(line: string)
    requires Heading(line).Some?
    ensures Ink(line) != ""
  {
    assert line[0] == '#';
  }

  // ---- Sections ----

  function Text(lines: seq<string>): string {
    Join(lines, "\n")
  }

  /** Lines `startLine` to `endLine` of the document, from a heading (or the top) to before the next heading. */
  predicate IsSection(lines: seq<string>, s: Section) {
    && 1 <= s.startLine <= s.endLine <= |lines|
    && (s.startLine == 1 || Heading(lines[s.startLine - 1]).Some?)
    && (forall i :: s.startLine <= i < s.endLine ==> Heading(lines[i]).None?)
    && (s.headingLevel, s.heading) == HeadingOf(lines[s.startLine - 1])
    && s.content == Trim(Text(lines[s.startLine - 1..s.endLine]))
    && s.content != ""
  }

  function HeadingOf(line: string): (nat, string) {
    match Heading(line) case Some(h) => h case None => (0, "")
  }

  /** The sections follow each other without a gap up to line `n`, and nothing but white space comes before them. */
  predicate Sectioned(lines: seq<string>, sections: seq<Section>, n: nat)
    requires n <= |lines|
  {
    if sections == [] then Ink(Text(lines[..n])) == ""
    else
      var last := sections[|sections| - 1];
      IsSection(lines, last) && last.endLine == n && Sectioned(lines, sections[..|sections| - 1], last.startLine - 1)
  }

  /** After `i` lines: `sections` are closed, and `buf` holds the lines of the open section. */
  predicate Gathered(lines: seq<string>, sections: seq<Section>, current: Section, buf: seq<string>, i: nat)
    requires i <= |lines|
  {
    && 1 <= current.startLine && current.startLine - 1 <= i
    && buf == lines[current.startLine - 1..i] && (i > 0 ==> buf != [])
    && Open(lines, current, i)
    && Sectioned(lines, sections, current.startLine - 1)
  }

  /** The open section starts at the top or at a heading, has had no heading since, and carries that heading. */
  predicate Open(lines: seq<string>, s: Section, i: nat)
    requires i <= |lines| && 1 <= s.startLine && s.startLine - 1 <= i
  {
    && s.content == ""
    && (s.startLine == 1 || (s.startLine - 1 < i && Heading(lines[s.startLine - 1]).Some?))
    && (forall j :: s.startLine <= j < i ==> Heading(lines[j]).None?)
    && (s.headingLevel, s.heading) == (if s.startLine - 1 < i then HeadingOf(lines[s.startLine - 1]) else (0, ""))
  }

  lemma GatherLine(lines: seq<string>, sections: seq<Section>, current: Section, buf: seq<string>, i: nat)
    requires i < |lines| && Gathered(lines, sections, current, buf, i) && Heading(lines[i]).None?
    ensures Gathered(lines, sections, current, buf + [lines[i]], i + 1)
  {
    Snoc(lines, current.startLine - 1, i);
    OpenGrows(lines, current, i);
  }

  lemma OpenGrows(lines: seq<string>, s: Section, i: nat)
    requires i < |lines| && 1 <= s.startLine && s.startLine - 1 <= i && Open(lines, s, i)
    requires Heading(lines[i]).None? && (i > 0 ==> s.startLine - 1 < i)
    ensures Open(lines, s, i + 1)
  {
  }

  lemma Snoc(lines: seq<string>, a: nat, i: nat)
    requires a <= i < |lines|
    ensures lines[a..i] + [lines[i]] == lines[a..i + 1]
  {
  }

  lemma GatherHeading(lines: seq<string>, sections: seq<Section>, i: nat, endLine: int)
    requires i < |lines| && Sectioned(lines, sections, i) && Heading(lines[i]).Some?
    ensures var h := Heading(lines[i]).value;
      Gathered(lines, sections, Section(h.1, h.0, i + 1, endLine, ""), [lines[i]], i + 1)
  {
    Slice(lines, i);
  }

  lemma Slice(lines: seq<string>, i: nat)
    requires i < |lines|
    ensures lines[i..i + 1] == [lines[i]]
  {
  }

  /** Closes the open section before line `i` (counted from zero) and keeps it unless it is blank. */
  method CloseSection(sections: seq<Section>, current: Section, buf: seq<string>, i: nat, ghost lines: seq<string>)
    returns (closed: seq<Section>)
    requires i <= |lines| && Gathered(lines, sections, current, buf, i)
    ensures Sectioned(lines, closed, i)
  {
    var done := current.(content := Trim(Join(buf, "\n")), endLine := i);
    Close(lines, sections, current, done, i);
    closed := if done.content != "" then sections + [done] else sections;
  }

  /** A heading closes the section before it and opens its own. */
  method TakeHeading(lines: seq<string>, i: nat, m: (nat, string), sections0: seq<Section>, current0: Section,
                     buf0: seq<string>)
    returns (sections: seq<Section>, current: Section, buf: seq<string>)
    requires i < |lines| && Gathered(lines, sections0, current0, buf0, i) && Heading(lines[i]) == Some(m)
    ensures buf == [] && Sectioned(lines, sections, i)
    ensures current == Section(m.1, m.0, i + 1, current.endLine, "")
  {
    sections, current, buf := sections0, current0, buf0;
    if buf != [] {
      sections := CloseSection(sections, current, buf, i, lines);
      buf := [];
      current := Section(m.1, m.0, i + 1, i + 1, "");
    }
    if buf == [] && current.content == "" {
      current := current.(heading := m.1, headingLevel := m.0, startLine := i + 1);
    }
  }

  /** One line: a heading, or a line of the open section. */
  method TakeLine(lines: seq<string>, i: nat, sections0: seq<Section>, current0: Section, buf0: seq<string>)
    returns (sections: seq<Section>, current: Section, buf: seq<string>)
    requires i < |lines| && Gathered(lines, sections0, current0, buf0, i)
    ensures Gathered(lines, sections, current, buf, i + 1)
  {
    sections, current, buf := sections0, current0, buf0;
    var m := Heading(lines[i]);
    if m.Some? {
      sections, current, buf := TakeHeading(lines, i, m.value, sections, current, buf);
      GatherHeading(lines, sections, i, current.endLine);
    } else {
      GatherLine(lines, sections, current, buf, i);
    }
    buf := buf + [lines[i]];
  }

  method SplitByHeading(lines: seq<string>) returns (sections: seq<Section>)
    ensures Sectioned(lines, sections, |lines|)
  {
    sections := [];
    var current := Section("", 0, 1, 1, "");
    var buf: seq<string> := [];
    for i := 0 to |lines|
      invariant Gathered(lines, sections, current, buf, i)
    {
      sections, current, buf := TakeLine(lines, i, sections, current, buf);
    }
    sections := CloseSection(sections, current, buf, |lines|, lines);
  }

  /** Only text before the first heading can be blank. */
  lemma OnlyTopIsBlank(lines: seq<string>, s: Section, i: nat)
    requires i <= |lines| && 1 <= s.startLine && s.startLine - 1 <= i && Open(lines, s, i)
    requires Trim(Text(lines[s.startLine - 1..i])) == ""
    ensures s.startLine == 1 && Ink(Text(lines[..i])) == ""
  {
    var text := Text(lines[s.startLine - 1..i]);
    TrimInk(text);
    assert Ink(text) == "";
    if s.startLine > 1 {
      var head, rest := lines[s.startLine - 1], lines[s.startLine..i];
      assert [head] + rest == lines[s.startLine - 1..i];
      HeadingHasInk(head);
      TextInk([head], rest);
    }
    assert lines[0..i] == lines[..i];
  }

  lemma Close(lines: seq<string>, sections: seq<Section>, open: Section, s: Section, i: nat)
    requires i <= |lines| && 1 <= s.startLine == open.startLine && s.startLine - 1 <= i && Open(lines, open, i)
    requires Sectioned(lines, sections, s.startLine - 1)
    requires s == open.(endLine := i, content := Trim(Text(lines[s.startLine - 1..i])))
    ensures Sectioned(lines, if s.content != "" then sections + [s] else sections, i)
  {
    if s.content == "" {
      OnlyTopIsBlank(lines, open, i);
    } else {
      ClosedIsSection(lines, open, s, i);
      Append(lines, sections, s);
    }
  }

  lemma ClosedIsSection(lines: seq<string>, open: Section, s: Section, i: nat)
    requires i <= |lines| && 1 <= s.startLine == open.startLine && s.startLine - 1 <= i && Open(lines, open, i)
    requires s == open.(endLine := i, content := Trim(Text(lines[s.startLine - 1..i]))) && s.content != ""
    ensures IsSection(lines, s)
  {
    Nonempty(lines, s.startLine - 1, i);
  }

  lemma Append(lines: seq<string>, sections: seq<Section>, s: Section)
    requires IsSection(lines, s) && Sectioned(lines, sections, s.startLine - 1)
    ensures Sectioned(lines, sections + [s], s.endLine)
  {
    assert (sections + [s])[..|sections|] == sections;
  }

  lemma Nonempty(lines: seq<string>, a: nat, b: nat)
    requires a <= b <= |lines| && Trim(Text(lines[a..b])) != ""
    ensures a < b
  {
  }

  lemma TextInk(a: seq<string>, b: seq<string>)
    ensures Ink(Text(a + b)) == Ink(Text(a)) + Ink(Text(b))
  {
    JoinInk(a, "\n");
    JoinInk(b, "\n");
    JoinInk(a + b, "\n");
    ConcatInk(a, b);
  }

  // ---- Paragraphs ----

  /** The trimmed paragraphs among the pieces, without the blank ones. */
  function Paragraphs(pieces: seq<string>): (ps: seq<string>)
    ensures AllTrimmed(ps)
  {
    if pieces == [] then []
    else
      var p := Trim(pieces[0]);
      TrimTrims(pieces[0]);
      (if p == "" then [] else [p]) + Paragraphs(pieces[1..])
  }

  function ParagraphsOf(content: string): (ps: seq<string>)
    ensures AllTrimmed(ps)
  {
    Paragraphs(Split(content, ParagraphBreak))
  }

  /** The last `OVERLAP_LINES` lines. */
  function Overlap(content: string): string {
    var lines := Split(content, Newline);
    Join(lines[if |lines| > OVERLAP_LINES then |lines| - OVERLAP_LINES else 0..], "\n")
  }

  function LineCount(content: string): nat {
    |Split(content, Newline)|
  }

  function Length(ps: seq<string>): nat {
    if ps == [] then 0 else Length(ps[..|ps| - 1]) + |ps[|ps| - 1]|
  }

  /** What one chunk is made of: lines carried over from the chunk before it, and paragraphs of its own. */
  datatype Packet = Packet(carried: string, own: seq<string>) {
    function Weight(): nat {
      |carried| + Length(own)
    }

    function Content(): string {
      (if carried == "" then "" else TrimStart(carried) + "\n\n") + Join(own, "\n\n")
    }

    /** Each paragraph after the first still fitted. */
    predicate Fits() {
      forall j :: 0 < j < |own| ==> |carried| + Length(own[..j]) + |own[j]| <= MAX_CHUNK_SIZE
    }
  }

  /** Packets filled greedily: none is empty, each but the first carries over the tail of the one before, and each
      was closed only because the next paragraph did not fit. */
  predicate Packed(packets: seq<Packet>) {
    packets == [] || (
      var n := |packets| - 1;
      Packed(packets[..n]) && Joins(packets[..n], packets[n]))
  }

  predicate Joins(before: seq<Packet>, p: Packet) {
    && p.own != [] && p.Fits()
    && if before == [] then p.carried == ""
       else
         var prior := before[|before| - 1];
         p.carried == Overlap(prior.Content()) && prior.Weight() + |p.own[0]| > MAX_CHUNK_SIZE
  }

  lemma PacketSnoc(packets: seq<Packet>, p: Packet, section: Section, sourceKey: string, hash: string -> string)
    ensures Packed(packets + [p]) <==> Packed(packets) && Joins(packets, p)
    ensures OwnOf(packets + [p]) == OwnOf(packets) + p.own
    ensures NextLine(section.startLine, packets + [p])
         == NextLine(section.startLine, packets) + LineCount(p.Content()) - OVERLAP_LINES
    ensures ChunksOf(section, packets + [p], sourceKey, hash)
         == ChunksOf(section, packets, sourceKey, hash) + [ChunkOf(section, packets, p, sourceKey, hash)]
  {
    assert (packets + [p])[..|packets|] == packets;
  }

  function OwnOf(packets: seq<Packet>): seq<string> {
    if packets == [] then [] else OwnOf(packets[..|packets| - 1]) + packets[|packets| - 1].own
  }

  /** The line the next chunk is said to start at. */
  function NextLine(start: int, packets: seq<Packet>): int {
    if packets == [] then start
    else NextLine(start, packets[..|packets| - 1]) + LineCount(packets[|packets| - 1].Content()) - OVERLAP_LINES
  }

  function ChunkOf(section: Section, before: seq<Packet>, p: Packet, sourceKey: string, hash: string -> string): Chunk {
    var start := NextLine(section.startLine, before);
    var endLine := start + LineCount(p.Content()) - 1;
    MakeChunk(Section(section.heading, section.headingLevel, start, endLine, p.Content()), sourceKey, hash)
  }

  function ChunksOf(section: Section, packets: seq<Packet>, sourceKey: string, hash: string -> string): seq<Chunk> {
    if packets == [] then []
    else
      var n := |packets| - 1;
      ChunksOf(section, packets[..n], sourceKey, hash) + [ChunkOf(section, packets[..n], packets[n], sourceKey, hash)]
  }

  lemma PacketIsTrimmed(p: Packet)
    requires p.own != [] && AllTrimmed(p.own) && (p.carried != "" ==> Ink(p.carried) != "")
    ensures p.Content() == Trim(Join(Buffer(p), "\n\n"))
    ensures p.Content() != "" && !IsSpace(p.Content()[|p.Content()| - 1])
  {
    var body := Join(p.own, "\n\n");
    JoinTrimmed(p.own, "\n\n");
    if p.carried == "" {
      assert [] + p.own == p.own;
      TrimKeeps(body);
    } else {
      JoinAppend([p.carried], p.own, "\n\n");
      assert p.carried + "\n\n" + body == p.carried + ("\n\n" + body);
      TrimStartAppend(p.carried, "\n\n" + body);
      assert TrimStart(p.carried) + "\n\n" + body == TrimStart(p.carried) + ("\n\n" + body);
      TrimEndKeeps(TrimStart(p.carried) + ("\n\n" + body));
    }
  }

  function Buffer(p: Packet): seq<string> {
    (if p.carried == "" then [] else [p.carried]) + p.own
  }

  lemma OverlapHasInk(s: string)
    requires s != "" && !IsSpace(s[|s| - 1])
    ensures Ink(Overlap(s)) != ""
  {
    var lines := Split(s, Newline);
    JoinSplit(s);
    var tail := Overlap(s);
    if |lines| > OVERLAP_LINES {
      var n := |lines| - OVERLAP_LINES;
      assert lines == lines[..n] + lines[n..];
      JoinAppend(lines[..n], lines[n..], "\n");
      assert s == Join(lines[..n], "\n") + "\n" + tail;
    } else {
      assert lines[0..] == lines;
    }
    assert tail != "" && tail[|tail| - 1] == s[|s| - 1];
    HasInk(tail, |tail| - 1);
  }

  lemma ParagraphsCons(piece: string, pieces: seq<string>)
    ensures var p := Trim(piece);
      Paragraphs([piece] + pieces) == (if p == "" then [] else [p]) + Paragraphs(pieces)
  {
    assert ([piece] + pieces)[1..] == pieces;
  }

  lemma {:induction false} ParagraphsSnoc(pieces: seq<string>, i: nat)
    requires i < |pieces|
    ensures var p := Trim(pieces[i]);
      Paragraphs(pieces[..i + 1]) == Paragraphs(pieces[..i]) + if p == "" then [] else [p]
  {
    var rest := pieces[1..];
    if i == 0 {
      assert pieces[..1] == [pieces[0]] && pieces[..1][1..] == [] && pieces[..0] == [];
    } else {
      ParagraphsSnoc(rest, i - 1);
      assert pieces[..i + 1] == [pieces[0]] + rest[..i] && pieces[..i] == [pieces[0]] + rest[..i - 1];
      ParagraphsCons(pieces[0], rest[..i]);
      ParagraphsCons(pieces[0], rest[..i - 1]);
    }
  }

  /** The closed packets, the one being filled, and the variables that hold it. */
  predicate Packing(packets: seq<Packet>, open: Packet, buf: seq<string>, bufLen: nat) {
    && buf == Buffer(open) && bufLen == open.Weight()
    && AllTrimmed(open.own) && (open.carried != "" ==> Ink(open.carried) != "")
    && Packed(packets)
    && if open.own == [] then packets == [] && open.carried == "" else Joins(packets, open)
  }

  lemma OwnSnoc(open: Packet, p: string)
    requires open.Fits() && (open.Weight() + |p| <= MAX_CHUNK_SIZE || open.own == [])
    ensures var next := open.(own := open.own + [p]);
      next.Fits() && next.Weight() == open.Weight() + |p| && Buffer(next) == Buffer(open) + [p]
  {
    var next := open.(own := open.own + [p]);
    assert next.own[..|open.own|] == open.own;
    forall j | 0 < j < |next.own|
      ensures |next.carried| + Length(next.own[..j]) + |next.own[j]| <= MAX_CHUNK_SIZE
    {
      if j < |open.own| {
        assert next.own[..j] == open.own[..j] && next.own[j] == open.own[j];
      }
    }
  }

  /** A paragraph that fits, or the very first, joins the open packet. */
  lemma Push(packets: seq<Packet>, open: Packet, buf: seq<string>, bufLen: nat, p: string)
    requires Packing(packets, open, buf, bufLen) && Trimmed(p)
    requires bufLen + |p| <= MAX_CHUNK_SIZE || buf == []
    ensures Packing(packets, open.(own := open.own + [p]), buf + [p], bufLen + |p|)
  {
    OwnSnoc(open, p);
  }

  /** A paragraph that does not fit closes the open packet and starts the next one. */
  lemma Turn(packets: seq<Packet>, open: Packet, buf: seq<string>, bufLen: nat, p: string)
    requires Packing(packets, open, buf, bufLen) && Trimmed(p)
    requires bufLen + |p| > MAX_CHUNK_SIZE && buf != []
    ensures open.Content() == Trim(Join(buf, "\n\n")) && Overlap(open.Content()) != ""
    ensures var carried := Overlap(open.Content());
      Packing(packets + [open], Packet(carried, [p]), [carried] + [p], |carried| + |p|)
  {
    PacketIsTrimmed(open);
    OverlapHasInk(open.Content());
    NextPacket(Overlap(open.Content()), p);
    ClosedBefore(packets, open);
  }

  lemma ClosedBefore(packets: seq<Packet>, open: Packet)
    ensures (packets + [open])[..|packets|] == packets
  {
  }

  lemma NextPacket(carried: string, p: string)
    ensures var next := Packet(carried, [p]);
      next.Fits() && next.Weight() == |carried| + |p| && (carried != "" ==> Buffer(next) == [carried] + [p])
  {
    OwnSnoc(Packet(carried, []), p);
    assert [] + [p] == [p];
  }

  /** Where the cutting of a section stands once these paragraphs are taken. */
  predicate Cutting(section: Section, sourceKey: string, hash: string -> string, taken: seq<string>,
                    packets: seq<Packet>,
                    open: Packet, chunks: seq<Chunk>, chunkStart: int) {
    && OwnOf(packets) + open.own == taken
    && chunks == ChunksOf(section, packets, sourceKey, hash)
    && chunkStart == NextLine(section.startLine, packets)
  }

  lemma PushCut(section: Section, sourceKey: string, hash: string -> string, taken: seq<string>, packets: seq<Packet>,
                open: Packet, chunks: seq<Chunk>, chunkStart: int, p: string)
    requires Cutting(section, sourceKey, hash, taken, packets, open, chunks, chunkStart)
    ensures Cutting(section, sourceKey, hash, taken + [p], packets, open.(own := open.own + [p]), chunks, chunkStart)
  {
  }

  lemma TurnCut(section: Section, sourceKey: string, hash: string -> string, taken: seq<string>, packets: seq<Packet>,
                open: Packet, chunks: seq<Chunk>, chunkStart: int, next: Packet)
    requires Cutting(section, sourceKey, hash, taken, packets, open, chunks, chunkStart)
    ensures Cutting(section, sourceKey, hash, taken + next.own, packets + [open], next,
                    chunks + [ChunkOf(section, packets, open, sourceKey, hash)],
                    chunkStart + LineCount(open.Content()) - OVERLAP_LINES)
  {
    PacketSnoc(packets, open, section, sourceKey, hash);
  }

  /** The chunk of the buffered paragraphs. */
  method CloseChunk(section: Section, buf: seq<string>, chunkStart: int, sourceKey: string, hash: string -> string,
                    ghost packets: seq<Packet>, ghost open: Packet) returns (chunk: Chunk, lineCount: nat)
    requires buf == Buffer(open) && open.Content() == Trim(Join(buf, "\n\n"))
    requires chunkStart == NextLine(section.startLine, packets)
    ensures chunk == ChunkOf(section, packets, open, sourceKey, hash)
    ensures chunk.content == open.Content() && lineCount == LineCount(chunk.content)
  {
    var content := Trim(Join(buf, "\n\n"));
    lineCount := LineCount(content);
    chunk := MakeChunk(
      Section(section.heading, section.headingLevel, chunkStart, chunkStart + lineCount - 1, content), sourceKey, hash);
  }

  /** Closes the open chunk before a paragraph that does not fit, and starts the next with the tail of it. */
  method TurnOver(section: Section, chunks0: seq<Chunk>, buf0: seq<string>, bufLen0: nat, chunkStart0: int,
                  para: string, sourceKey: string, hash: string -> string, ghost taken: seq<string>,
                  ghost packets: seq<Packet>, ghost open: Packet)
    returns (chunks: seq<Chunk>, buf: seq<string>, bufLen: nat, chunkStart: int)
    requires Packing(packets, open, buf0, bufLen0) && Trimmed(para)
    requires Cutting(section, sourceKey, hash, taken, packets, open, chunks0, chunkStart0)
    requires bufLen0 + |para| > MAX_CHUNK_SIZE && buf0 != []
    ensures
      var next := Packet(Overlap(open.Content()), [para]);
      && Packing(packets + [open], next, buf + [para], bufLen + |para|)
      && Cutting(section, sourceKey, hash, taken + [para], packets + [open], next, chunks, chunkStart)
  {
    Turn(packets, open, buf0, bufLen0, para);
    TurnCut(section, sourceKey, hash, taken, packets, open, chunks0, chunkStart0,
      Packet(Overlap(open.Content()), [para]));
    var chunk, lineCount := CloseChunk(section, buf0, chunkStart0, sourceKey, hash, packets, open);
    chunks := chunks0 + [chunk];
    var overlap := Overlap(chunk.content);
    buf := if overlap != "" then [overlap] else [];
    bufLen := |overlap|;
    chunkStart := chunkStart0 + lineCount - OVERLAP_LINES;
  }

  method SplitByParagraph(section: Section, sourceKey: string, hash: string -> string)
    returns (chunks: seq<Chunk>, ghost packets: seq<Packet>)
    ensures Packed(packets) && OwnOf(packets) == ParagraphsOf(section.content)
    ensures chunks == ChunksOf(section, packets, sourceKey, hash)
  {
    var paragraphs := Split(section.content, ParagraphBreak);
    chunks, packets := [], [];
    var buf: seq<string> := [];
    var bufLen: nat := 0;
    var chunkStart := section.startLine;
    ghost var open := Packet("", []);
    for i := 0 to |paragraphs|
      invariant Packing(packets, open, buf, bufLen)
      invariant Cutting(section, sourceKey, hash, Paragraphs(paragraphs[..i]), packets, open, chunks, chunkStart)
    {
      var para := Trim(paragraphs[i]);
      ParagraphsSnoc(paragraphs, i);
      TrimTrims(paragraphs[i]);
      if para == "" {
        continue;
      }
      ghost var taken := Paragraphs(paragraphs[..i]);
      if bufLen + |para| > MAX_CHUNK_SIZE && |buf| > 0 {
        chunks, buf, bufLen, chunkStart :=
          TurnOver(section, chunks, buf, bufLen, chunkStart, para, sourceKey, hash, taken, packets, open);
        packets, open := packets + [open], Packet(Overlap(open.Content()), [para]);
      } else {
        Push(packets, open, buf, bufLen, para);
        PushCut(section, sourceKey, hash, taken, packets, open, chunks, chunkStart, para);
        open := open.(own := open.own + [para]);
      }
      buf := buf + [para];
      bufLen := bufLen + |para|;
    }
    assert paragraphs[..|paragraphs|] == paragraphs;
    if |buf| > 0 {
      PacketIsTrimmed(open);
      PacketSnoc(packets, open, section, sourceKey, hash);
      var chunk, lineCount := CloseChunk(section, buf, chunkStart, sourceKey, hash, packets, open);
      if chunk.content != "" {
        chunks := chunks + [chunk];
      }
      packets := packets + [open];
    }
  }

  // ---- Documents ----

  /** How a section is cut: whole when it is small, at paragraphs otherwise. */
  predicate CutOf(section: Section, packets: seq<Packet>) {
    if |section.content| <= MAX_CHUNK_SIZE then packets == [Packet("", [section.content])]
    else Packed(packets) && OwnOf(packets) == ParagraphsOf(section.content)
  }

  function SectionChunks(section: Section, packets: seq<Packet>, sourceKey: string,
                         hash: string -> string): seq<Chunk> {
    if |section.content| <= MAX_CHUNK_SIZE then [MakeChunk(section, sourceKey, hash)]
    else ChunksOf(section, packets, sourceKey, hash)
  }

  predicate Cut(sections: seq<Section>, cuts: seq<seq<Packet>>) {
    |cuts| == |sections| && forall k :: 0 <= k < |sections| ==> CutOf(sections[k], cuts[k])
  }

  function AllChunks(sections: seq<Section>, cuts: seq<seq<Packet>>, sourceKey: string,
                     hash: string -> string): seq<Chunk>
    requires |cuts| == |sections|
  {
    if sections == [] then []
    else
      var n := |sections| - 1;
      AllChunks(sections[..n], cuts[..n], sourceKey, hash) + SectionChunks(sections[n], cuts[n], sourceKey, hash)
  }

  lemma TakeSnoc<T>(s: seq<T>, i: nat)
    requires i < |s|
    ensures s[..i + 1] == s[..i] + [s[i]]
  {
  }

  lemma CutSnoc(sections: seq<Section>, cuts: seq<seq<Packet>>, section: Section, packets: seq<Packet>,
                sourceKey: string,
                hash: string -> string)
    requires Cut(sections, cuts) && CutOf(section, packets)
    ensures Cut(sections + [section], cuts + [packets])
    ensures AllChunks(sections + [section], cuts + [packets], sourceKey, hash)
         == AllChunks(sections, cuts, sourceKey, hash) + SectionChunks(section, packets, sourceKey, hash)
  {
    assert (sections + [section])[..|sections|] == sections && (cuts + [packets])[..|cuts|] == cuts;
  }

  /** These are the chunks of the document, cut into these sections and those into these packets. */
  predicate Chunked(text: string, sourceKey: string, hash: string -> string, sections: seq<Section>,
                    cuts: seq<seq<Packet>>,
                    chunks: seq<Chunk>) {
    var lines := Split(text, LineBreak);
    Sectioned(lines, sections, |lines|) && Cut(sections, cuts) && chunks == AllChunks(sections, cuts, sourceKey, hash)
  }

  method ChunkMarkdown(text: string, sourceKey: string, hash: string -> string)
    returns (chunks: seq<Chunk>, ghost sections: seq<Section>, ghost cuts: seq<seq<Packet>>)
    ensures Chunked(text, sourceKey, hash, sections, cuts, chunks)
  {
    var lines := Split(text, LineBreak);
    var found := SplitByHeading(lines);
    sections := found;
    chunks, cuts := ChunkSections(found, sourceKey, hash);
  }

  method ChunkSections(sections: seq<Section>, sourceKey: string, hash: string -> string)
    returns (chunks: seq<Chunk>, ghost cuts: seq<seq<Packet>>)
    ensures Cut(sections, cuts) && chunks == AllChunks(sections, cuts, sourceKey, hash)
  {
    chunks, cuts := [], [];
    for i := 0 to |sections|
      invariant Cut(sections[..i], cuts) && chunks == AllChunks(sections[..i], cuts, sourceKey, hash)
    {
      var own, packets := ChunkSection(sections[i], sourceKey, hash);
      CutSnoc(sections[..i], cuts, sections[i], packets, sourceKey, hash);
      TakeSnoc(sections, i);
      chunks, cuts := chunks + own, cuts + [packets];
    }
    assert sections[..|sections|] == sections;
  }

  method ChunkSection(section: Section, sourceKey: string, hash: string -> string)
    returns (chunks: seq<Chunk>, ghost packets: seq<Packet>)
    ensures CutOf(section, packets) && chunks == SectionChunks(section, packets, sourceKey, hash)
  {
    if |section.content| <= MAX_CHUNK_SIZE {
      chunks, packets := [MakeChunk(section, sourceKey, hash)], [Packet("", [section.content])];
    } else {
      chunks, packets := SplitByParagraph(section, sourceKey, hash);
    }
  }
}
