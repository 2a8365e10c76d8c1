/** JSON texts as section 2 and following of RFC 8259 allow them to be printed, and why extraction undoes printing. */
module JsonText {
  import opened WorkflowNode
  import opened BalancedJson

  // ---- Values and printing ----

  /** A number is kept as its own text. */
  datatype Json =
    | JNull
    | JBool(b: bool)
    | JNumber(text: string)
    | JString(s: string)
    | JArray(items: seq<Json>)
    | JObject(members: seq<Member>)

  datatype Member = Member(key: string, value: Json)

  predicate IsBlank(s: string) {
    forall k :: 0 <= k < |s| ==> s[k] == ' ' || s[k] == '\t' || s[k] == '\n' || s[k] == '\r'
  }

  predicate IsHex(ch: char) {
    '0' <= ch <= '9' || 'a' <= ch <= 'f' || 'A' <= ch <= 'F'
  }

  /** A two-character or a six-character sequence that starts with a backslash. */
  predicate IsEscape(e: string) {
    || (|e| == 2 && e[0] == '\\' && e[1] in "\"\\/bfnrt")
    || (|e| == 6 && e[0] == '\\' && e[1] == 'u' && forall k :: 2 <= k < 6 ==> IsHex(e[k]))
  }

  /** Section 7: a character other than the quote, the backslash and the controls may stand for itself; any may be
      written as an escape sequence, or as a pair of them. (Which character a sequence stands for plays no part here.)
      */
  predicate EscapeOk(ch: char, e: string) {
    || (e == [ch] && ch != '"' && ch != '\\' && ch >= ' ')
    || IsEscape(e)
    || (|e| == 12 && IsEscape(e[..6]) && IsEscape(e[6..]))
  }

  /** Number texts use digits, signs, the point and the exponent letters. */
  predicate NumberOk(text: string) {
    forall k :: 0 <= k < |text| ==> '0' <= text[k] <= '9' || text[k] in "+-.eE"
  }

  /** The text between the quotes of a literal, character by character. */
  ghost predicate Spells(s: string, t: string) {
    if s == "" then t == ""
    else exists k :: 0 <= k <= |t| && Spells(s[..|s| - 1], t[..k]) && EscapeOk(s[|s| - 1], t[k..])
  }

  predicate Between(t: string, o: char, c: char) {
    |t| >= 2 && t[0] == o && t[|t| - 1] == c
  }

  function Body(t: string): string
    requires |t| >= 2
  {
    t[1..|t| - 1]
  }

  ghost predicate PrintsString(s: string, t: string) {
    Between(t, '"', '"') && Spells(s, Body(t))
  }

  /** The text is one way to print the value: white space may stand around each structural character, and each character
      of a string may be written in each of its ways, every time anew. */
  ghost predicate Prints(v: Json, t: string)
    decreases v, 1
  {
    match v
    case JNull => t == "null"
    case JBool(b) => t == if b then "true" else "false"
    case JNumber(text) => t == text && NumberOk(text)
    case JString(s) => PrintsString(s, t)
    case JArray(items) => Between(t, '[', ']') && PrintsItems(items, Body(t))
    case JObject(members) => Between(t, '{', '}') && PrintsMembers(members, Body(t))
  }

  ghost predicate PrintsItems(items: seq<Json>, t: string)
    decreases items, 0, 1
  {
    if items == [] then IsBlank(t) else exists i: nat, j: nat, k: nat :: ItemAt(items, t, i, j, k)
  }

  /** The first item stands from `i` to `j`, and `k` is where the next separator or the end is. */
  ghost predicate ItemAt(items: seq<Json>, t: string, i: nat, j: nat, k: nat)
    requires items != []
    decreases items, 0, 0
  {
    && i <= j <= k <= |t| && IsBlank(t[..i]) && Prints(items[0], t[i..j]) && IsBlank(t[j..k])
    && if |items| == 1 then k == |t| else k < |t| && t[k] == ',' && PrintsItems(items[1..], t[k + 1..])
  }

  ghost predicate PrintsMembers(members: seq<Member>, t: string)
    decreases members, 0, 1
  {
    if members == [] then IsBlank(t)
    else exists i: nat, j: nat, c: nat, a: nat, b: nat, k: nat :: MemberAt(members, t, i, j, c, a, b, k)
  }

  /** The first key stands from `i` to `j`, its colon at `c`, its value from `a` to `b`, and `k` is where the next
      separator or the end is. */
  ghost predicate MemberAt(members: seq<Member>, t: string, i: nat, j: nat, c: nat, a: nat, b: nat, k: nat)
    requires members != []
    decreases members, 0, 0
  {
    && i <= j <= c < a <= b <= k <= |t|
    && IsBlank(t[..i]) && PrintsString(members[0].key, t[i..j]) && IsBlank(t[j..c]) && t[c] == ':'
    && IsBlank(t[c + 1..a]) && Prints(members[0].value, t[a..b]) && IsBlank(t[b..k])
    && if |members| == 1 then k == |t| else k < |t| && t[k] == ',' && PrintsMembers(members[1..], t[k + 1..])
  }

  // ---- Scanning as a fold ----

  datatype Lex = Lex(depth: int, inString: bool, escaping: bool)

  function Feed(o: char, c: char, st: Lex, ch: char): Lex {
    if st.inString then
      if st.escaping then st.(escaping := false)
      else if ch == '\\' then st.(escaping := true)
      else if ch == '"' then st.(inString := false)
      else st
    else if ch == '"' then st.(inString := true)
    else if ch == o then st.(depth := st.depth + 1)
    else if ch == c then st.(depth := st.depth - 1)
    else st
  }

  function Scan(o: char, c: char, st: Lex, s: string): Lex {
    if s == "" then st else Feed(o, c, Scan(o, c, st, s[..|s| - 1]), s[|s| - 1])
  }

  const OUTSIDE := Lex(0, false, false)

  /** The fold agrees with the reference count of depth and quotes. */
  lemma {:induction false} ScanIsDepth(o: char, c: char, s: string, i: nat)
    requires i <= |s| && o != '"' && c != '"' && o != c
    ensures
      Scan(o, c, OUTSIDE, s[..i]) ==
        Lex(Depth(o, c, s, i), InLiteral(s, i), InLiteral(s, i) && BackslashRun(s, i) % 2 == 1)
  {
    if i > 0 {
      ScanIsDepth(o, c, s, i - 1);
      assert s[..i][..i - 1] == s[..i - 1];
    }
  }

  lemma {:induction false} ScanConcat(o: char, c: char, st: Lex, a: string, b: string)
    ensures Scan(o, c, st, a + b) == Scan(o, c, Scan(o, c, st, a), b)
  {
    if b == "" {
      assert a + b == a;
    } else {
      ScanConcat(o, c, st, a, b[..|b| - 1]);
      assert (a + b)[..|a + b| - 1] == a + b[..|b| - 1];
    }
  }

  lemma {:induction false} ScanShift(o: char, c: char, d: int, st: Lex, s: string)
    ensures Scan(o, c, st.(depth := st.depth + d), s) == Scan(o, c, st, s).(depth := Scan(o, c, st, s).depth + d)
  {
    if s != "" {
      ScanShift(o, c, d, st, s[..|s| - 1]);
    }
  }

  /** Scanned from outside a literal, `s` comes back outside at the same depth and never goes below it. */
  ghost predicate Neutral(o: char, c: char, s: string) {
    && Scan(o, c, OUTSIDE, s) == OUTSIDE
    && forall k :: 0 <= k <= |s| ==> Scan(o, c, OUTSIDE, s[..k]).depth >= 0
  }

  lemma NeutralConcat(o: char, c: char, a: string, b: string)
    requires Neutral(o, c, a) && Neutral(o, c, b)
    ensures Neutral(o, c, a + b)
  {
    ScanConcat(o, c, OUTSIDE, a, b);
    forall k | 0 <= k <= |a + b|
      ensures Scan(o, c, OUTSIDE, (a + b)[..k]).depth >= 0
    {
      if k <= |a| {
        assert (a + b)[..k] == a[..k];
      } else {
        assert (a + b)[..k] == a + b[..k - |a|];
        ScanConcat(o, c, OUTSIDE, a, b[..k - |a|]);
      }
    }
  }

  /** Characters that mean nothing to the scanner. */
  predicate Plain(o: char, c: char, s: string) {
    forall k :: 0 <= k < |s| ==> s[k] != '"' && s[k] != o && s[k] != c
  }

  lemma {:induction false} PlainScan(o: char, c: char, s: string)
    requires Plain(o, c, s)
    ensures Scan(o, c, OUTSIDE, s) == OUTSIDE
  {
    if s != "" {
      PlainScan(o, c, s[..|s| - 1]);
    }
  }

  lemma PlainIsNeutral(o: char, c: char, s: string)
    requires Plain(o, c, s)
    ensures Neutral(o, c, s)
  {
    PlainScan(o, c, s);
    forall k | 0 <= k <= |s|
      ensures Scan(o, c, OUTSIDE, s[..k]).depth >= 0
    {
      PlainScan(o, c, s[..k]);
    }
  }

  /** Between its own brackets a neutral text keeps the depth positive until the closing one. */
  lemma Wrapped(o: char, c: char, s: string)
    requires Neutral(o, c, s) && o != '"' && c != '"' && o != c
    ensures var t := [o] + s + [c];
      && Scan(o, c, OUTSIDE, t) == OUTSIDE
      && forall k :: 0 < k < |t| ==> Scan(o, c, OUTSIDE, t[..k]).depth > 0
  {
    var t := [o] + s + [c];
    var one := Lex(1, false, false);
    assert [o][..0] == "" && Scan(o, c, OUTSIDE, [o]) == one;
    forall k | 0 < k < |t|
      ensures Scan(o, c, OUTSIDE, t[..k]).depth > 0
    {
      assert t[..k] == [o] + s[..k - 1];
      ScanConcat(o, c, OUTSIDE, [o], s[..k - 1]);
      ScanShift(o, c, 1, OUTSIDE, s[..k - 1]);
    }
    ScanConcat(o, c, OUTSIDE, [o], s);
    ScanShift(o, c, 1, OUTSIDE, s);
    assert t[..|t| - 1] == [o] + s;
  }

  lemma WrappedIsNeutral(o: char, c: char, s: string)
    requires Neutral(o, c, s) && o != '"' && c != '"' && o != c
    ensures Neutral(o, c, [o] + s + [c])
  {
    Wrapped(o, c, s);
    var t := [o] + s + [c];
    assert t[..0] == "" && t[..|t|] == t;
  }

  // ---- Strings ----

  const INSIDE := Lex(0, true, false)

  /** Scanned from inside a literal, `s` stays inside. */
  ghost predicate Inside(o: char, c: char, s: string) {
    && Scan(o, c, INSIDE, s) == INSIDE
    && forall k :: 0 <= k <= |s| ==> Scan(o, c, INSIDE, s[..k]).inString && Scan(o, c, INSIDE, s[..k]).depth == 0
  }

  lemma InsideConcat(o: char, c: char, a: string, b: string)
    requires Inside(o, c, a) && Inside(o, c, b)
    ensures Inside(o, c, a + b)
  {
    ScanConcat(o, c, INSIDE, a, b);
    forall k | 0 <= k <= |a + b|
      ensures Scan(o, c, INSIDE, (a + b)[..k]).inString && Scan(o, c, INSIDE, (a + b)[..k]).depth == 0
    {
      if k <= |a| {
        assert (a + b)[..k] == a[..k];
      } else {
        assert (a + b)[..k] == a + b[..k - |a|];
        ScanConcat(o, c, INSIDE, a, b[..k - |a|]);
      }
    }
  }

  lemma {:induction false} CalmInside(o: char, c: char, s: string)
    requires forall k :: 0 <= k < |s| ==> s[k] != '"' && s[k] != '\\'
    ensures Scan(o, c, INSIDE, s) == INSIDE
  {
    if s != "" {
      CalmInside(o, c, s[..|s| - 1]);
    }
  }

  lemma SequenceInside(o: char, c: char, e: string)
    requires IsEscape(e)
    ensures Inside(o, c, e)
  {
    forall k | 0 <= k <= |e|
      ensures Scan(o, c, INSIDE, e[..k]).inString && Scan(o, c, INSIDE, e[..k]).depth == 0
      ensures k == |e| ==> Scan(o, c, INSIDE, e[..k]) == INSIDE
    {
      if k > 0 {
        var head, tail := e[..1], e[1..k];
        assert e[..k] == head + tail;
        ScanConcat(o, c, INSIDE, head, tail);
        assert head[..0] == "" && Scan(o, c, INSIDE, head) == Lex(0, true, true);
        if k > 1 {
          var second, rest := e[1..2], e[2..k];
          assert tail == second + rest;
          ScanConcat(o, c, Lex(0, true, true), second, rest);
          assert second[..0] == "" && Scan(o, c, Lex(0, true, true), second) == INSIDE;
          assert forall m :: 0 <= m < |rest| ==> rest[m] == e[m + 2] && IsHex(e[m + 2]);
          CalmInside(o, c, rest);
        }
      }
    }
    assert e[..|e|] == e;
  }

  lemma EscapeInside(o: char, c: char, ch: char, e: string)
    requires EscapeOk(ch, e)
    ensures Inside(o, c, e)
  {
    if IsEscape(e) {
      SequenceInside(o, c, e);
    } else if |e| == 12 {
      SequenceInside(o, c, e[..6]);
      SequenceInside(o, c, e[6..]);
      InsideConcat(o, c, e[..6], e[6..]);
      assert e == e[..6] + e[6..];
    } else {
      forall k | 0 <= k <= |e|
        ensures Scan(o, c, INSIDE, e[..k]) == INSIDE
      {
        CalmInside(o, c, e[..k]);
      }
      assert e[..|e|] == e;
    }
  }

  lemma {:induction false} SpelledInside(o: char, c: char, s: string, t: string)
    requires Spells(s, t)
    ensures Inside(o, c, t)
  {
    if s == "" {
      assert t[..0] == "";
    } else {
      var k :| 0 <= k <= |t| && Spells(s[..|s| - 1], t[..k]) && EscapeOk(s[|s| - 1], t[k..]);
      SpelledInside(o, c, s[..|s| - 1], t[..k]);
      EscapeInside(o, c, s[|s| - 1], t[k..]);
      InsideConcat(o, c, t[..k], t[k..]);
      assert t == t[..k] + t[k..];
    }
  }

  lemma CutBody(t: string)
    requires |t| >= 2
    ensures t == [t[0]] + Body(t) + [t[|t| - 1]]
    ensures forall k :: 1 <= k < |t| ==> t[..k] == [t[0]] + Body(t)[..k - 1]
  {
  }

  lemma SliceOfBody(t: string, i: nat, j: nat)
    requires i <= j <= |t| - 2
    ensures t[1 + i..1 + j] == Body(t)[i..j]
  {
    forall k | 0 <= k < j - i
      ensures t[1 + i..1 + j][k] == Body(t)[i..j][k]
    {
      assert Body(t)[i + k] == t[1 + i + k];
    }
  }

  lemma StringIsNeutral(o: char, c: char, s: string, t: string)
    requires PrintsString(s, t) && o != '"' && c != '"'
    ensures Neutral(o, c, t)
  {
    var body := Body(t);
    SpelledInside(o, c, s, body);
    assert ['"'][..0] == "" && Scan(o, c, OUTSIDE, ['"']) == INSIDE;
    CutBody(t);
    ScanConcat(o, c, OUTSIDE, ['"'], body);
    ScanConcat(o, c, OUTSIDE, ['"'] + body, ['"']);
    assert Scan(o, c, INSIDE, ['"']) == OUTSIDE;
    forall k | 0 <= k <= |t|
      ensures Scan(o, c, OUTSIDE, t[..k]).depth >= 0
    {
      if k == 0 {
        assert t[..k] == "";
      } else if k < |t| {
        ScanConcat(o, c, OUTSIDE, ['"'], body[..k - 1]);
      } else {
        assert t[..k] == t;
      }
    }
  }

  // ---- Values ----

  /** The two bracket pairs the scanner may count. */
  predicate IsPair(o: char, c: char) {
    (o == '{' && c == '}') || (o == '[' && c == ']')
  }

  lemma BracketedIsNeutral(o: char, c: char, o': char, c': char, s: string)
    requires IsPair(o, c) && IsPair(o', c') && Neutral(o, c, s)
    ensures Neutral(o, c, [o'] + s + [c'])
  {
    if o == o' {
      WrappedIsNeutral(o, c, s);
    } else {
      PlainIsNeutral(o, c, [o']);
      PlainIsNeutral(o, c, [c']);
      NeutralConcat(o, c, [o'], s);
      NeutralConcat(o, c, [o'] + s, [c']);
    }
  }

  lemma BlankIsNeutral(o: char, c: char, s: string)
    requires IsPair(o, c) && IsBlank(s)
    ensures Neutral(o, c, s) && Neutral(o, c, s + ",") && Neutral(o, c, s + ":")
  {
    PlainIsNeutral(o, c, s);
    PlainIsNeutral(o, c, s + ",");
    PlainIsNeutral(o, c, s + ":");
  }

  lemma CutInThree(t: string, lo: nat, i: nat, j: nat, hi: nat)
    requires lo <= i <= j <= hi <= |t|
    ensures t[lo..hi] == t[lo..i] + t[i..j] + t[j..hi]
  {
  }

  lemma CutAt(t: string, k: nat, hi: nat)
    requires k < hi <= |t|
    ensures t[..hi] == t[0..k] + [t[k]] + t[k + 1..hi]
  {
  }

  lemma ThenBlank(o: char, c: char, front: string, blank: string)
    requires IsPair(o, c) && Neutral(o, c, front) && IsBlank(blank)
    ensures Neutral(o, c, front + blank)
    ensures Neutral(o, c, front + blank + ",") && Neutral(o, c, front + blank + ":")
  {
    BlankIsNeutral(o, c, blank);
    NeutralConcat(o, c, front, blank);
    NeutralConcat(o, c, front, blank + ",");
    NeutralConcat(o, c, front, blank + ":");
    assert front + blank + "," == front + (blank + ",");
    assert front + blank + ":" == front + (blank + ":");
  }

  /** A blank, a neutral text, a blank: from `lo` by `i` and `j` to `hi`. */
  lemma PaddedIsNeutral(o: char, c: char, t: string, lo: nat, i: nat, j: nat, hi: nat)
    requires IsPair(o, c) && lo <= i <= j <= hi <= |t|
    requires IsBlank(t[lo..i]) && Neutral(o, c, t[i..j]) && IsBlank(t[j..hi])
    ensures Neutral(o, c, t[lo..hi]) && Neutral(o, c, t[lo..hi] + ",") && Neutral(o, c, t[lo..hi] + ":")
  {
    BlankIsNeutral(o, c, t[lo..i]);
    NeutralConcat(o, c, t[lo..i], t[i..j]);
    ThenBlank(o, c, t[lo..i] + t[i..j], t[j..hi]);
    CutInThree(t, lo, i, j, hi);
  }

  lemma {:induction false} ValueIsNeutral(o: char, c: char, v: Json, t: string)
    requires IsPair(o, c) && Prints(v, t)
    ensures Neutral(o, c, t)
    decreases v, 1
  {
    match v
    case JString(s) => StringIsNeutral(o, c, s, t);
    case JArray(items) =>
      ItemsAreNeutral(o, c, items, Body(t));
      BracketedIsNeutral(o, c, '[', ']', Body(t));
      CutBody(t);
    case JObject(members) =>
      MembersAreNeutral(o, c, members, Body(t));
      BracketedIsNeutral(o, c, '{', '}', Body(t));
      CutBody(t);
    case _ => PlainIsNeutral(o, c, t);
  }

  lemma {:induction false} ItemsAreNeutral(o: char, c: char, items: seq<Json>, t: string)
    requires IsPair(o, c) && PrintsItems(items, t)
    ensures Neutral(o, c, t)
    decreases items, 0
  {
    if items == [] {
      BlankIsNeutral(o, c, t);
    } else {
      var i: nat, j: nat, k: nat :| ItemAt(items, t, i, j, k);
      ValueIsNeutral(o, c, items[0], t[i..j]);
      assert t[0..i] == t[..i] && t[0..k] == t[..k];
      PaddedIsNeutral(o, c, t, 0, i, j, k);
      if |items| == 1 {
        assert t[..k] == t;
      } else {
        ItemsAreNeutral(o, c, items[1..], t[k + 1..]);
        SeparatedIsNeutral(o, c, t, k);
      }
    }
  }

  lemma {:induction false} MembersAreNeutral(o: char, c: char, members: seq<Member>, t: string)
    requires IsPair(o, c) && PrintsMembers(members, t)
    ensures Neutral(o, c, t)
    decreases members, 0
  {
    if members == [] {
      BlankIsNeutral(o, c, t);
    } else {
      var i: nat, j: nat, colon: nat, a: nat, b: nat, k: nat :| MemberAt(members, t, i, j, colon, a, b, k);
      ValueIsNeutral(o, c, members[0].value, t[a..b]);
      FirstIsNeutral(o, c, members, t, i, j, colon, a, b, k);
      if |members| > 1 {
        MembersAreNeutral(o, c, members[1..], t[k + 1..]);
        SeparatedIsNeutral(o, c, t, k);
      }
    }
  }

  lemma SeparatedIsNeutral(o: char, c: char, t: string, k: nat)
    requires k < |t| && t[k] == ',' && Neutral(o, c, t[..k] + ",") && Neutral(o, c, t[k + 1..])
    ensures Neutral(o, c, t)
  {
    NeutralConcat(o, c, t[..k] + ",", t[k + 1..]);
    assert t == t[..k] + "," + t[k + 1..];
  }

  lemma FirstIsNeutral(o: char, c: char, members: seq<Member>, t: string, i: nat, j: nat, colon: nat, a: nat, b: nat,
                       k: nat)
    requires IsPair(o, c) && members != [] && MemberAt(members, t, i, j, colon, a, b, k) && Neutral(o, c, t[a..b])
    ensures Neutral(o, c, t[..k]) && Neutral(o, c, t[..k] + ",") && (|members| == 1 ==> Neutral(o, c, t))
  {
    StringIsNeutral(o, c, members[0].key, t[i..j]);
    MemberIsNeutral(o, c, t, i, j, colon, a, b, k);
    assert t[..|t|] == t;
  }

  /** A key, its colon and its value. */
  lemma MemberIsNeutral(o: char, c: char, t: string, i: nat, j: nat, colon: nat, a: nat, b: nat, k: nat)
    requires IsPair(o, c) && i <= j <= colon < a <= b <= k <= |t| && t[colon] == ':'
    requires IsBlank(t[..i]) && Neutral(o, c, t[i..j]) && IsBlank(t[j..colon])
    requires IsBlank(t[colon + 1..a]) && Neutral(o, c, t[a..b]) && IsBlank(t[b..k])
    ensures Neutral(o, c, t[..k]) && Neutral(o, c, t[..k] + ",")
  {
    assert t[0..i] == t[..i];
    PaddedIsNeutral(o, c, t, 0, i, j, colon);
    PaddedIsNeutral(o, c, t, colon + 1, a, b, k);
    CutAt(t, colon, k);
    KeyAndValue(o, c, t[0..colon], t[colon + 1..k]);
  }

  lemma KeyAndValue(o: char, c: char, key: string, value: string)
    requires Neutral(o, c, key + ":") && Neutral(o, c, value) && Neutral(o, c, value + ",")
    ensures Neutral(o, c, key + [':'] + value) && Neutral(o, c, key + [':'] + value + ",")
  {
    NeutralConcat(o, c, key + ":", value);
    NeutralConcat(o, c, key + ":", value + ",");
    assert key + ":" + value + "," == key + ":" + (value + ",");
  }

  /** Whatever stands before and after it, the text extracted at the start of a printed object or array is exactly what
      was printed. */
  lemma PrintedIsExtracted(v: Json, printed: string, prefix: string, suffix: string)
    requires (v.JArray? || v.JObject?) && Prints(v, printed)
    ensures IsExtraction(prefix + printed + suffix, |prefix|, Some(printed))
  {
    var text := prefix + printed + suffix;
    var s := text[|prefix|..];
    var o := printed[0];
    var c := Closer(o);
    assert s == printed + suffix && text[|prefix|] == o;
    if v.JArray? {
      ItemsAreNeutral(o, c, v.items, Body(printed));
    } else {
      MembersAreNeutral(o, c, v.members, Body(printed));
    }
    Wrapped(o, c, Body(printed));
    CutBody(printed);
    forall k | 0 < k <= |printed|
      ensures k < |printed| ==> Depth(o, c, s, k) > 0
      ensures k == |printed| ==> Depth(o, c, s, k) == 0
    {
      ScanIsDepth(o, c, s, k);
      assert s[..k] == printed[..k];
      assert printed[..|printed|] == printed;
    }
    assert s[..|printed|] == printed;
  }

  /** The scanner undoes the printer. */
  method ExtractPrinted(ghost v: Json, printed: string, prefix: string, suffix: string) returns (r: Option<string>)
    requires (v.JArray? || v.JObject?) && Prints(v, printed)
    ensures r == Some(printed)
  {
    r := ExtractBalanced(prefix + printed + suffix, |prefix|);
    PrintedIsExtracted(v, printed, prefix, suffix);
  }
}
