/** Splitting, joining and trimming text, and what of it survives. */
module PlainText {

  /** White space for `trim` and `\s` alike. */
  predicate IsSpace(c: char) {
    || '\t' <= c <= '\r' || c == ' ' || c == '\U{00A0}' || c == '\U{1680}' || '\U{2000}' <= c <= '\U{200A}'
    || c == '\U{2028}' || c == '\U{2029}' || c == '\U{202F}' || c == '\U{205F}' || c == '\U{3000}' || c == '\U{FEFF}'
  }

  function TrimStart(s: string): string {
    if s != "" && IsSpace(s[0]) then TrimStart(s[1..]) else s
  }

  function TrimEnd(s: string): string {
    if s != "" && IsSpace(s[|s| - 1]) then TrimEnd(s[..|s| - 1]) else s
  }

  function Trim(s: string): string {
    TrimEnd(TrimStart(s))
  }

  /** What is left of a text once its white space is taken out. */
  function Ink(s: string): string {
    if s == "" then "" else (if IsSpace(s[0]) then [] else [s[0]]) + Ink(s[1..])
  }

  function Join(ss: seq<string>, sep: string): string {
    if ss == [] then "" else if |ss| == 1 then ss[0] else ss[0] + sep + Join(ss[1..], sep)
  }

  function Concat(ss: seq<string>): string {
    Join(ss, "")
  }

  /** Splits at separators; `cut(s)` is the length of the separator that starts `s`, zero for none. */
  function Split(s: string, cut: string -> nat): (parts: seq<string>)
    ensures |parts| >= 1
    decreases |s|
  {
    if s == "" then [""]
    else if 0 < cut(s) <= |s| then [""] + Split(s[cut(s)..], cut)
    else
      var rest := Split(s[1..], cut);
      [[s[0]] + rest[0]] + rest[1..]
  }

  function Newline(s: string): nat {
    if s != "" && s[0] == '\n' then 1 else 0
  }

  lemma {:induction false} JoinSplit(s: string)
    ensures Join(Split(s, Newline), "\n") == s
  {
    if s != "" {
      JoinSplit(s[1..]);
      var rest := Split(s[1..], Newline);
      assert s == [s[0]] + s[1..];
      if s[0] == '\n' {
        assert ([""] + rest)[1..] == rest;
      } else if |rest| > 1 {
        assert ([[s[0]] + rest[0]] + rest[1..])[1..] == rest[1..];
      }
    }
  }

  lemma {:induction false} JoinAppend(a: seq<string>, b: seq<string>, sep: string)
    requires a != [] && b != []
    ensures Join(a + b, sep) == Join(a, sep) + sep + Join(b, sep)
  {
    if |a| == 1 {
      assert (a + b)[1..] == b;
    } else {
      JoinAppend(a[1..], b, sep);
      assert (a + b)[1..] == a[1..] + b;
    }
  }

  // ---- Ink ----

  lemma {:induction false} InkAppend(a: string, b: string)
    ensures Ink(a + b) == Ink(a) + Ink(b)
  {
    if a == "" {
      assert a + b == b;
    } else {
      var first := if IsSpace(a[0]) then [] else [a[0]];
      calc {
        Ink(a + b);
        { assert (a + b)[0] == a[0] && (a + b)[1..] == a[1..] + b; }
        first + Ink(a[1..] + b);
        { InkAppend(a[1..], b); }
        first + (Ink(a[1..]) + Ink(b));
        first + Ink(a[1..]) + Ink(b);
        Ink(a) + Ink(b);
      }
    }
  }

  lemma {:induction false} TrimStartInk(s: string)
    ensures Ink(TrimStart(s)) == Ink(s)
  {
    if s != "" && IsSpace(s[0]) {
      TrimStartInk(s[1..]);
    }
  }

  lemma {:induction false} TrimEndInk(s: string)
    ensures Ink(TrimEnd(s)) == Ink(s)
  {
    if s != "" && IsSpace(s[|s| - 1]) {
      var n := |s| - 1;
      TrimEndInk(s[..n]);
      assert s == s[..n] + [s[n]];
      InkAppend(s[..n], [s[n]]);
    }
  }

  lemma TrimInk(s: string)
    ensures Ink(Trim(s)) == Ink(s)
  {
    TrimStartInk(s);
    TrimEndInk(TrimStart(s));
  }

  /** Joining with white space adds no ink. */
  lemma {:induction false} JoinInk(ss: seq<string>, sep: string)
    requires Ink(sep) == ""
    ensures Ink(Join(ss, sep)) == Ink(Concat(ss))
  {
    if |ss| > 1 {
      JoinInk(ss[1..], sep);
      InkAppend(ss[0] + sep, Join(ss[1..], sep));
      InkAppend(ss[0], sep);
      InkAppend(ss[0], Concat(ss[1..]));
      assert ss[0] + "" + Concat(ss[1..]) == ss[0] + Concat(ss[1..]);
    }
  }

  lemma ConcatInk(a: seq<string>, b: seq<string>)
    ensures Ink(Concat(a + b)) == Ink(Concat(a)) + Ink(Concat(b))
  {
    if a == [] {
      assert a + b == b;
    } else if b == [] {
      assert a + b == a;
    } else {
      JoinAppend(a, b, "");
      assert Concat(a + b) == Concat(a) + Concat(b);
      InkAppend(Concat(a), Concat(b));
    }
  }

  /** Splitting at white space loses no ink. */
  lemma {:induction false} SplitInk(s: string, cut: string -> nat)
    requires forall t: string :: cut(t) <= |t| ==> Ink(t[..cut(t)]) == ""
    ensures Ink(Concat(Split(s, cut))) == Ink(s)
    decreases |s|
  {
    if s == "" {
    } else if 0 < cut(s) <= |s| {
      var n := cut(s);
      SplitInk(s[n..], cut);
      assert Concat([""] + Split(s[n..], cut)) == Concat(Split(s[n..], cut)) by {
        assert ([""] + Split(s[n..], cut))[1..] == Split(s[n..], cut);
      }
      DropBlank(s, n);
    } else {
      SplitInk(s[1..], cut);
      var parts := Split(s[1..], cut);
      assert [parts[0]] + parts[1..] == parts;
      PrependInk(s[0], parts[0], parts[1..]);
    }
  }

  lemma DropBlank(s: string, n: nat)
    requires n <= |s| && Ink(s[..n]) == ""
    ensures Ink(s[n..]) == Ink(s)
  {
    assert s == s[..n] + s[n..];
    InkAppend(s[..n], s[n..]);
  }

  lemma HeadInk(head: string, rest: seq<string>)
    ensures Ink(Concat([head] + rest)) == Ink(head) + Ink(Concat(rest))
  {
    ConcatInk([head], rest);
  }

  lemma ConsInk(c: char, s: string)
    ensures Ink([c] + s) == (if IsSpace(c) then "" else [c]) + Ink(s)
  {
    assert ([c] + s)[1..] == s;
  }

  lemma PrependInk(c: char, head: string, rest: seq<string>)
    ensures Ink(Concat([[c] + head] + rest)) == (if IsSpace(c) then "" else [c]) + Ink(Concat([head] + rest))
  {
    HeadInk(head, rest);
    HeadInk([c] + head, rest);
    ConsInk(c, head);
  }

  // ---- Trimmed text ----

  predicate Trimmed(s: string) {
    s != "" && !IsSpace(s[0]) && !IsSpace(s[|s| - 1])
  }

  lemma {:induction false} TrimStartTrims(s: string)
    ensures TrimStart(s) == "" || !IsSpace(TrimStart(s)[0])
    ensures exists k :: 0 <= k <= |s| && TrimStart(s) == s[k..]
  {
    if s != "" && IsSpace(s[0]) {
      TrimStartTrims(s[1..]);
      var k :| 0 <= k <= |s| - 1 && TrimStart(s[1..]) == s[1..][k..];
      assert s[1..][k..] == s[k + 1..];
    } else {
      assert s == s[0..];
    }
  }

  lemma {:induction false} TrimEndTrims(s: string)
    ensures TrimEnd(s) == "" || !IsSpace(TrimEnd(s)[|TrimEnd(s)| - 1])
    ensures |TrimEnd(s)| <= |s| && TrimEnd(s) == s[..|TrimEnd(s)|]
    ensures s != "" && !IsSpace(s[0]) ==> TrimEnd(s) != ""
  {
    if s != "" && IsSpace(s[|s| - 1]) {
      TrimEndTrims(s[..|s| - 1]);
    }
  }

  lemma TrimTrims(s: string)
    ensures Trim(s) == "" || Trimmed(Trim(s))
  {
    TrimStartTrims(s);
    TrimEndTrims(TrimStart(s));
  }

  /** Trimming is over at the first letter. */
  lemma {:induction false} TrimStartAppend(a: string, b: string)
    requires Ink(a) != ""
    ensures TrimStart(a + b) == TrimStart(a) + b
  {
    if IsSpace(a[0]) {
      TrimStartAppend(a[1..], b);
      assert (a + b)[1..] == a[1..] + b;
    }
  }

  lemma TrimEndKeeps(s: string)
    requires s == "" || !IsSpace(s[|s| - 1])
    ensures TrimEnd(s) == s
  {
  }

  lemma {:induction false} HasInk(s: string, k: nat)
    requires k < |s| && !IsSpace(s[k])
    ensures Ink(s) != ""
  {
    if k > 0 {
      HasInk(s[1..], k - 1);
    }
  }

  predicate AllTrimmed(ss: seq<string>) {
    forall k :: 0 <= k < |ss| ==> Trimmed(ss[k])
  }

  /** A join of trimmed texts begins and ends with ink. */
  lemma {:induction false} JoinTrimmed(ss: seq<string>, sep: string)
    requires ss != [] && AllTrimmed(ss)
    ensures Trimmed(Join(ss, sep))
  {
    if |ss| > 1 {
      JoinTrimmed(ss[1..], sep);
    }
  }

  lemma TrimKeeps(s: string)
    requires Trimmed(s)
    ensures Trim(s) == s
  {
  }
}
