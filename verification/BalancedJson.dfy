/** Pulling a balanced JSON text out of free text. */
module BalancedJson {
  import opened WorkflowNode

  // ---- Reference: what lies outside string literals ----

  /** How many backslashes stand directly before position `i`. */
  function BackslashRun(s: string, i: nat): nat
    requires i <= |s|
  {
    if i > 0 && s[i - 1] == '\\' then BackslashRun(s, i - 1) + 1 else 0
  }

  /** How many quotes before position `i` open or close a string literal: every quote outside a literal, and inside
      one every quote that an even number of backslashes stands before. */
  function Quotes(s: string, i: nat): nat
    requires i <= |s|
  {
    if i == 0 then 0 else
      Quotes(s, i - 1) +
        if s[i - 1] == '"' && (Quotes(s, i - 1) % 2 == 0 || BackslashRun(s, i - 1) % 2 == 0) then 1 else 0
  }

  predicate InLiteral(s: string, i: nat)
    requires i <= |s|
  {
    Quotes(s, i) % 2 == 1
  }

  /** Openers minus closers outside string literals before position `i`. */
  function Depth(opener: char, closer: char, s: string, i: nat): int
    requires i <= |s|
  {
    if i == 0 then 0 else
      Depth(opener, closer, s, i - 1) +
        if InLiteral(s, i - 1) || s[i - 1] == '"' then 0
        else if s[i - 1] == opener then 1
        else if s[i - 1] == closer then -1
        else 0
  }

  function Closer(opener: char): char {
    if opener == '{' then '}' else ']'
  }

  /** `r` is the shortest nonempty prefix of the text at `start` whose depth returns to zero, for the bracket found
      there. */
  ghost predicate IsExtraction(text: string, start: int, r: Option<string>) {
    if !(0 <= start < |text|) || (text[start] != '{' && text[start] != '[') then r == None
    else
      var s, o, c := text[start..], text[start], Closer(text[start]);
      match r
      case None => forall k :: 0 < k <= |s| ==> Depth(o, c, s, k) != 0
      case Some(p) =>
        && 0 < |p| <= |s| && p == s[..|p|] && Depth(o, c, s, |p|) == 0
        && forall k :: 0 < k < |p| ==> Depth(o, c, s, k) != 0
  }

  // ---- The scanner ----

  method ExtractBalanced(text: string, start: int) returns (r: Option<string>)
    ensures IsExtraction(text, start, r)
  {
    if start < 0 || start >= |text| {
      return None;
    }
    var opener := text[start];
    if opener != '{' && opener != '[' {
      return None;
    }
    var closer := Closer(opener);
    var depth, inString, escaping := 0, false, false;
    ghost var s := text[start..];
    for i := start to |text|
      invariant depth == Depth(opener, closer, s, i - start)
      invariant inString <==> InLiteral(s, i - start)
      invariant escaping <==> inString && BackslashRun(s, i - start) % 2 == 1
      invariant forall k :: 0 < k <= i - start ==> Depth(opener, closer, s, k) != 0
    {
      var ch := text[i];
      assert ch == s[i - start];
      if inString {
        if escaping {
          escaping := false;
        } else if ch == '\\' {
          escaping := true;
        } else if ch == '"' {
          inString := false;
        }
      } else if ch == '"' {
        inString := true;
      } else if ch == opener {
        depth := depth + 1;
        DepthStartsUp(opener, closer, s, i - start);
      } else if ch == closer {
        depth := depth - 1;
        if depth == 0 {
          assert text[start..i + 1] == s[..i + 1 - start];
          return Some(text[start..i + 1]);
        }
      }
    }
    return None;
  }

  /** Until the depth returns to zero it is positive. */
  lemma {:induction false} DepthStartsUp(opener: char, closer: char, s: string, i: nat)
    requires i <= |s| && s != [] && s[0] == opener && opener != '"'
    requires forall k :: 0 < k <= i ==> Depth(opener, closer, s, k) != 0
    ensures Depth(opener, closer, s, i) >= 0
    ensures i > 0 ==> Depth(opener, closer, s, i) > 0
  {
    if i == 1 {
      assert Depth(opener, closer, s, 0) == 0 && Quotes(s, 0) == 0;
    } else if i > 1 {
      DepthStartsUp(opener, closer, s, i - 1);
    }
  }
}
