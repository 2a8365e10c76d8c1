/** Finding the JSON texts around a keyword: the source's `extract_balanced_candidates_around_keyword`. */
module ToolCallCandidates {
  import opened WorkflowNode
  import opened BalancedJson
  import opened JsonText

  predicate OccursAt(text: string, keyword: string, i: nat) {
    i + |keyword| <= |text| && text[i..i + |keyword|] == keyword
  }

  predicate Contains(text: string, keyword: string) {
    exists i :: 0 <= i <= |text| && OccursAt(text, keyword, i)
  }

  predicate OpensAt(text: string, p: int) {
    0 <= p < |text| && (text[p] == '{' || text[p] == '[')
  }

  /** The balanced text that starts at `p` contains the keyword. */
  ghost predicate Fits(text: string, keyword: string, p: int, candidate: string) {
    IsExtraction(text, p, Some(candidate)) && Contains(candidate, keyword)
  }

  ghost predicate Unfit(text: string, keyword: string, p: int) {
    forall candidate :: !Fits(text, keyword, p, candidate)
  }

  /** Openers at positions after `p`, up to `upto`. */
  function OpenersAfter(text: string, p: int, upto: int): nat
    decreases upto - p
  {
    if upto <= p then 0 else OpenersAfter(text, p, upto - 1) + if OpensAt(text, upto) then 1 else 0
  }

  /** `r` is the innermost fitting text that starts at or before `idx`, among the `maxScan` nearest openers. */
  ghost predicate IsCandidate(text: string, keyword: string, idx: nat, maxScan: nat, r: Option<string>) {
    match r
    case Some(candidate) =>
      exists p :: 0 <= p <= idx && OpensAt(text, p) && OpenersAfter(text, p, idx) < maxScan
        && Fits(text, keyword, p, candidate)
        && forall q :: p < q <= idx ==> Unfit(text, keyword, q)
    case None =>
      forall p :: 0 <= p <= idx && OpensAt(text, p) && OpenersAfter(text, p, idx) < maxScan ==> Unfit(text, keyword, p)
  }

  /** The larger of the two `lastIndexOf` results; a negative position counts as zero, as in the source's language. */
  method LastOpener(text: string, start: int) returns (p: int)
    requires start < |text|
    ensures -1 <= p <= (if start < 0 then 0 else start)
    ensures p >= 0 ==> OpensAt(text, p)
    ensures forall q :: p < q <= (if start < 0 then 0 else start) ==> !OpensAt(text, q)
  {
    p := if start < 0 then 0 else start;
    while p >= 0 && !OpensAt(text, p)
      invariant -1 <= p <= (if start < 0 then 0 else start)
      invariant forall q :: p < q <= (if start < 0 then 0 else start) ==> !OpensAt(text, q)
    {
      p := p - 1;
    }
  }

  lemma {:induction false} NoOpeners(text: string, p: int, upto: int)
    requires forall q :: p < q <= upto ==> !OpensAt(text, q)
    ensures OpenersAfter(text, p, upto) == 0
    decreases upto - p
  {
    if p < upto {
      NoOpeners(text, p, upto - 1);
    }
  }

  lemma {:induction false} OpenersSplit(text: string, p: int, m: int, upto: int)
    requires p <= m <= upto
    ensures OpenersAfter(text, p, upto) == OpenersAfter(text, p, m) + OpenersAfter(text, m, upto)
    decreases upto - m
  {
    if m < upto {
      OpenersSplit(text, p, m, upto - 1);
    }
  }

  lemma NotOpenIsUnfit(text: string, keyword: string, p: int)
    requires !OpensAt(text, p)
    ensures Unfit(text, keyword, p)
  {
  }

  /** Tries the openers at and before a keyword, nearest first. Once the opener at position zero has failed, the scan
      stays there until its rounds are used up. */
  method CandidateAt(text: string, keyword: string, idx: nat, maxScan: nat) returns (r: Option<string>)
    requires idx < |text|
    ensures IsCandidate(text, keyword, idx, maxScan, r)
  {
    var scanned, start := 0, idx as int;
    while scanned < maxScan
      invariant 0 <= scanned <= maxScan && -1 <= start <= idx
      invariant forall q :: start < q <= idx ==> Unfit(text, keyword, q)
      invariant start >= 0 ==> OpenersAfter(text, start, idx) == scanned
    {
      var p := LastOpener(text, start);
      if p < 0 {
        forall q | 0 <= q <= start
          ensures Unfit(text, keyword, q)
        {
          NotOpenIsUnfit(text, keyword, q);
        }
        return None;
      }
      var candidate := ExtractBalanced(text, p);
      if candidate.Some? && Contains(candidate.value, keyword) {
        Found(text, keyword, idx, maxScan, start, scanned, p, candidate.value);
        return candidate;
      }
      Failed(text, keyword, idx, start, p, candidate);
      start := p - 1;
      scanned := scanned + 1;
    }
    if start >= 0 {
      forall p | 0 <= p <= idx && OpensAt(text, p) && OpenersAfter(text, p, idx) < maxScan
        ensures Unfit(text, keyword, p)
      {
        if p <= start {
          OpenersSplit(text, p, start, idx);
        }
      }
    }
    return None;
  }

  lemma Found(text: string, keyword: string, idx: nat, maxScan: nat, start: int, scanned: nat, p: int,
              candidate: string)
    requires -1 <= start <= idx && 0 <= p <= (if start < 0 then 0 else start) && scanned < maxScan
    requires forall q :: start < q <= idx ==> Unfit(text, keyword, q)
    requires start >= 0 ==> OpenersAfter(text, start, idx) == scanned
    requires OpensAt(text, p) && forall q :: p < q <= (if start < 0 then 0 else start) ==> !OpensAt(text, q)
    requires Fits(text, keyword, p, candidate)
    ensures IsCandidate(text, keyword, idx, maxScan, Some(candidate))
  {
    assert !Unfit(text, keyword, p);
    if start >= 0 {
      OpenersSplit(text, p, start, idx);
      NoOpeners(text, p, start);
      forall q | p < q <= idx
        ensures Unfit(text, keyword, q)
      {
        if q <= start {
          NotOpenIsUnfit(text, keyword, q);
        }
      }
    }
  }

  lemma Failed(text: string, keyword: string, idx: nat, start: int, p: int, extracted: Option<string>)
    requires -1 <= start <= idx && 0 <= p <= (if start < 0 then 0 else start)
    requires forall q :: start < q <= idx ==> Unfit(text, keyword, q)
    requires OpensAt(text, p) && forall q :: p < q <= (if start < 0 then 0 else start) ==> !OpensAt(text, q)
    requires IsExtraction(text, p, extracted) && (extracted.Some? ==> !Contains(extracted.value, keyword))
    ensures forall q :: p - 1 < q <= idx ==> Unfit(text, keyword, q)
    ensures start >= 0 && p - 1 >= 0 ==> OpenersAfter(text, p - 1, idx) == OpenersAfter(text, start, idx) + 1
  {
    forall q | p - 1 < q <= idx
      ensures Unfit(text, keyword, q)
    {
      if q == p {
        forall candidate
          ensures !Fits(text, keyword, p, candidate)
        {
          if IsExtraction(text, p, Some(candidate)) {
            ExtractionUnique(text, p, extracted, candidate);
          }
        }
      } else if q <= start {
        NotOpenIsUnfit(text, keyword, q);
      }
    }
    if start >= 0 {
      OpenersSplit(text, p, start, idx);
      NoOpeners(text, p, start);
      OpenersSplit(text, p - 1, p, idx);
      assert OpenersAfter(text, p - 1, p - 1) == 0;
    }
  }

  lemma ExtractionUnique(text: string, start: int, r: Option<string>, p: string)
    requires IsExtraction(text, start, r) && IsExtraction(text, start, Some(p))
    ensures r == Some(p)
  {
  }

  /** The first occurrence at or after `cursor`. */
  method IndexOf(text: string, keyword: string, cursor: nat) returns (idx: int)
    ensures idx >= 0 ==> cursor <= idx && OccursAt(text, keyword, idx)
    ensures forall i :: cursor <= i < (if idx < 0 then |text| else idx) ==> !OccursAt(text, keyword, i)
  {
    idx := cursor;
    while idx < |text|
      invariant cursor <= idx
      invariant forall i :: cursor <= i < idx ==> !OccursAt(text, keyword, i)
    {
      if OccursAt(text, keyword, idx) {
        return;
      }
      idx := idx + 1;
    }
    idx := -1;
  }

  /** Where a search found the keyword, and the candidate there, if any. */
  datatype Hit = Hit(idx: nat, candidate: Option<string>)

  function Cursor(hits: seq<Hit>, keyword: string): nat {
    if hits == [] then 0 else hits[|hits| - 1].idx + |keyword|
  }

  /** Each hit is the first occurrence behind the one before, with the candidate around it. */
  ghost predicate Searched(text: string, keyword: string, maxScan: nat, hits: seq<Hit>) {
    hits == [] || (
      var before, last := hits[..|hits| - 1], hits[|hits| - 1];
      && Searched(text, keyword, maxScan, before)
      && Cursor(before, keyword) <= last.idx < |text| && OccursAt(text, keyword, last.idx)
      && (forall i :: Cursor(before, keyword) <= i < last.idx ==> !OccursAt(text, keyword, i))
      && IsCandidate(text, keyword, last.idx, maxScan, last.candidate))
  }

  function Collected(hits: seq<Hit>): seq<string> {
    if hits == [] then []
    else
      Collected(hits[..|hits| - 1])
      + match hits[|hits| - 1].candidate case Some(c) => [c] case None => []
  }

  lemma SearchedSnoc(text: string, keyword: string, maxScan: nat, hits: seq<Hit>, idx: nat, candidate: Option<string>)
    requires Searched(text, keyword, maxScan, hits) && Cursor(hits, keyword) <= idx < |text|
    requires OccursAt(text, keyword, idx) && IsCandidate(text, keyword, idx, maxScan, candidate)
    requires forall i :: Cursor(hits, keyword) <= i < idx ==> !OccursAt(text, keyword, i)
    ensures
      var longer := hits + [Hit(idx, candidate)];
      && Searched(text, keyword, maxScan, longer) && Cursor(longer, keyword) == idx + |keyword|
      && Collected(longer) == Collected(hits) + match candidate case Some(c) => [c] case None => []
  {
    assert (hits + [Hit(idx, candidate)])[..|hits|] == hits;
  }

  /** The candidates around all occurrences that do not overlap, from left to right. */
  method Candidates(text: string, keyword: string, maxScan: nat) returns (out: seq<string>, ghost hits: seq<Hit>)
    requires keyword != ""
    ensures Searched(text, keyword, maxScan, hits) && out == Collected(hits)
    ensures forall i :: Cursor(hits, keyword) <= i < |text| ==> !OccursAt(text, keyword, i)
  {
    out, hits := [], [];
    var cursor := 0;
    while cursor < |text|
      invariant cursor == Cursor(hits, keyword)
      invariant Searched(text, keyword, maxScan, hits) && out == Collected(hits)
    {
      var idx := IndexOf(text, keyword, cursor);
      if idx < 0 {
        break;
      }
      var candidate := CandidateAt(text, keyword, idx, maxScan);
      SearchedSnoc(text, keyword, maxScan, hits, idx, candidate);
      hits := hits + [Hit(idx, candidate)];
      if candidate.Some? {
        out := out + [candidate.value];
      }
      cursor := idx + |keyword|;
    }
  }

  lemma {:induction false} SearchIsUnique(text: string, keyword: string, maxScan: nat, a: seq<Hit>, b: seq<Hit>)
    requires Searched(text, keyword, maxScan, a) && Searched(text, keyword, maxScan, b) && |a| == |b|
    ensures a == b
  {
    if a != [] {
      var n := |a| - 1;
      SearchIsUnique(text, keyword, maxScan, a[..n], b[..n]);
      assert a[n].idx == b[n].idx;
      if a[n].candidate.Some? {
        CandidateUnique(text, keyword, a[n].idx, maxScan, b[n].candidate, a[n].candidate.value);
      } else if b[n].candidate.Some? {
        CandidateUnique(text, keyword, a[n].idx, maxScan, a[n].candidate, b[n].candidate.value);
      }
      assert a == a[..n] + [a[n]] && b == b[..n] + [b[n]];
    }
  }

  lemma CandidateUnique(text: string, keyword: string, idx: nat, maxScan: nat, r: Option<string>, c: string)
    requires IsCandidate(text, keyword, idx, maxScan, r) && IsCandidate(text, keyword, idx, maxScan, Some(c))
    ensures r == Some(c)
  {
    var p :| 0 <= p <= idx && OpensAt(text, p) && OpenersAfter(text, p, idx) < maxScan && Fits(text, keyword, p, c)
      && forall q :: p < q <= idx ==> Unfit(text, keyword, q);
    assert !Unfit(text, keyword, p);
    if r.Some? {
      var q :| 0 <= q <= idx && OpensAt(text, q) && OpenersAfter(text, q, idx) < maxScan
        && Fits(text, keyword, q, r.value)
        && forall k :: q < k <= idx ==> Unfit(text, keyword, k);
      assert !Unfit(text, keyword, q);
      ExtractionUnique(text, p, Some(r.value), c);
    }
  }

  // ---- Printed objects ----

  /** The occurrences visited come from left to right and do not overlap. */
  lemma {:induction false} HitsDoNotOverlap(text: string, keyword: string, maxScan: nat, hits: seq<Hit>, m: nat, n: nat)
    requires Searched(text, keyword, maxScan, hits) && m < n < |hits|
    ensures hits[m].idx + |keyword| <= hits[n].idx
  {
    var before := hits[..|hits| - 1];
    if n < |hits| - 1 {
      HitsDoNotOverlap(text, keyword, maxScan, before, m, n);
    } else if m < n - 1 {
      HitsDoNotOverlap(text, keyword, maxScan, before, m, n - 1);
    }
  }

  /** The search visits an occurrence that no earlier one overlaps. */
  lemma {:induction false} Visited(text: string, keyword: string, maxScan: nat, hits: seq<Hit>, idx: nat)
    returns (m: nat)
    requires Searched(text, keyword, maxScan, hits) && idx < Cursor(hits, keyword) && OccursAt(text, keyword, idx)
    requires forall p :: 0 <= p < idx < p + |keyword| ==> !OccursAt(text, keyword, p)
    ensures m < |hits| && hits[m].idx == idx && IsCandidate(text, keyword, idx, maxScan, hits[m].candidate)
  {
    var n := |hits| - 1;
    if hits[n].idx == idx {
      m := n;
    } else {
      m := Visited(text, keyword, maxScan, hits[..n], idx);
    }
  }

  lemma {:induction false} InCollected(hits: seq<Hit>, m: nat)
    requires m < |hits| && hits[m].candidate.Some?
    ensures hits[m].candidate.value in Collected(hits)
  {
    if m < |hits| - 1 {
      InCollected(hits[..|hits| - 1], m);
    }
  }

  /** The keyword stands at `gap` blanks behind the opening brace or bracket of a printed text. */
  ghost predicate LeadsWith(printed: string, keyword: string, gap: nat) {
    && 1 + gap + |keyword| <= |printed| && (printed[0] == '{' || printed[0] == '[') && IsBlank(printed[1..1 + gap])
    && keyword != "" && keyword[0] == '"' && printed[1 + gap..1 + gap + |keyword|] == keyword
  }

  lemma NoOpenersInGap(prefix: string, printed: string, suffix: string, keyword: string, gap: nat, q: nat)
    requires LeadsWith(printed, keyword, gap) && |prefix| < q <= |prefix| + 1 + gap
    ensures !OpensAt(prefix + printed + suffix, q)
  {
    var text := prefix + printed + suffix;
    var k := q - |prefix|;
    assert text[q] == printed[k];
    if k == 1 + gap {
      assert printed[k] == printed[1 + gap..1 + gap + |keyword|][0];
    } else {
      assert printed[k] == printed[1..1 + gap][k - 1];
    }
  }

  lemma InnermostIsFound(prefix: string, printed: string, suffix: string, keyword: string, gap: nat, maxScan: nat,
                         r: Option<string>)
    requires LeadsWith(printed, keyword, gap) && maxScan > 0
    requires IsExtraction(prefix + printed + suffix, |prefix|, Some(printed))
    requires IsCandidate(prefix + printed + suffix, keyword, |prefix| + 1 + gap, maxScan, r)
    ensures r == Some(printed)
  {
    var text, p, idx := prefix + printed + suffix, |prefix|, |prefix| + 1 + gap;
    assert text[p] == printed[0];
    forall q | p < q <= idx
      ensures !OpensAt(text, q) && Unfit(text, keyword, q)
    {
      NoOpenersInGap(prefix, printed, suffix, keyword, gap, q);
      NotOpenIsUnfit(text, keyword, q);
    }
    NoOpeners(text, p, idx);
    assert OccursAt(printed, keyword, 1 + gap);
    assert Fits(text, keyword, p, printed);
    CandidateUnique(text, keyword, idx, maxScan, r, printed);
  }

  /** A printed object or array, in any of its ways, whose first key or text reads as the keyword, is among the
      candidates found in any text around it, unless an earlier occurrence of the keyword overlaps the key. */
  lemma FirstKeyFindsObject(v: Json, printed: string, prefix: string, suffix: string, keyword: string, gap: nat,
                            maxScan: nat, hits: seq<Hit>)
    requires (v.JObject? || v.JArray?) && Prints(v, printed) && LeadsWith(printed, keyword, gap) && maxScan > 0
    requires
      var text, idx := prefix + printed + suffix, |prefix| + 1 + gap;
      && Searched(text, keyword, maxScan, hits)
      && (forall i :: Cursor(hits, keyword) <= i < |text| ==> !OccursAt(text, keyword, i))
      && (forall p :: 0 <= p < idx < p + |keyword| ==> !OccursAt(text, keyword, p))
    ensures printed in Collected(hits)
  {
    var text, idx := prefix + printed + suffix, |prefix| + 1 + gap;
    assert text[idx..idx + |keyword|] == printed[1 + gap..1 + gap + |keyword|];
    assert OccursAt(text, keyword, idx);
    var m := Visited(text, keyword, maxScan, hits, idx);
    PrintedIsExtracted(v, printed, prefix, suffix);
    InnermostIsFound(prefix, printed, suffix, keyword, gap, maxScan, hits[m].candidate);
    InCollected(hits, m);
  }

  lemma PrintedFits(v: Json, printed: string, prefix: string, suffix: string, keyword: string, at: nat)
    requires (v.JObject? || v.JArray?) && Prints(v, printed) && OccursAt(printed, keyword, at)
    ensures Fits(prefix + printed + suffix, keyword, |prefix|, printed)
    ensures OpensAt(prefix + printed + suffix, |prefix|)
  {
    PrintedIsExtracted(v, printed, prefix, suffix);
    if !OpensAt(prefix + printed + suffix, |prefix|) {
      NotOpenIsUnfit(prefix + printed + suffix, keyword, |prefix|);
    }
  }

  /** Wherever the keyword stands inside a printed object or array, the search at it finds a text: that one or one
      inside it, provided that fewer than `maxScan` brackets open between its beginning and the keyword. */
  lemma EnclosingIsEnough(v: Json, printed: string, prefix: string, suffix: string, keyword: string, at: nat,
                          maxScan: nat, r: Option<string>)
    returns (p: nat)
    requires (v.JObject? || v.JArray?) && Prints(v, printed)
    requires OccursAt(printed, keyword, at)
    requires OpenersAfter(prefix + printed + suffix, |prefix|, |prefix| + at) < maxScan
    requires IsCandidate(prefix + printed + suffix, keyword, |prefix| + at, maxScan, r)
    ensures r.Some? && |prefix| <= p <= |prefix| + at && Fits(prefix + printed + suffix, keyword, p, r.value)
  {
    PrintedFits(v, printed, prefix, suffix, keyword, at);
    p := FittingIsEnough(prefix + printed + suffix, keyword, |prefix|, |prefix| + at, maxScan, printed, r);
  }

  lemma FittingIsEnough(text: string, keyword: string, start: nat, idx: nat, maxScan: nat, candidate: string,
                        r: Option<string>)
    returns (p: nat)
    requires start <= idx && OpensAt(text, start) && Fits(text, keyword, start, candidate)
    requires OpenersAfter(text, start, idx) < maxScan && IsCandidate(text, keyword, idx, maxScan, r)
    ensures r.Some? && start <= p <= idx && Fits(text, keyword, p, r.value)
  {
    assert !Unfit(text, keyword, start);
    p := start;
    if r.Some? {
      p :| 0 <= p <= idx && OpensAt(text, p) && OpenersAfter(text, p, idx) < maxScan
        && Fits(text, keyword, p, r.value) && forall q :: p < q <= idx ==> Unfit(text, keyword, q);
    }
  }

  /** The first key of a printed object, as it is spelled there, leads it. */
  lemma FirstKeyLeads(members: seq<Member>, printed: string) returns (keyword: string, gap: nat)
    requires members != [] && Prints(JObject(members), printed)
    ensures LeadsWith(printed, keyword, gap) && PrintsString(members[0].key, keyword)
  {
    var t := Body(printed);
    assert PrintsMembers(members, t);
    var i: nat, j: nat, c: nat, a: nat, b: nat, k: nat :| MemberAt(members, t, i, j, c, a, b, k);
    keyword, gap := t[i..j], i;
    SliceOfBody(printed, 0, i);
    SliceOfBody(printed, i, j);
  }
}
