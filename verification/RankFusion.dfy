/** Merging two rankings by reciprocal rank, and letting scores fade with age. */
module RankFusion {

  const RRF_K: int := 60

  datatype Scored = Scored(id: string, score: real)

  function Ids(s: seq<Scored>): (ids: seq<string>)
    ensures |ids| == |s| && forall i :: 0 <= i < |s| ==> ids[i] == s[i].id
  {
    seq(|s|, i requires 0 <= i < |s| => s[i].id)
  }

  predicate Distinct(ids: seq<string>) {
    forall i, j :: 0 <= i < j < |ids| ==> ids[i] != ids[j]
  }

  // ---- Scores ----

  /** What the places of an id among the first `n` of a ranking add up to. */
  function RankSum(ranked: seq<string>, n: nat, id: string, k: int): (s: real)
    requires n <= |ranked| && k > 0
    ensures s >= 0.0
  {
    if n == 0 then 0.0
    else RankSum(ranked, n - 1, id, k) + if ranked[n - 1] == id then 1.0 / (k + n - 1) as real else 0.0
  }

  function Score(fts: seq<string>, vec: seq<string>, id: string, k: int): real
    requires k > 0
  {
    RankSum(fts, |fts|, id, k) + RankSum(vec, |vec|, id, k)
  }

  // ---- Order ----

  /** The place where an id is first met. */
  function FirstMet(ids: seq<string>, id: string): (n: nat)
    ensures n <= |ids| && (n < |ids| <==> id in ids) && (n < |ids| ==> ids[n] == id)
    ensures forall i :: 0 <= i < n ==> ids[i] != id
  {
    if ids == [] || ids[0] == id then 0 else 1 + FirstMet(ids[1..], id)
  }

  /** The higher score comes first, and of equal scores the one whose id is met first. */
  predicate Before(met: seq<string>, x: Scored, y: Scored) {
    x.score > y.score || (x.score == y.score && FirstMet(met, x.id) < FirstMet(met, y.id))
  }

  predicate InOrder(met: seq<string>, s: seq<Scored>) {
    forall i, j :: 0 <= i < j < |s| ==> Before(met, s[i], s[j])
  }

  /** The ids come in the order in which they are met. */
  predicate Rising(met: seq<string>, ids: seq<string>) {
    forall i, j :: 0 <= i < j < |ids| ==> FirstMet(met, ids[i]) < FirstMet(met, ids[j])
  }

  function Insert(x: Scored, s: seq<Scored>): seq<Scored> {
    if s == [] || x.score > s[0].score then [x] + s else [s[0]] + Insert(x, s[1..])
  }

  /** The stable sort: each entry is inserted behind those that score no less. */
  function SortedByScore(s: seq<Scored>): seq<Scored> {
    if s == [] then [] else Insert(s[|s| - 1], SortedByScore(s[..|s| - 1]))
  }

  lemma {:induction false} InsertHolds(x: Scored, s: seq<Scored>)
    ensures |Insert(x, s)| == |s| + 1 && forall y :: y in Insert(x, s) <==> y == x || y in s
  {
    if s != [] && x.score <= s[0].score {
      InsertHolds(x, s[1..]);
      assert s == [s[0]] + s[1..];
    }
  }

  /** Inserting an entry met after all others keeps the order. */
  lemma {:induction false} InsertKeepsOrder(met: seq<string>, x: Scored, s: seq<Scored>)
    requires InOrder(met, s) && forall y :: y in s ==> FirstMet(met, y.id) < FirstMet(met, x.id)
    ensures InOrder(met, Insert(x, s))
  {
    if s == [] {
    } else if x.score > s[0].score {
      forall j | 0 <= j < |s|
        ensures Before(met, x, s[j])
      {
        assert j > 0 ==> Before(met, s[0], s[j]);
      }
    } else {
      var rest := Insert(x, s[1..]);
      InsertKeepsOrder(met, x, s[1..]);
      InsertHolds(x, s[1..]);
      assert Before(met, s[0], x) by {
        assert s[0] in s;
      }
      forall j | 0 <= j < |rest|
        ensures Before(met, s[0], rest[j])
      {
        assert rest[j] in rest;
        if rest[j] != x {
          var i :| 0 <= i < |s[1..]| && s[1..][i] == rest[j];
          assert Before(met, s[0], s[i + 1]);
        }
      }
    }
  }

  /** Sorting entries that come as met puts them in order, and keeps just them. */
  lemma {:induction false} SortOrders(met: seq<string>, s: seq<Scored>)
    requires Rising(met, Ids(s))
    ensures InOrder(met, SortedByScore(s))
    ensures |SortedByScore(s)| == |s| && forall y :: y in SortedByScore(s) <==> y in s
  {
    if s != [] {
      var n := |s| - 1;
      assert Ids(s[..n]) == Ids(s)[..n];
      SortOrders(met, s[..n]);
      assert s == s[..n] + [s[n]];
      InsertHolds(s[n], SortedByScore(s[..n]));
      forall y | y in SortedByScore(s[..n])
        ensures FirstMet(met, y.id) < FirstMet(met, s[n].id)
      {
        var i :| 0 <= i < n && s[i] == y;
        assert Ids(s)[i] == y.id && Ids(s)[n] == s[n].id;
      }
      InsertKeepsOrder(met, s[n], SortedByScore(s[..n]));
    }
  }

  lemma HoldsFirst(s: seq<Scored>)
    requires s != []
    ensures s[0] in s
  {
  }

  lemma SameHead(met: seq<string>, a: seq<Scored>, b: seq<Scored>)
    requires a != [] && b != [] && InOrder(met, a) && InOrder(met, b) && forall y :: y in a <==> y in b
    ensures a[0] == b[0]
  {
    assert a[0] in b && b[0] in a;
    var i :| 0 <= i < |b| && b[i] == a[0];
    var j :| 0 <= j < |a| && a[j] == b[0];
  }

  lemma TailHolds(met: seq<string>, a: seq<Scored>, b: seq<Scored>)
    requires a != [] && b != [] && a[0] == b[0] && InOrder(met, a) && forall y :: y in a ==> y in b
    ensures forall y :: y in a[1..] ==> y in b[1..]
  {
    forall y | y in a[1..]
      ensures y in b[1..]
    {
      var i :| 0 <= i < |a| - 1 && a[1..][i] == y;
      assert Before(met, a[0], a[i + 1]);
      assert a[i + 1] == y && y in a;
      var j :| 0 <= j < |b| && b[j] == y;
      assert b[1..][j - 1] == y;
    }
  }

  /** Only one sequence holds given entries in order. */
  lemma {:induction false} OrderIsUnique(met: seq<string>, a: seq<Scored>, b: seq<Scored>)
    requires InOrder(met, a) && InOrder(met, b) && forall y :: y in a <==> y in b
    ensures a == b
  {
    if a != [] {
      HoldsFirst(a);
      SameHead(met, a, b);
      TailHolds(met, a, b);
      TailHolds(met, b, a);
      OrderIsUnique(met, a[1..], b[1..]);
    } else if b != [] {
      HoldsFirst(b);
    }
  }

  // ---- Merging ----

  /** Each id of either ranking once, with its score; ties stand as met in the first ranking, then the second. */
  predicate Merged(fts: seq<string>, vec: seq<string>, k: int, merged: seq<Scored>)
    requires k > 0
  {
    && Distinct(Ids(merged)) && InOrder(fts + vec, merged)
    && (forall i :: 0 <= i < |merged| ==> merged[i].score == Score(fts, vec, merged[i].id, k))
    && (forall i :: 0 <= i < |merged| ==> merged[i].id in fts + vec)
    && forall id :: id in fts + vec ==> id in Ids(merged)
  }

  /** The ids listed are those scored, as met. */
  ghost predicate Listed(met: seq<string>, n: nat, order: seq<string>, scores: map<string, real>)
    requires n <= |met|
  {
    && (forall x :: x in order <==> x in scores)
    && (forall x :: x in order <==> x in met[..n])
    && Rising(met, order)
  }

  lemma RisingNext(met: seq<string>, order: seq<string>, id: string)
    requires Rising(met, order) && forall i :: 0 <= i < |order| ==> FirstMet(met, order[i]) < FirstMet(met, id)
    ensures Rising(met, order + [id])
  {
  }

  lemma {:induction false} NotYetRanked(ranked: seq<string>, n: nat, id: string, k: int)
    requires n <= |ranked| && k > 0 && id !in ranked[..n]
    ensures RankSum(ranked, n, id, k) == 0.0
  {
    if n > 0 {
      assert ranked[n - 1] == ranked[..n][n - 1];
      assert forall x :: x in ranked[..n - 1] ==> x in ranked[..n];
      NotYetRanked(ranked, n - 1, id, k);
    }
  }

  /** The order with an id that is met anew at its end. */
  function Met(order: seq<string>, scores: map<string, real>, id: string): seq<string> {
    if id in scores then order else order + [id]
  }

  lemma MetEarlier(met: seq<string>, n: nat, x: string)
    requires n <= |met| && x in met[..n]
    ensures FirstMet(met, x) < n
  {
    var j :| 0 <= j < n && met[..n][j] == x;
    assert met[j] == x;
  }

  lemma MetHere(met: seq<string>, n: nat)
    requires n < |met| && met[n] !in met[..n]
    ensures FirstMet(met, met[n]) == n
  {
    forall i | 0 <= i < n
      ensures met[i] != met[n]
    {
      assert met[..n][i] == met[i];
    }
  }

  lemma ListedAgain(met: seq<string>, n: nat, order: seq<string>, scores: map<string, real>, id: string, score: real)
    requires n < |met| && met[n] == id && Listed(met, n, order, scores) && id in scores
    ensures Listed(met, n + 1, order, scores[id := score])
  {
    assert met[..n + 1] == met[..n] + [id];
  }

  lemma ListedAnew(met: seq<string>, n: nat, order: seq<string>, scores: map<string, real>, id: string, score: real)
    requires n < |met| && met[n] == id && Listed(met, n, order, scores) && id !in scores
    ensures Listed(met, n + 1, order + [id], scores[id := score])
  {
    assert met[..n + 1] == met[..n] + [id];
    MetHere(met, n);
    forall i | 0 <= i < |order|
      ensures FirstMet(met, order[i]) < FirstMet(met, id)
    {
      assert order[i] in order;
      MetEarlier(met, n, order[i]);
    }
    RisingNext(met, order, id);
  }

  lemma ListedNext(met: seq<string>, n: nat, order: seq<string>, scores: map<string, real>, id: string, score: real)
    requires n < |met| && met[n] == id && Listed(met, n, order, scores)
    ensures Listed(met, n + 1, Met(order, scores, id), scores[id := score])
  {
    if id in scores {
      ListedAgain(met, n, order, scores, id, score);
    } else {
      ListedAnew(met, n, order, scores, id, score);
    }
  }

  /** Each score is the one before plus what the first `n` places of the ranking add. */
  predicate Summed(before: map<string, real>, ranked: seq<string>, n: nat, k: int, scores: map<string, real>)
    requires n <= |ranked| && k > 0
  {
    && before.Keys <= scores.Keys
    && (forall x :: x in ranked[..n] ==> x in scores)
    && forall x :: x in scores ==> scores[x] == (if x in before then before[x] else 0.0) + RankSum(ranked, n, x, k)
  }

  lemma SummedNext(before: map<string, real>, ranked: seq<string>, n: nat, k: int, scores: map<string, real>,
                   score: real)
    requires n < |ranked| && k > 0 && Summed(before, ranked, n, k, scores)
    requires score == (if ranked[n] in scores then scores[ranked[n]] else 0.0) + 1.0 / (k + n) as real
    ensures Summed(before, ranked, n + 1, k, scores[ranked[n] := score])
  {
    assert ranked[..n + 1] == ranked[..n] + [ranked[n]];
    if ranked[n] !in scores {
      NotYetRanked(ranked, n, ranked[n], k);
    }
  }

  lemma MetAt(seen: seq<string>, ranked: seq<string>, met: seq<string>, i: nat)
    requires seen + ranked <= met && i < |ranked|
    ensures |seen| + i < |met| && met[|seen| + i] == ranked[i]
  {
    assert met[|seen| + i] == (seen + ranked)[|seen| + i];
  }

  /** Adds one ranking's reciprocal ranks to the scores; `order` lists the ids as met, `seen` those met before. */
  method AddRanks(ranked: seq<string>, k: int, scores0: map<string, real>, order0: seq<string>, ghost seen: seq<string>,
                  ghost met: seq<string>)
    returns (scores: map<string, real>, order: seq<string>)
    requires k > 0 && seen + ranked <= met && Listed(met, |seen|, order0, scores0)
    ensures Listed(met, |seen| + |ranked|, order, scores) && Summed(scores0, ranked, |ranked|, k, scores)
  {
    scores, order := scores0, order0;
    for i := 0 to |ranked|
      invariant Listed(met, |seen| + i, order, scores) && Summed(scores0, ranked, i, k, scores)
    {
      var id := ranked[i];
      MetAt(seen, ranked, met, i);
      var score := (if id in scores then scores[id] else 0.0) + 1.0 / (k + i) as real;
      ListedNext(met, |seen| + i, order, scores, id, score);
      SummedNext(scores0, ranked, i, k, scores, score);
      order := Met(order, scores, id);
      scores := scores[id := score];
    }
  }

  lemma SummedTwice(fts: seq<string>, vec: seq<string>, k: int, first: map<string, real>, scores: map<string, real>)
    requires k > 0 && Summed(map[], fts, |fts|, k, first) && Summed(first, vec, |vec|, k, scores)
    ensures forall id :: id in scores ==> scores[id] == Score(fts, vec, id, k)
  {
    assert fts[..|fts|] == fts;
    forall id | id in scores
      ensures scores[id] == Score(fts, vec, id, k)
    {
      if id !in first {
        NotYetRanked(fts, |fts|, id, k);
      }
    }
  }

  /** The entries in the order their ids are met. */
  function Entries(order: seq<string>, scores: map<string, real>): (s: seq<Scored>)
    requires forall x :: x in order ==> x in scores
    ensures |s| == |order| && forall i :: 0 <= i < |s| ==> s[i] == Scored(order[i], scores[order[i]])
  {
    seq(|order|, i requires 0 <= i < |order| && order[i] in scores => Scored(order[i], scores[order[i]]))
  }

  lemma EntriesMerge(fts: seq<string>, vec: seq<string>, k: int, order: seq<string>, entries: seq<Scored>,
                     merged: seq<Scored>)
    requires k > 0 && InOrder(fts + vec, merged) && (forall y :: y in merged <==> y in entries)
    requires |entries| == |order| && forall i :: 0 <= i < |order| ==> entries[i].id == order[i]
    requires forall y :: y in entries ==> y.score == Score(fts, vec, y.id, k)
    requires forall x :: x in order <==> x in fts + vec
    ensures Merged(fts, vec, k, merged)
  {
    forall i | 0 <= i < |merged|
      ensures merged[i].score == Score(fts, vec, merged[i].id, k) && merged[i].id in fts + vec
    {
      assert merged[i] in merged;
      var j :| 0 <= j < |entries| && entries[j] == merged[i];
      assert order[j] == merged[i].id;
    }
    forall i, j | 0 <= i < j < |merged|
      ensures merged[i].id != merged[j].id
    {
      assert Before(fts + vec, merged[i], merged[j]);
    }
    forall id | id in fts + vec
      ensures id in Ids(merged)
    {
      var i :| 0 <= i < |order| && order[i] == id;
      assert entries[i] in merged;
      var j :| 0 <= j < |merged| && merged[j] == entries[i];
      assert Ids(merged)[j] == id;
    }
  }

  lemma SortedEntriesMerge(fts: seq<string>, vec: seq<string>, k: int, order: seq<string>, scores: map<string, real>)
    requires k > 0 && Listed(fts + vec, |fts + vec|, order, scores)
    requires forall id :: id in scores ==> scores[id] == Score(fts, vec, id, k)
    ensures Merged(fts, vec, k, SortedByScore(Entries(order, scores)))
  {
    var entries := Entries(order, scores);
    assert (fts + vec)[..|fts + vec|] == fts + vec;
    assert Ids(entries) == order;
    SortOrders(fts + vec, entries);
    EntriesMerge(fts, vec, k, order, entries, SortedByScore(entries));
  }

  method RrfMerge(fts: seq<string>, vec: seq<string>, k: int := RRF_K) returns (merged: seq<Scored>)
    requires k > 0
    ensures Merged(fts, vec, k, merged)
  {
    ghost var met := fts + vec;
    var first, order := AddRanks(fts, k, map[], [], [], met);
    var scores;
    scores, order := AddRanks(vec, k, first, order, fts, met);
    SummedTwice(fts, vec, k, first, scores);
    merged := SortedByScore(Entries(order, scores));
    SortedEntriesMerge(fts, vec, k, order, scores);
  }

  // ---- What merging means ----

  /** In a ranking in order the scores fall, and equal scores stand as their ids were met. */
  lemma OrderMeans(met: seq<string>, s: seq<Scored>, i: nat, j: nat)
    requires InOrder(met, s) && i < |s| && j < |s| && i != j
    ensures s[i].score > s[j].score ==> i < j
    ensures s[i].score == s[j].score && FirstMet(met, s[i].id) < FirstMet(met, s[j].id) ==> i < j
    ensures i < j ==> s[i].score >= s[j].score
  {
    assert i < j ==> Before(met, s[i], s[j]);
    assert j < i ==> Before(met, s[j], s[i]);
  }

  /** The rankings leave no choice. */
  lemma MergedIsUnique(fts: seq<string>, vec: seq<string>, k: int, a: seq<Scored>, b: seq<Scored>)
    requires k > 0 && Merged(fts, vec, k, a) && Merged(fts, vec, k, b)
    ensures a == b
  {
    MergedHolds(fts, vec, k, a, b);
    MergedHolds(fts, vec, k, b, a);
    OrderIsUnique(fts + vec, a, b);
  }

  lemma MergedHolds(fts: seq<string>, vec: seq<string>, k: int, a: seq<Scored>, b: seq<Scored>)
    requires k > 0 && Merged(fts, vec, k, a) && Merged(fts, vec, k, b)
    ensures forall y :: y in a ==> y in b
  {
    forall y | y in a
      ensures y in b
    {
      var i :| 0 <= i < |a| && a[i] == y;
      assert y.id in Ids(b);
      var j :| 0 <= j < |b| && Ids(b)[j] == y.id;
      assert b[j] == y;
    }
  }

  lemma {:induction false} ScoreOfPlace(ranked: seq<string>, n: nat, p: nat, k: int)
    requires p < n <= |ranked| && k > 0 && Distinct(ranked)
    ensures RankSum(ranked, n, ranked[p], k) == 1.0 / (k + p) as real
  {
    if p < n - 1 {
      ScoreOfPlace(ranked, n - 1, p, k);
    } else {
      NotYetRanked(ranked, p, ranked[p], k);
    }
  }

  lemma PlaceScores(ranked: seq<string>, id: string, k: int, p: nat)
    requires k > 0 && Distinct(ranked) && (id in ranked ==> p < |ranked| && ranked[p] == id)
    ensures RankSum(ranked, |ranked|, id, k) == if id in ranked then 1.0 / (k + p) as real else 0.0
  {
    if id in ranked {
      ScoreOfPlace(ranked, |ranked|, p, k);
    } else {
      assert ranked[..|ranked|] == ranked;
      NotYetRanked(ranked, |ranked|, id, k);
    }
  }

  /** An entry at place `p` of one ranking and `q` of the other scores `1 / (k + p) + 1 / (k + q)`, places counted from
      zero; a ranking without it adds nothing. */
  lemma ScoreIsReciprocals(fts: seq<string>, vec: seq<string>, k: int, merged: seq<Scored>, i: nat, p: nat, q: nat)
    requires k > 0 && Distinct(fts) && Distinct(vec) && Merged(fts, vec, k, merged) && i < |merged|
    requires merged[i].id in fts ==> p < |fts| && fts[p] == merged[i].id
    requires merged[i].id in vec ==> q < |vec| && vec[q] == merged[i].id
    ensures merged[i].score ==
      (if merged[i].id in fts then 1.0 / (k + p) as real else 0.0) +
      (if merged[i].id in vec then 1.0 / (k + q) as real else 0.0)
  {
    PlaceScores(fts, merged[i].id, k, p);
    PlaceScores(vec, merged[i].id, k, q);
  }

  lemma Reciprocal(a: real, b: real)
    requires 0.0 < a < b
    ensures 1.0 / a > 1.0 / b
  {
    assert 1.0 / a - 1.0 / b == (b - a) / (a * b);
  }

  /** Wherever `y` is ranked, `x` is ranked above it. */
  predicate Above(ranked: seq<string>, x: string, y: string) {
    y in ranked ==> FirstMet(ranked, x) < FirstMet(ranked, y)
  }

  lemma AboveScoresMore(ranked: seq<string>, x: string, y: string, k: int)
    requires k > 0 && Distinct(ranked) && Above(ranked, x, y) && x != y
    ensures RankSum(ranked, |ranked|, x, k) >= RankSum(ranked, |ranked|, y, k)
    ensures x in ranked ==> RankSum(ranked, |ranked|, x, k) > RankSum(ranked, |ranked|, y, k)
  {
    assert ranked[..|ranked|] == ranked;
    if y in ranked {
      ScoreOfPlace(ranked, |ranked|, FirstMet(ranked, x), k);
      ScoreOfPlace(ranked, |ranked|, FirstMet(ranked, y), k);
      Reciprocal((k + FirstMet(ranked, x)) as real, (k + FirstMet(ranked, y)) as real);
    } else {
      NotYetRanked(ranked, |ranked|, y, k);
      if x in ranked {
        ScoreOfPlace(ranked, |ranked|, FirstMet(ranked, x), k);
      }
    }
  }

  /** An id found by a search, and above another in every ranking that holds the other, scores strictly higher than it
      and stands above it, even where one of the searches found only one of them or neither. */
  lemma HigherWhereverFoundIsHigher(fts: seq<string>, vec: seq<string>, k: int, merged: seq<Scored>, i: nat, j: nat)
    requires k > 0 && Distinct(fts) && Distinct(vec) && Merged(fts, vec, k, merged) && i < |merged| && j < |merged|
    requires merged[i].id != merged[j].id
    requires Above(fts, merged[i].id, merged[j].id) && Above(vec, merged[i].id, merged[j].id)
    ensures merged[i].score > merged[j].score && i < j
  {
    AboveScoresMore(fts, merged[i].id, merged[j].id, k);
    AboveScoresMore(vec, merged[i].id, merged[j].id, k);
  }

  lemma {:induction false} RankedIsPositive(ranked: seq<string>, n: nat, id: string, k: int)
    requires n <= |ranked| && k > 0 && id in ranked[..n]
    ensures RankSum(ranked, n, id, k) > 0.0
  {
    if ranked[n - 1] != id {
      assert ranked[..n] == ranked[..n - 1] + [ranked[n - 1]];
      RankedIsPositive(ranked, n - 1, id, k);
    }
  }

  lemma MergedIsPositive(fts: seq<string>, vec: seq<string>, k: int, merged: seq<Scored>)
    requires k > 0 && Merged(fts, vec, k, merged)
    ensures forall i :: 0 <= i < |merged| ==> merged[i].score > 0.0
  {
    forall i | 0 <= i < |merged|
      ensures merged[i].score > 0.0
    {
      assert fts[..|fts|] == fts && vec[..|vec|] == vec;
      if merged[i].id in fts {
        RankedIsPositive(fts, |fts|, merged[i].id, k);
      } else {
        RankedIsPositive(vec, |vec|, merged[i].id, k);
      }
    }
  }

  // ---- Fading ----

  function Faded(scored: seq<Scored>, fading: string -> real): (s: seq<Scored>)
    ensures |s| == |scored|
    ensures forall i :: 0 <= i < |s| ==> s[i] == Scored(scored[i].id, scored[i].score * fading(scored[i].id))
  {
    seq(|scored|, i requires 0 <= i < |scored| => Scored(scored[i].id, scored[i].score * fading(scored[i].id)))
  }

  /** Multiplies each score by what age leaves of it (one for what does not age) and sorts again, ties as they came. */
  method ApplyTemporalDecay(scored: seq<Scored>, fading: string -> real) returns (r: seq<Scored>)
    requires Distinct(Ids(scored))
    ensures InOrder(Ids(scored), r) && |r| == |scored|
    ensures forall y :: y in r <==> y in Faded(scored, fading)
  {
    var s := Faded(scored, fading);
    forall i | 0 <= i < |s|
      ensures FirstMet(Ids(scored), s[i].id) == i
    {
      var m := FirstMet(Ids(scored), s[i].id);
      assert Ids(scored)[m] == Ids(scored)[i];
    }
    assert Ids(s) == Ids(scored);
    SortOrders(Ids(scored), s);
    r := SortedByScore(s);
  }
}
