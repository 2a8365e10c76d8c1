/** Re-ranking for relevance and variety. */
module MmrRerank {
  import opened RankFusion

  // ---- Likeness of texts ----

  /** The share of tokens two texts have in common. */
  function Similarity(a: set<string>, b: set<string>): real {
    if a + b == {} then 0.0 else |a * b| as real / |a + b| as real
  }

  lemma UnionSize(a: set<string>, b: set<string>)
    ensures |a| + |b| == |a + b| + |a * b|
  {
  }

  lemma CountNext(a: set<string>, b: set<string>, left: set<string>, w: string)
    requires left <= a && w in left
    ensures |(a - (left - {w})) * b| == |(a - left) * b| + if w in b then 1 else 0
  {
    assert (a - (left - {w})) * b == (a - left) * b + if w in b then {w} else {};
  }

  method Jaccard(a: set<string>, b: set<string>) returns (r: real)
    ensures r == Similarity(a, b)
  {
    var intersection := 0;
    var left := a;
    while left != {}
      invariant left <= a && intersection == |(a - left) * b|
      decreases left
    {
      var w :| w in left;
      CountNext(a, b, left, w);
      if w in b {
        intersection := intersection + 1;
      }
      left := left - {w};
    }
    assert (a - left) * b == a * b;
    UnionSize(a, b);
    var union := |a| + |b| - intersection;
    r := if union == 0 then 0.0 else intersection as real / union as real;
  }

  lemma Quotient(n: nat, d: nat)
    requires n <= d && d > 0
    ensures 0.0 <= n as real / d as real <= 1.0 && (n as real / d as real == 1.0 <==> n == d)
  {
  }

  lemma Subsize(a: set<string>, b: set<string>)
    requires a <= b
    ensures |a| <= |b| && (|a| == |b| ==> a == b)
  {
    UnionSize(a, b - a);
    assert b == a + (b - a) && a * (b - a) == {};
  }

  /** Between nothing and one in common, the same both ways, and one exactly for equal token sets. */
  lemma SimilarityIsFair(a: set<string>, b: set<string>)
    ensures 0.0 <= Similarity(a, b) <= 1.0
    ensures Similarity(a, b) == Similarity(b, a)
    ensures a + b != {} ==> (Similarity(a, b) == 1.0 <==> a == b)
    ensures Similarity(a, b) * |a + b| as real == |a * b| as real
  {
    assert a + b == b + a && a * b == b * a;
    if a + b != {} {
      Subsize(a * b, a + b);
      Quotient(|a * b|, |a + b|);
      assert a == b ==> a * b == a + b;
    }
  }

  // ---- Marginal relevance ----

  function Likeness(tokens: string -> set<string>, id: string, c: Scored): real {
    Similarity(tokens(id), tokens(c.id))
  }

  /** The nearest likeness to anything picked already. */
  function Closest(tokens: string -> set<string>, id: string, picked: seq<Scored>): (s: real)
    ensures s >= 0.0
  {
    if picked == [] then 0.0
    else
      var before := Closest(tokens, id, picked[..|picked| - 1]);
      var sim := Likeness(tokens, id, picked[|picked| - 1]);
      if sim > before then sim else before
  }

  lemma LikenessIsFair(tokens: string -> set<string>, id: string, c: Scored)
    ensures 0.0 <= Likeness(tokens, id, c) <= 1.0
  {
    SimilarityIsFair(tokens(id), tokens(c.id));
  }

  /** It is the greatest likeness to a picked entry, and some picked entry has it. */
  lemma {:induction false} ClosestIsGreatest(tokens: string -> set<string>, id: string, picked: seq<Scored>)
    ensures forall i :: 0 <= i < |picked| ==> Likeness(tokens, id, picked[i]) <= Closest(tokens, id, picked)
    ensures picked != [] ==>
      exists i :: 0 <= i < |picked| && Likeness(tokens, id, picked[i]) == Closest(tokens, id, picked)
  {
    if picked != [] {
      var n := |picked| - 1;
      ClosestIsGreatest(tokens, id, picked[..n]);
      LikenessIsFair(tokens, id, picked[n]);
      if n > 0 && Likeness(tokens, id, picked[n]) <= Closest(tokens, id, picked[..n]) {
        var i :| 0 <= i < n && Likeness(tokens, id, picked[..n][i]) == Closest(tokens, id, picked[..n]);
        assert picked[i] == picked[..n][i];
      }
    }
  }

  method NearestPicked(tokens: string -> set<string>, id: string, picked: seq<Scored>) returns (maxSim: real)
    ensures maxSim == Closest(tokens, id, picked)
  {
    maxSim := 0.0;
    for j := 0 to |picked|
      invariant maxSim == Closest(tokens, id, picked[..j])
    {
      var sim := Jaccard(tokens(id), tokens(picked[j].id));
      assert picked[..j + 1][..j] == picked[..j];
      if sim > maxSim {
        maxSim := sim;
      }
    }
    assert picked[..|picked|] == picked;
  }

  function Share(score: real, top: real): real
    requires top != 0.0
  {
    score / top
  }

  function Mix(weight: real, relevance: real, sim: real): real {
    weight * relevance - (1.0 - weight) * sim
  }

  function Marginal(tokens: string -> set<string>, weight: real, top: real, picked: seq<Scored>, c: Scored): real
    requires top != 0.0
  {
    Mix(weight, Share(c.score, top), Closest(tokens, c.id, picked))
  }

  method MarginalOf(tokens: string -> set<string>, weight: real, maxScore: real, selected: seq<Scored>, c: Scored)
    returns (mmr: real)
    requires maxScore != 0.0
    ensures mmr == Marginal(tokens, weight, maxScore, selected, c)
  {
    var maxSim := NearestPicked(tokens, c.id, selected);
    mmr := Mix(weight, Share(c.score, maxScore), maxSim);
  }

  function Marginals(tokens: string -> set<string>, weight: real, top: real, picked: seq<Scored>, rest: seq<Scored>)
    : (ms: seq<real>)
    requires top != 0.0
    ensures |ms| == |rest|
  {
    if rest == [] then []
    else
      var n := |rest| - 1;
      Marginals(tokens, weight, top, picked, rest[..n]) + [Marginal(tokens, weight, top, picked, rest[n])]
  }

  lemma {:induction false} MarginalsAt(tokens: string -> set<string>, weight: real, top: real, picked: seq<Scored>,
                                      rest: seq<Scored>, i: nat)
    requires top != 0.0 && i < |rest|
    ensures Marginals(tokens, weight, top, picked, rest)[i] == Marginal(tokens, weight, top, picked, rest[i])
  {
    if i < |rest| - 1 {
      MarginalsAt(tokens, weight, top, picked, rest[..|rest| - 1], i);
    }
  }

  lemma MarginalsSnoc(tokens: string -> set<string>, weight: real, top: real, picked: seq<Scored>, rest: seq<Scored>,
                      i: nat)
    requires top != 0.0 && i < |rest|
    ensures Marginals(tokens, weight, top, picked, rest[..i + 1])
         == Marginals(tokens, weight, top, picked, rest[..i]) + [Marginal(tokens, weight, top, picked, rest[i])]
  {
    assert rest[..i + 1][..i] == rest[..i];
  }

  // ---- Picking ----

  /** The first of the greatest. */
  predicate FirstBest(ms: seq<real>, k: nat) {
    k < |ms| && (forall i :: 0 <= i < |ms| ==> ms[i] <= ms[k]) && (forall i :: 0 <= i < k ==> ms[i] < ms[k])
  }

  lemma OneFirstBest(ms: seq<real>, k: nat, l: nat)
    requires FirstBest(ms, k) && FirstBest(ms, l)
    ensures k == l
  {
    assert ms[k] == ms[l];
  }

  method FindBest(tokens: string -> set<string>, weight: real, maxScore: real, selected: seq<Scored>,
                  remaining: seq<Scored>)
    returns (bestIdx: nat)
    requires maxScore != 0.0 && remaining != []
    ensures FirstBest(Marginals(tokens, weight, maxScore, selected, remaining), bestIdx)
  {
    var bestMmr := 0.0;
    bestIdx := 0;
    for i := 0 to |remaining|
      invariant i > 0 ==> FirstBest(Marginals(tokens, weight, maxScore, selected, remaining[..i]), bestIdx)
      invariant i > 0 ==> bestMmr == Marginals(tokens, weight, maxScore, selected, remaining[..i])[bestIdx]
    {
      var mmr := MarginalOf(tokens, weight, maxScore, selected, remaining[i]);
      MarginalsSnoc(tokens, weight, maxScore, selected, remaining, i);
      if i == 0 || mmr > bestMmr {
        bestMmr, bestIdx := mmr, i;
      }
    }
    assert remaining[..|remaining|] == remaining;
  }

  /** The last pick is the first of the best of `before`, and `rest` is what it leaves. */
  predicate Picks(tokens: string -> set<string>, weight: real, top: real, picked: seq<Scored>, before: seq<Scored>,
                  k: nat, rest: seq<Scored>)
    requires top != 0.0 && picked != []
  {
    var n := |picked| - 1;
    && k < |before| && picked[n] == before[k] && rest == before[..k] + before[k + 1..]
    && FirstBest(Marginals(tokens, weight, top, picked[..n], before), k)
  }

  /** `picked` was taken one by one from `scored`, each the first of the best of what was left; `rest` is left. */
  ghost predicate Picked(tokens: string -> set<string>, weight: real, top: real, scored: seq<Scored>,
                         picked: seq<Scored>, rest: seq<Scored>)
    requires top != 0.0
  {
    if picked == [] then rest == scored
    else
      exists before: seq<Scored>, k: nat ::
        Picks(tokens, weight, top, picked, before, k, rest)
        && Picked(tokens, weight, top, scored, picked[..|picked| - 1], before)
  }

  lemma Pick(tokens: string -> set<string>, weight: real, top: real, scored: seq<Scored>, picked: seq<Scored>,
             before: seq<Scored>, k: nat)
    requires top != 0.0 && Picked(tokens, weight, top, scored, picked, before)
    requires FirstBest(Marginals(tokens, weight, top, picked, before), k)
    ensures Picked(tokens, weight, top, scored, picked + [before[k]], before[..k] + before[k + 1..])
  {
    var next := picked + [before[k]];
    assert next[..|picked|] == picked;
    assert Picks(tokens, weight, top, next, before, k, before[..k] + before[k + 1..]);
  }

  // ---- Re-ranking ----

  /** What the scores are measured by: the first score, or one if that is zero. */
  function Top(scored: seq<Scored>): (t: real)
    ensures t != 0.0
  {
    if scored == [] || scored[0].score == 0.0 then 1.0 else scored[0].score
  }

  /** Nothing is re-ranked when there is at most one entry or only relevance weighs. */
  predicate AsIs(scored: seq<Scored>, weight: real) {
    |scored| <= 1 || weight >= 1.0
  }

  /** Where `slice(0, limit)` ends: a negative limit counts from the end. */
  function SliceEnd(n: nat, limit: int): (e: nat)
    ensures e <= n
  {
    if limit >= n then n else if limit >= 0 then limit else if n + limit >= 0 then n + limit else 0
  }

  /** How many entries the picking loop takes: none for a negative limit. */
  function Count(n: nat, limit: int): (c: nat)
    ensures c <= n
  {
    if limit >= n then n else if limit >= 0 then limit else 0
  }

  /** The result of re-ranking. */
  ghost predicate Reranked(scored: seq<Scored>, tokens: string -> set<string>, limit: int, weight: real,
                           selected: seq<Scored>)
  {
    if AsIs(scored, weight) then selected == scored[..SliceEnd(|scored|, limit)]
    else
      && |selected| == Count(|scored|, limit)
      && exists rest :: Picked(tokens, weight, Top(scored), scored, selected, rest)
  }

  method Rerank(scored: seq<Scored>, tokens: string -> set<string>, limit: int, weight: real := 0.7)
    returns (selected: seq<Scored>)
    ensures Reranked(scored, tokens, limit, weight, selected)
  {
    if |scored| <= 1 || weight >= 1.0 {
      return scored[..SliceEnd(|scored|, limit)];
    }
    selected := [];
    var remaining := scored;
    var maxScore := Top(scored);
    while |selected| < limit && |remaining| > 0
      invariant |selected| == 0 || |selected| <= limit
      invariant |selected| + |remaining| == |scored|
      invariant Picked(tokens, weight, maxScore, scored, selected, remaining)
      decreases |remaining|
    {
      var best := FindBest(tokens, weight, maxScore, selected, remaining);
      Pick(tokens, weight, maxScore, scored, selected, remaining, best);
      selected := selected + [remaining[best]];
      remaining := remaining[..best] + remaining[best + 1..];
    }
  }

  // ---- What re-ranking means ----

  /** How many entries come back: as many as there are up to the limit; a negative limit leaves none where something
      is re-ranked, and cuts that many off the end where nothing is. */
  lemma AsManyAsAllowed(scored: seq<Scored>, tokens: string -> set<string>, limit: int, weight: real,
                        selected: seq<Scored>)
    requires Reranked(scored, tokens, limit, weight, selected)
    ensures 0 <= limit <= |scored| ==> |selected| == limit
    ensures limit > |scored| ==> |selected| == |scored|
    ensures limit < 0 && |scored| > 1 && weight < 1.0 ==> selected == []
    ensures |scored| <= 1 || weight >= 1.0 ==> selected <= scored
    ensures -|scored| <= limit < 0 && (|scored| <= 1 || weight >= 1.0) ==> |selected| == |scored| + limit
  {
  }

  lemma TakenOut(s: seq<Scored>, k: nat)
    requires k < |s|
    ensures multiset(s[..k] + s[k + 1..]) + multiset{s[k]} == multiset(s)
  {
    assert s == s[..k] + [s[k]] + s[k + 1..];
  }

  /** Nothing is picked twice or lost. */
  lemma {:induction false} PickedIsPart(tokens: string -> set<string>, weight: real, top: real, scored: seq<Scored>,
                                        picked: seq<Scored>, rest: seq<Scored>)
    requires top != 0.0 && Picked(tokens, weight, top, scored, picked, rest)
    ensures multiset(picked) + multiset(rest) == multiset(scored)
  {
    if picked != [] {
      var n := |picked| - 1;
      var before: seq<Scored>, k: nat :|
        Picks(tokens, weight, top, picked, before, k, rest) && Picked(tokens, weight, top, scored, picked[..n], before);
      PickedIsPart(tokens, weight, top, scored, picked[..n], before);
      TakenOut(before, k);
      assert picked == picked[..n] + [picked[n]];
    }
  }

  /** Every prefix of a picking is a picking. */
  lemma {:induction false} PickedPrefix(tokens: string -> set<string>, weight: real, top: real, scored: seq<Scored>,
                                        picked: seq<Scored>, rest: seq<Scored>, m: nat)
    returns (left: seq<Scored>)
    requires top != 0.0 && m <= |picked| && Picked(tokens, weight, top, scored, picked, rest)
    ensures Picked(tokens, weight, top, scored, picked[..m], left)
  {
    if m == |picked| {
      assert picked[..m] == picked;
      left := rest;
    } else {
      var n := |picked| - 1;
      var before: seq<Scored>, k: nat :|
        Picks(tokens, weight, top, picked, before, k, rest) && Picked(tokens, weight, top, scored, picked[..n], before);
      assert picked[..n][..m] == picked[..m];
      left := PickedPrefix(tokens, weight, top, scored, picked[..n], before, m);
    }
  }

  /** `s` is the greatest likeness of an entry's text to those of entries picked, or nothing if there are none. */
  predicate NearestTo(tokens: string -> set<string>, c: Scored, picked: seq<Scored>, s: real) {
    if picked == [] then s == 0.0
    else
      && (forall i :: 0 <= i < |picked| ==> Likeness(tokens, c.id, picked[i]) <= s)
      && exists i :: 0 <= i < |picked| && Likeness(tokens, c.id, picked[i]) == s
  }

  lemma NearestIsClosest(tokens: string -> set<string>, c: Scored, picked: seq<Scored>, s: real)
    requires NearestTo(tokens, c, picked, s)
    ensures s == Closest(tokens, c.id, picked)
  {
    ClosestIsGreatest(tokens, c.id, picked);
  }

  /** Relevance and likeness, weighed against each other, come to no more for one entry than for the other. */
  predicate WorthAtMost(weight: real, relevance: real, sim: real, relevance': real, sim': real) {
    weight * relevance - (1.0 - weight) * sim <= weight * relevance' - (1.0 - weight) * sim'
  }

  lemma WorthOfMarginals(tokens: string -> set<string>, weight: real, first: real, picked: seq<Scored>, c: Scored,
                         d: Scored, simC: real, simD: real)
    requires first != 0.0 && simC == Closest(tokens, c.id, picked) && simD == Closest(tokens, d.id, picked)
    requires Marginal(tokens, weight, first, picked, c) <= Marginal(tokens, weight, first, picked, d)
    ensures WorthAtMost(weight, c.score / first, simC, d.score / first, simD)
  {
    MixIsWorth(weight, Share(c.score, first), simC, Share(d.score, first), simD);
  }

  lemma MixIsWorth(weight: real, relevance: real, sim: real, relevance': real, sim': real)
    requires Mix(weight, relevance, sim) <= Mix(weight, relevance', sim')
    ensures WorthAtMost(weight, relevance, sim, relevance', sim')
  {
  }

  lemma LessTakenOff(weight: real, relevance: real, sim: real, sim': real)
    requires weight < 1.0 && WorthAtMost(weight, relevance, sim, relevance, sim')
    ensures sim' <= sim
  {
    TakenOff(weight * relevance, 1.0 - weight, sim, sim');
  }

  lemma TakenOff(worth: real, w: real, a: real, b: real)
    requires w > 0.0 && worth - w * a <= worth - w * b
    ensures b <= a
  {
    FactorKeeps(w, b, a);
    assert b * w == w * b && a * w == w * a;
  }

  /** Each pick is greedily optimal: no entry that was not picked before it has more of the weighted share of the first
      score, less the weighted greatest likeness to an entry picked before. */
  lemma EachPickIsBest(scored: seq<Scored>, tokens: string -> set<string>, limit: int, weight: real,
                       selected: seq<Scored>, m: nat, c: Scored, simC: real, simM: real)
    requires !AsIs(scored, weight) && Reranked(scored, tokens, limit, weight, selected) && m < |selected|
    requires c in multiset(scored) - multiset(selected[..m])
    requires NearestTo(tokens, c, selected[..m], simC) && NearestTo(tokens, selected[m], selected[..m], simM)
    ensures
      var first := if scored[0].score == 0.0 then 1.0 else scored[0].score;
      WorthAtMost(weight, c.score / first, simC, selected[m].score / first, simM)
  {
    NearestIsClosest(tokens, c, selected[..m], simC);
    NearestIsClosest(tokens, selected[m], selected[..m], simM);
    PickHasBestMarginal(scored, tokens, limit, weight, selected, m, c);
    WorthOfMarginals(tokens, weight, Top(scored), selected[..m], c, selected[m], simC, simM);
  }

  /** Of entries that score the same, one that is more like what was picked already is not picked before one that is
      less like it. */
  lemma VarietyWins(scored: seq<Scored>, tokens: string -> set<string>, limit: int, weight: real,
                    selected: seq<Scored>, m: nat, c: Scored, simC: real, simM: real)
    requires !AsIs(scored, weight) && Reranked(scored, tokens, limit, weight, selected) && m < |selected|
    requires c in multiset(scored) - multiset(selected[..m])
    requires NearestTo(tokens, c, selected[..m], simC) && NearestTo(tokens, selected[m], selected[..m], simM)
    ensures c.score == selected[m].score ==> simM <= simC
  {
    EachPickIsBest(scored, tokens, limit, weight, selected, m, c, simC, simM);
    if c.score == selected[m].score {
      LessTakenOff(weight, c.score / Top(scored), simC, simM);
    }
  }

  lemma PickHasBestMarginal(scored: seq<Scored>, tokens: string -> set<string>, limit: int, weight: real,
                            selected: seq<Scored>, m: nat, c: Scored)
    requires !AsIs(scored, weight) && Reranked(scored, tokens, limit, weight, selected) && m < |selected|
    requires c in multiset(scored) - multiset(selected[..m])
    ensures Marginal(tokens, weight, Top(scored), selected[..m], c)
         <= Marginal(tokens, weight, Top(scored), selected[..m], selected[m])
  {
    var top := Top(scored);
    var rest :| Picked(tokens, weight, top, scored, selected, rest);
    var upto := selected[..m + 1];
    var left := PickedPrefix(tokens, weight, top, scored, selected, rest, m + 1);
    assert upto[..m] == selected[..m] && upto[m] == selected[m];
    var before: seq<Scored>, k: nat :|
      Picks(tokens, weight, top, upto, before, k, left) && Picked(tokens, weight, top, scored, upto[..m], before);
    PickedIsPart(tokens, weight, top, scored, upto[..m], before);
    assert c in multiset(before);
    var i :| 0 <= i < |before| && before[i] == c;
    MarginalsAt(tokens, weight, top, upto[..m], before, i);
    MarginalsAt(tokens, weight, top, upto[..m], before, k);
  }

  lemma SamePick(tokens: string -> set<string>, weight: real, top: real, a: seq<Scored>, b: seq<Scored>,
                 before: seq<Scored>, k: nat, l: nat, restA: seq<Scored>, restB: seq<Scored>)
    requires top != 0.0 && a != [] && |a| == |b| && a[..|a| - 1] == b[..|b| - 1]
    requires Picks(tokens, weight, top, a, before, l, restA) && Picks(tokens, weight, top, b, before, k, restB)
    ensures a == b && restA == restB
  {
    var m := |a| - 1;
    OneFirstBest(Marginals(tokens, weight, top, b[..m], before), k, l);
    assert a == a[..m] + [a[m]] && b == b[..m] + [b[m]];
  }

  /** The picking is determined. */
  lemma {:induction false} PickingIsUnique(tokens: string -> set<string>, weight: real, top: real, scored: seq<Scored>,
                                           a: seq<Scored>, restA: seq<Scored>, b: seq<Scored>, restB: seq<Scored>)
    requires top != 0.0 && |a| == |b|
    requires Picked(tokens, weight, top, scored, a, restA) && Picked(tokens, weight, top, scored, b, restB)
    ensures a == b && restA == restB
    decreases |b|
  {
    if b != [] {
      var m := |b| - 1;
      var beforeB: seq<Scored>, k: nat :|
        Picks(tokens, weight, top, b, beforeB, k, restB) && Picked(tokens, weight, top, scored, b[..m], beforeB);
      var beforeA: seq<Scored>, l: nat :|
        Picks(tokens, weight, top, a, beforeA, l, restA) && Picked(tokens, weight, top, scored, a[..m], beforeA);
      PickingIsUnique(tokens, weight, top, scored, a[..m], beforeA, b[..m], beforeB);
      SamePick(tokens, weight, top, a, b, beforeA, k, l, restA, restB);
    }
  }

  /** The result for a smaller limit is a prefix of the result for a larger one, except where nothing is re-ranked and a
      negative limit cuts off less from the end than the larger limit leaves. */
  lemma SmallerLimitIsPrefix(scored: seq<Scored>, tokens: string -> set<string>, weight: real, limitA: int,
                             a: seq<Scored>,
                             limitB: int, b: seq<Scored>)
    requires limitA <= limitB
    requires Reranked(scored, tokens, limitA, weight, a) && Reranked(scored, tokens, limitB, weight, b)
    ensures a <= b <==> (AsIs(scored, weight) ==> SliceEnd(|scored|, limitA) <= SliceEnd(|scored|, limitB))
    ensures limitA >= 0 ==> a <= b
  {
    if !AsIs(scored, weight) {
      var top := Top(scored);
      var restA :| Picked(tokens, weight, top, scored, a, restA);
      var restB :| Picked(tokens, weight, top, scored, b, restB);
      var left := PickedPrefix(tokens, weight, top, scored, b, restB, |a|);
      PickingIsUnique(tokens, weight, top, scored, a, restA, b[..|a|], left);
    }
  }

  // ---- The first pick ----

  /** The first of those that score most. */
  predicate Topmost(scored: seq<Scored>, k: nat) {
    k < |scored| && (forall i :: 0 <= i < |scored| ==> scored[i].score <= scored[k].score)
    && forall i :: 0 <= i < k ==> scored[i].score < scored[k].score
  }

  /** The first of those that score least. */
  predicate Lowest(scored: seq<Scored>, k: nat) {
    k < |scored| && (forall i :: 0 <= i < |scored| ==> scored[i].score >= scored[k].score)
    && forall i :: 0 <= i < k ==> scored[i].score > scored[k].score
  }

  lemma Weighed(weight: real, top: real, score: real)
    requires top != 0.0
    ensures Mix(weight, Share(score, top), 0.0) == score * (weight / top)
  {
  }

  lemma FactorKeeps(f: real, a: real, b: real)
    requires f > 0.0
    ensures a * f <= b * f <==> a <= b
  {
  }

  lemma FactorTurns(f: real, a: real, b: real)
    requires f < 0.0
    ensures a * f <= b * f <==> a >= b
  {
  }

  function Products(scored: seq<Scored>, f: real): (ps: seq<real>)
    ensures |ps| == |scored| && forall i :: 0 <= i < |ps| ==> ps[i] == scored[i].score * f
  {
    seq(|scored|, i requires 0 <= i < |scored| => scored[i].score * f)
  }

  lemma FirstMarginals(tokens: string -> set<string>, weight: real, top: real, scored: seq<Scored>)
    requires top != 0.0
    ensures Marginals(tokens, weight, top, [], scored) == Products(scored, weight / top)
  {
    forall i | 0 <= i < |scored|
      ensures Marginals(tokens, weight, top, [], scored)[i] == Products(scored, weight / top)[i]
    {
      MarginalsAt(tokens, weight, top, [], scored, i);
      Weighed(weight, top, scored[i].score);
    }
  }

  /** The first pick has the first of the greatest products of score and `weight / Top(scored)`, whatever the weight. */
  lemma FirstPickWeighs(scored: seq<Scored>, tokens: string -> set<string>, limit: int, weight: real,
                        selected: seq<Scored>)
    returns (k: nat)
    requires !AsIs(scored, weight) && limit > 0 && Reranked(scored, tokens, limit, weight, selected)
    ensures k < |scored| && selected[0] == scored[k] && FirstBest(Products(scored, weight / Top(scored)), k)
  {
    var top := Top(scored);
    var rest :| Picked(tokens, weight, top, scored, selected, rest);
    var left := PickedPrefix(tokens, weight, top, scored, selected, rest, 1);
    var one := selected[..1];
    var before: seq<Scored>, l: nat :|
      Picks(tokens, weight, top, one, before, l, left) && Picked(tokens, weight, top, scored, one[..0], before);
    assert one[..0] == [] && before == scored;
    FirstMarginals(tokens, weight, top, scored);
    k := l;
  }

  lemma UnderPositive(scored: seq<Scored>, f: real, k: nat)
    requires f > 0.0 && FirstBest(Products(scored, f), k)
    ensures Topmost(scored, k)
  {
    var ps := Products(scored, f);
    forall i | 0 <= i < |scored|
      ensures scored[i].score <= scored[k].score && (i < k ==> scored[i].score < scored[k].score)
    {
      assert ps[i] <= ps[k];
      FactorKeeps(f, scored[i].score, scored[k].score);
      FactorKeeps(f, scored[k].score, scored[i].score);
    }
  }

  lemma UnderNegative(scored: seq<Scored>, f: real, k: nat)
    requires f < 0.0 && FirstBest(Products(scored, f), k)
    ensures Lowest(scored, k)
  {
    var ps := Products(scored, f);
    forall i | 0 <= i < |scored|
      ensures scored[i].score >= scored[k].score && (i < k ==> scored[i].score > scored[k].score)
    {
      assert ps[i] <= ps[k];
      FactorTurns(f, scored[i].score, scored[k].score);
      FactorTurns(f, scored[k].score, scored[i].score);
    }
  }

  lemma SignOfQuotient(a: real, b: real)
    requires a > 0.0 && b != 0.0
    ensures b > 0.0 <==> a / b > 0.0
    ensures b < 0.0 <==> a / b < 0.0
  {
  }

  /** What the first pick is, for every ranking, sorted or not: with a weight between zero and one, the first of those
      that score most if the first score is not negative, else the first of those that score least. */
  lemma FirstPick(scored: seq<Scored>, tokens: string -> set<string>, limit: int, weight: real, selected: seq<Scored>)
    returns (k: nat)
    requires 0.0 < weight < 1.0 && |scored| > 1 && limit > 0 && Reranked(scored, tokens, limit, weight, selected)
    ensures k < |scored| && selected[0] == scored[k]
    ensures if scored[0].score >= 0.0 then Topmost(scored, k) else Lowest(scored, k)
  {
    k := FirstPickWeighs(scored, tokens, limit, weight, selected);
    SignOfQuotient(weight, Top(scored));
    if scored[0].score >= 0.0 {
      UnderPositive(scored, weight / Top(scored), k);
    } else {
      UnderNegative(scored, weight / Top(scored), k);
    }
  }

  /** The first pick scores most exactly when the first score is not negative or all scores are equal. */
  lemma FirstPickIsTopIff(scored: seq<Scored>, tokens: string -> set<string>, limit: int, weight: real,
                          selected: seq<Scored>)
    requires 0.0 < weight < 1.0 && |scored| > 1 && limit > 0 && Reranked(scored, tokens, limit, weight, selected)
    ensures (forall i :: 0 <= i < |scored| ==> scored[i].score <= selected[0].score)
       <==> scored[0].score >= 0.0 || forall i :: 0 <= i < |scored| ==> scored[i].score == scored[0].score
  {
    var k := FirstPick(scored, tokens, limit, weight, selected);
    if scored[0].score < 0.0 && forall i :: 0 <= i < |scored| ==> scored[i].score <= selected[0].score {
      forall i | 0 <= i < |scored|
        ensures scored[i].score == scored[0].score
      {
        assert scored[i].score == scored[k].score == scored[0].score;
      }
    }
  }

  /** With negative scores the lower of two is picked first. */
  lemma NegativeScoresPickTheLowest(tokens: string -> set<string>, selected: seq<Scored>)
    requires Reranked([Scored("a", -1.0), Scored("b", -2.0)], tokens, 1, 0.7, selected)
    ensures selected == [Scored("b", -2.0)]
  {
    var scored := [Scored("a", -1.0), Scored("b", -2.0)];
    var k := FirstPick(scored, tokens, 1, 0.7, selected);
    assert scored[1].score >= scored[k].score;
  }

  // ---- The whole search ----

  lemma FadedIsPositive(scored: seq<Scored>, fading: string -> real, r: seq<Scored>)
    requires forall i :: 0 <= i < |scored| ==> scored[i].score > 0.0
    requires forall id :: fading(id) > 0.0
    requires forall y :: y in r <==> y in Faded(scored, fading)
    ensures forall i :: 0 <= i < |r| ==> r[i].score > 0.0
  {
    forall i | 0 <= i < |r|
      ensures r[i].score > 0.0
    {
      assert r[i] in r;
      var j :| 0 <= j < |scored| && Faded(scored, fading)[j] == r[i];
      assert fading(scored[j].id) > 0.0;
    }
  }

  /** On positive scores in order, the top entry stays on top. */
  lemma TopStaysOnTop(met: seq<string>, scored: seq<Scored>, tokens: string -> set<string>, limit: int, weight: real,
                      selected: seq<Scored>)
    requires 0.0 < weight && limit > 0 && scored != [] && InOrder(met, scored) && scored[0].score > 0.0
    requires Reranked(scored, tokens, limit, weight, selected)
    ensures selected != [] && selected[0] == scored[0]
  {
    if !AsIs(scored, weight) {
      assert forall j :: 0 < j < |scored| ==> Before(met, scored[0], scored[j]);
      var k := FirstPick(scored, tokens, limit, weight, selected);
    }
  }

  /** Merging two rankings, fading the scores, re-ranking: a non-empty result starts with the entry that fades to the
      greatest score, and of equals with the one the merge placed first. */
  method Search(fts: seq<string>, vec: seq<string>, fading: string -> real, tokens: string -> set<string>, limit: int)
    returns (selected: seq<Scored>, ghost merged: seq<Scored>, ghost faded: seq<Scored>)
    requires forall id :: fading(id) > 0.0
    ensures Merged(fts, vec, 60, merged)
    ensures InOrder(Ids(merged), faded) && forall y :: y in faded <==> y in Faded(merged, fading)
    ensures Reranked(faded, tokens, limit, 0.7, selected)
    ensures limit > 0 && fts + vec != [] ==>
      && selected != [] && selected[0] in Faded(merged, fading)
      && forall y :: y in Faded(merged, fading) ==> y == selected[0] || Before(Ids(merged), selected[0], y)
  {
    var fused := RrfMerge(fts, vec);
    merged := fused;
    MergedIsPositive(fts, vec, RRF_K, fused);
    var decayed := ApplyTemporalDecay(fused, fading);
    faded := decayed;
    FadedIsPositive(fused, fading, decayed);
    selected := Rerank(decayed, tokens, limit);
    if limit > 0 && fts + vec != [] {
      assert (fts + vec)[0] in Ids(fused);
      TopStaysOnTop(Ids(fused), faded, tokens, limit, 0.7, selected);
      assert faded[0] in faded;
    }
  }
}
