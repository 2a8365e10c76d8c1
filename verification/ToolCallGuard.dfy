/** The guard against repeating one batch of tool calls, and the agent loop it watches over. */
module ToolCallGuard {
  import opened WorkflowNode

  /** The length of the run of equal signatures that ends the sequence. */
  function TailRun<S(==)>(seen: seq<S>): (n: nat)
    ensures n <= |seen| && (n == 0 <==> seen == [])
  {
    if |seen| <= 1 then |seen|
    else if seen[|seen| - 1] == seen[|seen| - 2] then TailRun(seen[..|seen| - 1]) + 1
    else 1
  }

  /** The last `k` entries agree. */
  predicate TailAgrees<S(==)>(seen: seq<S>, k: nat) {
    k <= |seen| && forall i :: |seen| - k <= i < |seen| ==> seen[i] == seen[|seen| - 1]
  }

  lemma {:induction false} TailRunAgrees<S>(seen: seq<S>, k: nat)
    ensures TailAgrees(seen, k) <==> k <= TailRun(seen)
  {
    var n := |seen|;
    if n > 1 && k > 0 {
      TailRunAgrees(seen[..n - 1], k - 1);
      if TailAgrees(seen, k) && k > 1 {
        assert seen[n - 2] == seen[n - 1];
        assert forall i :: n - k <= i < n - 1 ==> seen[..n - 1][i] == seen[i];
      }
      if seen[n - 1] == seen[n - 2] && TailAgrees(seen[..n - 1], k - 1) {
        forall i | n - k <= i < n
          ensures seen[i] == seen[n - 1]
        {
          if i < n - 1 {
            assert seen[..n - 1][i] == seen[i];
          }
        }
      }
    }
  }

  lemma TailRunSnoc<S>(seen: seq<S>, s: S)
    ensures TailRun(seen + [s]) == if seen != [] && seen[|seen| - 1] == s then TailRun(seen) + 1 else 1
  {
    assert (seen + [s])[..|seen|] == seen;
  }

  /** Signatures stand for batches: equal signatures, equal batches. */
  class ConsecutiveToolCallGuard<S(==)> {
    const maxRepeatedRounds: nat
    var lastSignature: Option<S>
    var repeatedRounds: nat
    /** What was observed since the last reset. */
    ghost var seen: seq<S>

    ghost predicate Valid()
      reads this
    {
      if seen == [] then lastSignature == None && repeatedRounds == 0
      else lastSignature == Some(seen[|seen| - 1]) && repeatedRounds + 1 == TailRun(seen)
    }

    /** Zero means the default of two rounds. */
    constructor (maxRepeatedRounds: int)
      ensures Valid() && seen == []
      ensures this.maxRepeatedRounds ==
        if maxRepeatedRounds == 0 then 2 else if maxRepeatedRounds >= 1 then maxRepeatedRounds else 1
    {
      this.maxRepeatedRounds :=
        if maxRepeatedRounds == 0 then 2 else if maxRepeatedRounds >= 1 then maxRepeatedRounds else 1;
      lastSignature, repeatedRounds, seen := None, 0, [];
    }

    /** Blocks exactly when this and the `maxRepeatedRounds` observations before it all agree. */
    method Observe(signature: Option<S>) returns (blocked: bool)
      requires Valid()
      modifies this
      ensures Valid()
      ensures seen == if signature.None? then [] else old(seen) + [signature.value]
      ensures blocked == (signature.Some? && TailAgrees(seen, maxRepeatedRounds + 1))
    {
      if signature == None {
        Reset();
        return false;
      }
      TailRunSnoc(seen, signature.value);
      seen := seen + [signature.value];
      TailRunAgrees(seen, maxRepeatedRounds + 1);
      if signature == lastSignature {
        repeatedRounds := repeatedRounds + 1;
      } else {
        lastSignature := signature;
        repeatedRounds := 0;
      }
      return repeatedRounds >= maxRepeatedRounds;
    }

    method Reset()
      modifies this
      ensures Valid() && seen == []
    {
      lastSignature, repeatedRounds, seen := None, 0, [];
    }
  }
}
