/** Carrying output fields of one node into the memory of others, where what is carried stays shared. */
module FieldMappings {
  import opened WorkflowNode
  import opened FieldPaths
  import opened ObjectHeap

  datatype Mapping = Mapping(fromNode: string, fromField: Path, toNode: string, toField: Path)

  /** The memory object, and the node whose output is carried. */
  datatype Job<Id> = Job(memory: Id, from: string, output: Value<Id>)

  function Target(m: Mapping): Path {
    [m.toNode] + m.toField
  }

  /** Where the memory holds what the mapping carries: the output is the memory of its own node. */
  function Source(m: Mapping): Path {
    [m.fromNode] + m.fromField
  }

  /** The value a mapping carries, if it is for this node and the output has the field. */
  ghost function Carried<Id>(h: Heap<Id>, job: Job<Id>, m: Mapping): Option<Value<Id>> {
    if m.fromNode != job.from then None else At(h, job.output, m.fromField)
  }

  /** The target's object is there. */
  ghost predicate Present<Id>(h: Heap<Id>, memory: Id, toNode: string) {
    memory in h && toNode in h[memory] && h[memory][toNode].Ref? && h[memory][toNode].id in h
  }

  /** One carried value is put in its place: in the target's object or a new one, or as the target's memory itself. */
  ghost function Carry<Id>(h: Heap<Id>, memory: Id, m: Mapping, v: Value<Id>, made: seq<Id>): (r: Heap<Id>)
    requires memory in h
    ensures forall y :: y in h ==> y in r
  {
    if m.toField == [] then h[memory := h[memory][m.toNode := v]]
    else if Present(h, memory, m.toNode) then
      var h1 := Write(h, h[memory][m.toNode].id, m.toField, v, made);
      h1[memory := h1[memory][m.toNode := h[memory][m.toNode]]]
    else if made == [] then h
    else
      var h1 := Write(h[made[0] := map[]], made[0], m.toField, v, made[1..]);
      h1[memory := h1[memory][m.toNode := Ref(made[0])]]
  }

  ghost predicate EnoughFor<Id>(h: Heap<Id>, memory: Id, m: Mapping, made: seq<Id>)
    requires memory in h
  {
    if m.toField == [] then made == []
    else if Present(h, memory, m.toNode) then Enough(h, h[memory][m.toNode].id, m.toField, made)
    else made != [] && made[0] !in h && Enough(h[made[0] := map[]], made[0], m.toField, made[1..])
  }

  /** The first `n` mappings, in order; `made[i]` are the new objects of the i-th. */
  ghost function Applied<Id>(h: Heap<Id>, job: Job<Id>, mappings: seq<Mapping>, made: seq<seq<Id>>,
                             n: nat): (r: Heap<Id>)
    requires job.memory in h && n <= |mappings| && n <= |made|
    ensures job.memory in r
  {
    if n == 0 then h
    else
      var before := Applied(h, job, mappings, made, n - 1);
      match Carried(before, job, mappings[n - 1])
      case None => before
      case Some(v) => Carry(before, job.memory, mappings[n - 1], v, made[n - 1])
  }

  /** What the i-th mapping carries when its turn has come. */
  ghost function CarriedAt<Id>(h: Heap<Id>, job: Job<Id>, mappings: seq<Mapping>, made: seq<seq<Id>>,
                               i: nat): Option<Value<Id>>
    requires job.memory in h && i < |mappings| && i <= |made|
  {
    Carried(Applied(h, job, mappings, made, i), job, mappings[i])
  }

  ghost predicate AllEnough<Id>(h: Heap<Id>, job: Job<Id>, mappings: seq<Mapping>, made: seq<seq<Id>>)
    requires job.memory in h && |made| <= |mappings|
  {
    forall i :: 0 <= i < |made| ==> EnoughAt(h, job, mappings, made, i)
  }

  ghost predicate EnoughAt<Id>(h: Heap<Id>, job: Job<Id>, mappings: seq<Mapping>, made: seq<seq<Id>>, i: nat)
    requires job.memory in h && i < |mappings| && i < |made|
  {
    CarriedAt(h, job, mappings, made, i).Some? ==>
      EnoughFor(Applied(h, job, mappings, made, i), job.memory, mappings[i], made[i])
  }

  // ---- One mapping is one write in the memory as a whole ----

  lemma CarryIsWrite<Id>(h: Heap<Id>, memory: Id, m: Mapping, v: Value<Id>, made: seq<Id>)
    requires memory in h && Closed(h) && EnoughFor(h, memory, m, made)
    requires forall q :: At(h, Ref(memory), q) == Some(Ref(memory)) ==> q == []
    ensures Enough(h, memory, Target(m), made)
    ensures Carry(h, memory, m, v, made) == Write(h, memory, Target(m), v, made)
  {
    assert Target(m)[1..] == m.toField;
    if m.toField != [] {
      if Present(h, memory, m.toNode) {
        PresentIsKept(h, memory, m, v, made);
      } else {
        var o := made[0];
        var fields := h[memory][m.toNode := Ref(o)];
        assert h[o := map[]][memory := fields] == h[memory := fields][o := map[]];
        ChainFrame(h[o := map[]], o, m.toField, v, made[1..], memory, fields);
        ChainAt(h[o := map[]], o, m.toField, v, made[1..], []);
      }
    }
  }

  lemma PresentIsKept<Id>(h: Heap<Id>, memory: Id, m: Mapping, v: Value<Id>, made: seq<Id>)
    requires memory in h && Closed(h) && m.toField != [] && Present(h, memory, m.toNode)
    requires Enough(h, h[memory][m.toNode].id, m.toField, made)
    requires forall q :: At(h, Ref(memory), q) == Some(Ref(memory)) ==> q == []
    ensures Carry(h, memory, m, v, made) == Write(h, h[memory][m.toNode].id, m.toField, v, made)
  {
    var o := h[memory][m.toNode].id;
    var n, x := Depth(h, o, m.toField), Holder(h, o, m.toField);
    Wrote(h, o, m.toField, v, made, []);
    ReadField(h, memory, m.toNode, m.toField[..n]);
    assert x != memory;
    var h1 := Write(h, o, m.toField, v, made);
    assert h1[memory][m.toNode] == h[memory][m.toNode];
    assert h1[memory][m.toNode := h[memory][m.toNode]] == h1[memory];
  }

  // ---- Where objects are held in more than one place ----

  ghost predicate Under(places: set<Path>, q: Path) {
    exists c :: c in places && c <= q
  }

  ghost predicate Reads<Id>(read: Option<Value<Id>>) {
    read.Some? && read.value.Ref?
  }

  /** Two values lead to one object, by these paths. */
  ghost predicate Meet<Id>(h: Heap<Id>, v: Value<Id>, f: Path, w: Value<Id>, q: Path) {
    Reads(At(h, v, f)) && At(h, v, f) == At(h, w, q)
  }

  /** An object that the memory holds in two places is held under one of `places`. */
  ghost predicate SharedUnder<Id>(h: Heap<Id>, memory: Id, places: set<Path>) {
    forall q, q' :: Meet(h, Ref(memory), q, Ref(memory), q') && q != q' ==> Under(places, q)
  }

  /** So is one that the output and the memory hold, unless it is where the output's node keeps its output. */
  ghost predicate OutputUnder<Id>(h: Heap<Id>, job: Job<Id>, places: set<Path>) {
    forall f, q :: Meet(h, job.output, f, Ref(job.memory), q) ==> q == [job.from] + f || Under(places, q)
  }

  ghost predicate Tracked<Id>(h: Heap<Id>, job: Job<Id>, places: set<Path>) {
    && Closed(h) && job.memory in h && Held(h, job.output)
    && SharedUnder(h, job.memory, places) && OutputUnder(h, job, places)
  }

  /** Before the first mapping the output is the memory of its own node: only what the memory shares counts. */
  lemma StartTracked<Id>(h: Heap<Id>, job: Job<Id>, places: set<Path>)
    requires Closed(h) && job.memory in h && At(h, Ref(job.memory), [job.from]) == Some(job.output)
    requires SharedUnder(h, job.memory, places)
    ensures Tracked(h, job, places)
  {
    HeldAt(h, Ref(job.memory), [job.from]);
    forall f, q | Meet(h, job.output, f, Ref(job.memory), q)
      ensures q == [job.from] + f || Under(places, q)
    {
      AtThrough(h, Ref(job.memory), [job.from], f);
      assert Meet(h, Ref(job.memory), q, Ref(job.memory), [job.from] + f);
    }
  }

  /** The target does not lie strictly below a place. */
  ghost predicate Clear(places: set<Path>, m: Mapping) {
    forall c :: c in places ==> !(c < Target(m))
  }

  /** The write does not go through an object that is held elsewhere, nor through the one it carries. */
  ghost predicate Passable<Id>(places: set<Path>, m: Mapping, v: Value<Id>) {
    Clear(places, m) && (v.Ref? ==> !(Source(m) < Target(m)))
  }

  function NewPlaces<Id>(m: Mapping, v: Value<Id>): set<Path> {
    if v.Ref? then {Target(m), Source(m)} else {}
  }

  /** Nothing on the way to the target is under a place. */
  lemma ClearOnTheWay(places: set<Path>, m: Mapping, n: nat)
    requires Clear(places, m) && n < |Target(m)|
    ensures !Under(places, Target(m)[..n])
  {
    forall c | c in places
      ensures !(c <= Target(m)[..n])
    {
      assert !(c < Target(m));
    }
  }

  lemma MemoryIsRoot<Id>(h: Heap<Id>, job: Job<Id>, m: Mapping, v: Value<Id>, places: set<Path>, q: Path)
    requires Tracked(h, job, places) && Passable(places, m, v) && At(h, Ref(job.memory), q) == Some(Ref(job.memory))
    ensures q == []
  {
    assert Meet(h, Ref(job.memory), [], Ref(job.memory), q);
    ClearOnTheWay(places, m, 0);
    assert Target(m)[..0] == [];
  }

  lemma SourceOnTheWay<Id>(h: Heap<Id>, job: Job<Id>, m: Mapping, v: Value<Id>, places: set<Path>, r: Path)
    requires Tracked(h, job, places) && Clear(places, m) && Carried(h, job, m) == Some(v)
    requires At(h, v, r) == Some(Ref(Holder(h, job.memory, Target(m))))
    ensures Source(m) <= Target(m)[..Depth(h, job.memory, Target(m))]
  {
    AtThrough(h, job.output, m.fromField, r);
    HolderIsSource(h, job, m, v, places, m.fromField + r);
    assert [job.from] + (m.fromField + r) == Source(m) + r;
  }

  lemma PassableIsAlone<Id>(h: Heap<Id>, job: Job<Id>, m: Mapping, v: Value<Id>, places: set<Path>)
    requires Tracked(h, job, places) && Passable(places, m, v) && Carried(h, job, m) == Some(v)
    ensures Alone(h, job.memory, Target(m)) && Unreached(h, job.memory, Target(m), v)
  {
    var p := Target(m);
    var n, x := Depth(h, job.memory, p), Holder(h, job.memory, p);
    HolderAt(h, job.memory, p, v, []);
    ClearOnTheWay(places, m, n);
    forall q | At(h, Ref(job.memory), q) == Some(Ref(x))
      ensures q == p[..n]
    {
      assert Meet(h, Ref(job.memory), p[..n], Ref(job.memory), q);
    }
    forall r
      ensures At(h, v, r) != Some(Ref(x))
    {
      HeldAt(h, job.output, m.fromField);
      if At(h, v, r) == Some(Ref(x)) {
        SourceOnTheWay(h, job, m, v, places, r);
      }
    }
  }

  lemma HolderIsSource<Id>(h: Heap<Id>, job: Job<Id>, m: Mapping, v: Value<Id>, places: set<Path>, g: Path)
    requires Tracked(h, job, places) && Clear(places, m)
    requires At(h, job.output, g) == Some(Ref(Holder(h, job.memory, Target(m))))
    ensures Target(m)[..Depth(h, job.memory, Target(m))] == [job.from] + g
  {
    HolderAt(h, job.memory, Target(m), v, []);
    assert Meet(h, job.output, g, Ref(job.memory), Target(m)[..Depth(h, job.memory, Target(m))]);
    ClearOnTheWay(places, m, Depth(h, job.memory, Target(m)));
  }

  // ---- What a mapping makes of the sharing ----

  /** A read after a write: below the target, of a new object, or as before. */
  lemma ReadAfter<Id>(h: Heap<Id>, memory: Id, p: Path, v: Value<Id>, made: seq<Id>, q: Path)
    requires memory in h && p != [] && Closed(h) && Enough(h, memory, p, made) && Held(h, v)
    requires Alone(h, memory, p) && Unreached(h, memory, p, v)
    ensures
      var h' := Write(h, memory, p, v, made);
      || (p <= q && At(h', Ref(memory), q) == At(h, v, q[|p|..]))
      || (q < p && |q| > Depth(h, memory, p) && NewAt(h, h', Ref(memory), q))
      || (!(p <= q) && At(h', Ref(memory), q) == At(h, Ref(memory), q))
  {
    if p <= q {
      assert q == p + q[|p|..];
      WrittenReads(h, memory, p, v, made, q[|p|..]);
    } else if q < p {
      AboveReads(h, memory, p, v, made, q);
    } else {
      ApartReadsAsBefore(h, memory, p, v, made, q);
    }
  }

  lemma SharedAfter<Id>(h: Heap<Id>, job: Job<Id>, m: Mapping, v: Value<Id>, made: seq<Id>, places: set<Path>,
                        q: Path, q': Path)
    requires Tracked(h, job, places) && Passable(places, m, v) && Carried(h, job, m) == Some(v)
    requires Enough(h, job.memory, Target(m), made) && q != q'
    requires Meet(Write(h, job.memory, Target(m), v, made), Ref(job.memory), q, Ref(job.memory), q')
    ensures Under(places + NewPlaces(m, v), q)
  {
    var p := Target(m);
    PassableIsAlone(h, job, m, v, places);
    HeldAt(h, job.output, m.fromField);
    ReadAfter(h, job.memory, p, v, made, q);
    ReadAfter(h, job.memory, p, v, made, q');
    if p <= q {
      assert v.Ref?;
      assert p in places + NewPlaces(m, v);
    } else if q < p && |q| > Depth(h, job.memory, p) {
      NewIsNotOld(h, job, p, v, made, q, q');
    } else if p <= q' {
      var r := q'[|p|..];
      AtThrough(h, job.output, m.fromField, r);
      assert Meet(h, job.output, m.fromField + r, Ref(job.memory), q);
      if q == [job.from] + (m.fromField + r) {
        assert v.Ref? && Source(m) <= q && Source(m) in places + NewPlaces(m, v);
      } else {
        UnderMore(places, NewPlaces(m, v), q);
      }
    } else {
      HeldAt(h, Ref(job.memory), q);
      assert Meet(h, Ref(job.memory), q, Ref(job.memory), q');
      UnderMore(places, NewPlaces(m, v), q);
    }
  }

  lemma UnderMore(places: set<Path>, more: set<Path>, q: Path)
    requires Under(places, q)
    ensures Under(places + more, q)
  {
    var c :| c in places && c <= q;
    assert c in places + more;
  }

  /** A new object is held in one place only. */
  lemma NewIsNotOld<Id>(h: Heap<Id>, job: Job<Id>, p: Path, v: Value<Id>, made: seq<Id>, q: Path, q': Path)
    requires job.memory in h && p != [] && Closed(h) && Enough(h, job.memory, p, made) && Held(h, v)
    requires Alone(h, job.memory, p) && Unreached(h, job.memory, p, v)
    requires q < p && |q| > Depth(h, job.memory, p) && q != q'
    ensures
      var h' := Write(h, job.memory, p, v, made);
      At(h', Ref(job.memory), q) != At(h', Ref(job.memory), q')
  {
    AboveReads(h, job.memory, p, v, made, q);
    ReadAfter(h, job.memory, p, v, made, q');
    if p <= q' {
      HeldAt(h, v, q'[|p|..]);
    } else if q' < p && |q'| > Depth(h, job.memory, p) {
      if |q| < |q'| {
        NewDiffer(h, job.memory, p, v, made, q, q');
      } else {
        NewDiffer(h, job.memory, p, v, made, q', q);
      }
    } else {
      HeldAt(h, Ref(job.memory), q');
    }
  }

  /** The output reads as before, or what the memory of its node reads. */
  lemma OutputReads<Id>(h: Heap<Id>, job: Job<Id>, m: Mapping, v: Value<Id>, made: seq<Id>, places: set<Path>, f: Path)
    requires Tracked(h, job, places) && Passable(places, m, v) && Carried(h, job, m) == Some(v)
    requires Enough(h, job.memory, Target(m), made)
    ensures
      var h' := Write(h, job.memory, Target(m), v, made);
      || At(h', job.output, f) == At(h, job.output, f)
      || At(h', job.output, f) == At(h', Ref(job.memory), [job.from] + f)
  {
    var p, h' := Target(m), Write(h, job.memory, Target(m), v, made);
    var n, x := Depth(h, job.memory, p), Holder(h, job.memory, p);
    PassableIsAlone(h, job, m, v, places);
    Wrote(h, job.memory, p, v, made, []);
    if Passes(h, job.output, f, x, p[n]) {
      var k := FirstPass(h, job.output, f, x, p[n]);
      HolderIsSource(h, job, m, v, places, f[..k]);
      assert f == f[..k] + f[k..] && [job.from] + f == p[..n] + f[k..];
      SameAt(h, h', x, p[n], job.output, f[..k]);
      NotBefore(h, Ref(job.memory), p, n, x, p[..n]);
      SameAt(h, h', x, p[n], Ref(job.memory), p[..n]);
      AtThrough(h', job.output, f[..k], f[k..]);
      AtThrough(h', Ref(job.memory), p[..n], f[k..]);
    } else {
      SameAt(h, h', x, p[n], job.output, f);
    }
  }

  lemma StepTracked<Id>(h: Heap<Id>, job: Job<Id>, m: Mapping, v: Value<Id>, made: seq<Id>, places: set<Path>)
    requires Tracked(h, job, places) && Passable(places, m, v) && Carried(h, job, m) == Some(v)
    requires Enough(h, job.memory, Target(m), made)
    ensures Tracked(Write(h, job.memory, Target(m), v, made), job, places + NewPlaces(m, v))
  {
    var p, h' := Target(m), Write(h, job.memory, Target(m), v, made);
    HeldAt(h, job.output, m.fromField);
    WriteClosed(h, job.memory, p, v, made);
    forall q, q' | Meet(h', Ref(job.memory), q, Ref(job.memory), q') && q != q'
      ensures Under(places + NewPlaces(m, v), q)
    {
      SharedAfter(h, job, m, v, made, places, q, q');
    }
    forall f, q | Meet(h', job.output, f, Ref(job.memory), q)
      ensures q == [job.from] + f || Under(places + NewPlaces(m, v), q)
    {
      OutputAfter(h, job, m, v, made, places, f, q);
    }
  }

  lemma OutputAfter<Id>(h: Heap<Id>, job: Job<Id>, m: Mapping, v: Value<Id>, made: seq<Id>, places: set<Path>,
                        f: Path, q: Path)
    requires Tracked(h, job, places) && Passable(places, m, v) && Carried(h, job, m) == Some(v)
    requires Enough(h, job.memory, Target(m), made)
    requires Meet(Write(h, job.memory, Target(m), v, made), job.output, f, Ref(job.memory), q)
    ensures q == [job.from] + f || Under(places + NewPlaces(m, v), q)
  {
    var p, h' := Target(m), Write(h, job.memory, Target(m), v, made);
    PassableIsAlone(h, job, m, v, places);
    HeldAt(h, job.output, m.fromField);
    OutputReads(h, job, m, v, made, places, f);
    ReadAfter(h, job.memory, p, v, made, q);
    if p <= q {
      assert v.Ref? && p in places + NewPlaces(m, v);
    } else if At(h', job.output, f) == At(h', Ref(job.memory), [job.from] + f) {
      if q != [job.from] + f {
        assert Meet(h', Ref(job.memory), q, Ref(job.memory), [job.from] + f);
        SharedAfter(h, job, m, v, made, places, q, [job.from] + f);
      }
    } else {
      HeldAt(h, job.output, f);
      assert Meet(h, job.output, f, Ref(job.memory), q);
      if q != [job.from] + f {
        UnderMore(places, NewPlaces(m, v), q);
      }
    }
  }

  // ---- The laws ----

  /** The i-th mapping carries an object. */
  ghost predicate CarriesObject<Id>(h: Heap<Id>, job: Job<Id>, mappings: seq<Mapping>, made: seq<seq<Id>>, i: nat)
    requires job.memory in h && i < |mappings| && i <= |made|
  {
    Reads(CarriedAt(h, job, mappings, made, i))
  }

  /** If the i-th mapping carries an object, the target of the j-th does not lie strictly below the object's source, nor
      below its target, where it has come to be by then. */
  ghost predicate Spares<Id>(h: Heap<Id>, job: Job<Id>, mappings: seq<Mapping>, made: seq<seq<Id>>, i: nat, j: nat)
    requires job.memory in h && i <= j < |mappings| && i <= |made|
  {
    CarriesObject(h, job, mappings, made, i) ==>
      !(Source(mappings[i]) < Target(mappings[j])) && (i < j ==> !(Target(mappings[i]) < Target(mappings[j])))
  }

  ghost predicate WritesAlone<Id>(h: Heap<Id>, job: Job<Id>, mappings: seq<Mapping>, made: seq<seq<Id>>,
                                  shared: set<Path>, j: nat)
    requires job.memory in h && j < |mappings| && j <= |made|
  {
    CarriedAt(h, job, mappings, made, j).Some? ==>
      Clear(shared, mappings[j]) && forall i :: 0 <= i <= j ==> Spares(h, job, mappings, made, i, j)
  }

  /** No target that is written passes strictly through an object that the memory holds in more than one place:
      one that was shared before, or one that an earlier mapping carried, at its target or at its source. Nor does it
      pass through the object that it carries itself. */
  ghost predicate NoWriteThrough<Id>(h: Heap<Id>, job: Job<Id>, mappings: seq<Mapping>, made: seq<seq<Id>>,
                                     shared: set<Path>)
    requires job.memory in h && |made| == |mappings|
  {
    forall j :: 0 <= j < |mappings| ==> WritesAlone(h, job, mappings, made, shared, j)
  }

  /** A workflow's mappings are fit for use. */
  ghost predicate Sound<Id>(h: Heap<Id>, job: Job<Id>, mappings: seq<Mapping>, made: seq<seq<Id>>, shared: set<Path>) {
    && job.memory in h && |made| == |mappings| && Tracked(h, job, shared)
    && AllEnough(h, job, mappings, made) && NoWriteThrough(h, job, mappings, made, shared)
  }

  /** Where objects are held more than once after the first `n` mappings. */
  ghost function Places<Id>(h: Heap<Id>, job: Job<Id>, mappings: seq<Mapping>, made: seq<seq<Id>>, shared: set<Path>,
                            n: nat): set<Path>
    requires job.memory in h && n <= |mappings| && n <= |made|
  {
    if n == 0 then shared
    else
      var before := Places(h, job, mappings, made, shared, n - 1);
      match CarriedAt(h, job, mappings, made, n - 1)
      case None => before
      case Some(v) => before + NewPlaces(mappings[n - 1], v)
  }

  ghost predicate PlaceOf<Id>(h: Heap<Id>, job: Job<Id>, mappings: seq<Mapping>, made: seq<seq<Id>>, i: nat, c: Path)
    requires job.memory in h && i < |mappings| && i <= |made|
  {
    CarriesObject(h, job, mappings, made, i) && (c == Target(mappings[i]) || c == Source(mappings[i]))
  }

  lemma {:induction false} PlacesAre<Id>(h: Heap<Id>, job: Job<Id>, mappings: seq<Mapping>, made: seq<seq<Id>>,
                                         shared: set<Path>, n: nat, c: Path)
    requires job.memory in h && n <= |mappings| && n <= |made| && c in Places(h, job, mappings, made, shared, n)
    ensures c in shared || exists i :: 0 <= i < n && PlaceOf(h, job, mappings, made, i, c)
  {
    if n > 0 {
      if c in Places(h, job, mappings, made, shared, n - 1) {
        PlacesAre(h, job, mappings, made, shared, n - 1, c);
      } else {
        assert PlaceOf(h, job, mappings, made, n - 1, c);
      }
    }
  }

  lemma PassableAt<Id>(h: Heap<Id>, job: Job<Id>, mappings: seq<Mapping>, made: seq<seq<Id>>, shared: set<Path>, n: nat)
    requires job.memory in h && n < |mappings| && n <= |made|
    requires WritesAlone(h, job, mappings, made, shared, n) && CarriedAt(h, job, mappings, made, n).Some?
    ensures Passable(Places(h, job, mappings, made, shared, n), mappings[n], CarriedAt(h, job, mappings, made, n).value)
  {
    forall c | c in Places(h, job, mappings, made, shared, n)
      ensures !(c < Target(mappings[n]))
    {
      PlacesAre(h, job, mappings, made, shared, n, c);
      if c !in shared {
        var i :| 0 <= i < n && PlaceOf(h, job, mappings, made, i, c);
        assert Spares(h, job, mappings, made, i, n);
      }
    }
    assert Spares(h, job, mappings, made, n, n);
  }

  /** A carried value is written once, to an object held nowhere else. */
  lemma NextIsWrite<Id>(h: Heap<Id>, job: Job<Id>, m: Mapping, v: Value<Id>, made: seq<Id>, places: set<Path>)
    requires Tracked(h, job, places) && Passable(places, m, v) && EnoughFor(h, job.memory, m, made)
    ensures Enough(h, job.memory, Target(m), made)
    ensures Carry(h, job.memory, m, v, made) == Write(h, job.memory, Target(m), v, made)
  {
    forall q | At(h, Ref(job.memory), q) == Some(Ref(job.memory))
      ensures q == []
    {
      MemoryIsRoot(h, job, m, v, places, q);
    }
    CarryIsWrite(h, job.memory, m, v, made);
  }

  /** What is known before the n-th mapping, if it carries something. */
  ghost predicate ReadyFor<Id>(h: Heap<Id>, job: Job<Id>, m: Mapping, v: Value<Id>, made: seq<Id>, places: set<Path>) {
    && Tracked(h, job, places) && Passable(places, m, v) && Carried(h, job, m) == Some(v)
    && Enough(h, job.memory, Target(m), made)
    && Carry(h, job.memory, m, v, made) == Write(h, job.memory, Target(m), v, made)
  }

  lemma ReadyAt<Id>(h: Heap<Id>, job: Job<Id>, mappings: seq<Mapping>, made: seq<seq<Id>>, shared: set<Path>, n: nat)
    requires Sound(h, job, mappings, made, shared) && n < |mappings| && CarriedAt(h, job, mappings, made, n).Some?
    requires Tracked(Applied(h, job, mappings, made, n), job, Places(h, job, mappings, made, shared, n))
    ensures ReadyFor(Applied(h, job, mappings, made, n), job, mappings[n], CarriedAt(h, job, mappings, made, n).value,
                     made[n], Places(h, job, mappings, made, shared, n))
  {
    assert WritesAlone(h, job, mappings, made, shared, n) && EnoughAt(h, job, mappings, made, n);
    PassableAt(h, job, mappings, made, shared, n);
    NextIsWrite(Applied(h, job, mappings, made, n), job, mappings[n], CarriedAt(h, job, mappings, made, n).value,
                made[n], Places(h, job, mappings, made, shared, n));
  }

  lemma CarryTracked<Id>(h: Heap<Id>, job: Job<Id>, m: Mapping, v: Value<Id>, made: seq<Id>, places: set<Path>)
    requires ReadyFor(h, job, m, v, made, places)
    ensures Tracked(Carry(h, job.memory, m, v, made), job, places + NewPlaces(m, v))
  {
    StepTracked(h, job, m, v, made, places);
  }

  lemma CarryKeepsApart<Id>(h: Heap<Id>, job: Job<Id>, m: Mapping, v: Value<Id>, made: seq<Id>, places: set<Path>,
                            q: Path)
    requires ReadyFor(h, job, m, v, made, places) && Apart(Target(m), q)
    ensures At(Carry(h, job.memory, m, v, made), Ref(job.memory), q) == At(h, Ref(job.memory), q)
  {
    PassableIsAlone(h, job, m, v, places);
    ApartReadsAsBefore(h, job.memory, Target(m), v, made, q);
  }

  lemma CarryReadsItsValue<Id>(h: Heap<Id>, job: Job<Id>, m: Mapping, v: Value<Id>, made: seq<Id>, places: set<Path>,
                               r: Path)
    requires ReadyFor(h, job, m, v, made, places)
    ensures At(Carry(h, job.memory, m, v, made), Ref(job.memory), Target(m) + r) == At(h, v, r)
  {
    PassableIsAlone(h, job, m, v, places);
    HeldAt(h, job.output, m.fromField);
    WrittenReads(h, job.memory, Target(m), v, made, r);
  }

  lemma {:induction false} AllTracked<Id>(h: Heap<Id>, job: Job<Id>, mappings: seq<Mapping>, made: seq<seq<Id>>,
                                          shared: set<Path>, n: nat)
    requires Sound(h, job, mappings, made, shared) && n <= |mappings|
    ensures Tracked(Applied(h, job, mappings, made, n), job, Places(h, job, mappings, made, shared, n))
  {
    if n > 0 {
      AllTracked(h, job, mappings, made, shared, n - 1);
      NextTracked(h, job, mappings, made, shared, n - 1);
    }
  }

  lemma NextTracked<Id>(h: Heap<Id>, job: Job<Id>, mappings: seq<Mapping>, made: seq<seq<Id>>, shared: set<Path>,
                        n: nat)
    requires Sound(h, job, mappings, made, shared) && n < |mappings|
    requires Tracked(Applied(h, job, mappings, made, n), job, Places(h, job, mappings, made, shared, n))
    ensures Tracked(Applied(h, job, mappings, made, n + 1), job, Places(h, job, mappings, made, shared, n + 1))
  {
    if CarriedAt(h, job, mappings, made, n).Some? {
      ReadyAt(h, job, mappings, made, shared, n);
      CarryTracked(Applied(h, job, mappings, made, n), job, mappings[n], CarriedAt(h, job, mappings, made, n).value,
                   made[n], Places(h, job, mappings, made, shared, n));
    }
  }

  /** One more mapping leaves a path apart from its target as it was. */
  lemma NextKeepsApart<Id>(h: Heap<Id>, job: Job<Id>, mappings: seq<Mapping>, made: seq<seq<Id>>, shared: set<Path>,
                           n: nat, q: Path)
    requires Sound(h, job, mappings, made, shared) && n < |mappings|
    requires CarriedAt(h, job, mappings, made, n).Some? ==> Apart(Target(mappings[n]), q)
    ensures At(Applied(h, job, mappings, made, n + 1), Ref(job.memory), q)
         == At(Applied(h, job, mappings, made, n), Ref(job.memory), q)
  {
    if CarriedAt(h, job, mappings, made, n).Some? {
      AllTracked(h, job, mappings, made, shared, n);
      ReadyAt(h, job, mappings, made, shared, n);
      CarryKeepsApart(Applied(h, job, mappings, made, n), job, mappings[n], CarriedAt(h, job, mappings, made, n).value,
                      made[n], Places(h, job, mappings, made, shared, n), q);
    }
  }

  /** One more mapping puts what it carries at its target. */
  lemma NextReadsItsValue<Id>(h: Heap<Id>, job: Job<Id>, mappings: seq<Mapping>, made: seq<seq<Id>>, shared: set<Path>,
                              n: nat, r: Path)
    requires Sound(h, job, mappings, made, shared) && n < |mappings| && CarriedAt(h, job, mappings, made, n).Some?
    ensures At(Applied(h, job, mappings, made, n + 1), Ref(job.memory), Target(mappings[n]) + r)
         == At(Applied(h, job, mappings, made, n), CarriedAt(h, job, mappings, made, n).value, r)
  {
    AllTracked(h, job, mappings, made, shared, n);
    ReadyAt(h, job, mappings, made, shared, n);
    CarryReadsItsValue(Applied(h, job, mappings, made, n), job, mappings[n], CarriedAt(h, job, mappings, made, n).value,
                       made[n], Places(h, job, mappings, made, shared, n), r);
  }

  /** If the i-th mapping carries something, its target is apart from this path. */
  ghost predicate ApartAt<Id>(h: Heap<Id>, job: Job<Id>, mappings: seq<Mapping>, made: seq<seq<Id>>, i: nat, q: Path)
    requires job.memory in h && i < |mappings| && i <= |made|
  {
    CarriedAt(h, job, mappings, made, i).Some? ==> Apart(Target(mappings[i]), q)
  }

  lemma {:induction false} ApartKeptBetween<Id>(h: Heap<Id>, job: Job<Id>, mappings: seq<Mapping>, made: seq<seq<Id>>,
                                                shared: set<Path>, lo: nat, hi: nat, q: Path)
    requires Sound(h, job, mappings, made, shared) && lo <= hi <= |mappings|
    requires forall i :: lo <= i < hi ==> ApartAt(h, job, mappings, made, i, q)
    ensures At(Applied(h, job, mappings, made, hi), Ref(job.memory), q)
         == At(Applied(h, job, mappings, made, lo), Ref(job.memory), q)
    decreases hi - lo
  {
    if lo < hi {
      ApartKeptBetween(h, job, mappings, made, shared, lo, hi - 1, q);
      assert ApartAt(h, job, mappings, made, hi - 1, q);
      NextKeepsApart(h, job, mappings, made, shared, hi - 1, q);
    }
  }

  /** With no write through a shared object, a path apart from every target that is written reads the very value it read
      before, and so does every path below it. */
  lemma OtherPathsKept<Id>(h: Heap<Id>, job: Job<Id>, mappings: seq<Mapping>, made: seq<seq<Id>>, shared: set<Path>,
                           q: Path)
    requires Sound(h, job, mappings, made, shared)
    requires forall i :: 0 <= i < |mappings| ==> ApartAt(h, job, mappings, made, i, q)
    ensures At(Applied(h, job, mappings, made, |mappings|), Ref(job.memory), q) == At(h, Ref(job.memory), q)
  {
    ApartKeptBetween(h, job, mappings, made, shared, 0, |mappings|, q);
  }

  lemma ApartBelow(p: Path, q: Path, r: Path)
    ensures Apart(p, q) ==> Apart(p, q + r)
  {
    if p <= q + r && |p| <= |q| {
      assert p <= q;
    }
  }

  /** With no write through a shared object, a target reads what its mapping carried, field by field as it was then,
      unless a later mapping writes on the same line of fields. */
  lemma LastWriterWins<Id>(h: Heap<Id>, job: Job<Id>, mappings: seq<Mapping>, made: seq<seq<Id>>, shared: set<Path>,
                           i: nat, r: Path)
    requires Sound(h, job, mappings, made, shared)
    requires i < |mappings| && CarriedAt(h, job, mappings, made, i).Some?
    requires forall j :: i < j < |mappings| ==> ApartAt(h, job, mappings, made, j, Target(mappings[i]))
    ensures At(Applied(h, job, mappings, made, |mappings|), Ref(job.memory), Target(mappings[i]) + r)
         == At(Applied(h, job, mappings, made, i), CarriedAt(h, job, mappings, made, i).value, r)
  {
    NextReadsItsValue(h, job, mappings, made, shared, i, r);
    forall j | i < j < |mappings|
      ensures ApartAt(h, job, mappings, made, j, Target(mappings[i]) + r)
    {
      assert ApartAt(h, job, mappings, made, j, Target(mappings[i]));
      ApartBelow(Target(mappings[j]), Target(mappings[i]), r);
    }
    ApartKeptBetween(h, job, mappings, made, shared, i + 1, |mappings|, Target(mappings[i]) + r);
  }

  /** Mappings for other nodes, and those whose field the output does not have, change nothing. */
  lemma {:induction false} OthersCarryNothing<Id>(h: Heap<Id>, job: Job<Id>, mappings: seq<Mapping>,
                                                  made: seq<seq<Id>>, n: nat)
    requires job.memory in h && n <= |mappings| && n <= |made|
    requires forall i :: 0 <= i < |mappings| ==>
      mappings[i].fromNode != job.from || At(h, job.output, mappings[i].fromField).None?
    ensures Applied(h, job, mappings, made, n) == h
  {
    if n > 0 {
      OthersCarryNothing(h, job, mappings, made, n - 1);
    }
  }

  /** A mapping for this node puts the output's field, or the whole output if it names none, at its target: what is
      read there afterwards is what the output held, field by field. */
  lemma MappingCarriesItsField<Id>(h: Heap<Id>, job: Job<Id>, m: Mapping, made: seq<seq<Id>>, shared: set<Path>,
                                   r: Path)
    requires Sound(h, job, [m], made, shared) && m.fromNode == job.from
    requires At(h, job.output, m.fromField).Some?
    ensures At(Applied(h, job, [m], made, 1), Ref(job.memory), [m.toNode] + m.toField + r)
         == At(h, job.output, m.fromField + r)
  {
    LastWriterWins(h, job, [m], made, shared, 0, r);
    AtThrough(h, job.output, m.fromField, r);
  }

  // ---- The objects updated in place ----

  lemma CarryClosed<Id>(h: Heap<Id>, memory: Id, m: Mapping, v: Value<Id>, made: seq<Id>)
    requires memory in h && Closed(h) && Held(h, v) && EnoughFor(h, memory, m, made)
    ensures Closed(Carry(h, memory, m, v, made))
  {
    if m.toField != [] {
      if Present(h, memory, m.toNode) {
        WriteClosed(h, h[memory][m.toNode].id, m.toField, v, made);
      } else {
        WriteClosed(h[made[0] := map[]], made[0], m.toField, v, made[1..]);
      }
    }
  }

  /** The object that a nested field of the target goes into: the one that is there, or a new one. */
  method TargetObject(memory: Object, toNode: string, ghost objects: set<Object>)
    returns (target: Object, ghost made: seq<Object>)
    requires memory in objects && Closed(Snapshot(objects))
    ensures fresh(Elements(made)) && target in objects + Elements(made)
    ensures
      var h := Snapshot(objects);
      if Present(h, memory, toNode) then made == [] && target == h[memory][toNode].id
      else made == [target] && Snapshot(objects + Elements(made)) == h[target := map[]]
  {
    assert Snapshot(objects)[memory] == memory.fields;
    if toNode in memory.fields && memory.fields[toNode].Ref? {
      target, made := memory.fields[toNode].id, [];
    } else {
      target := new Object();
      made := [target];
      assert Snapshot(objects + Elements(made)) == Snapshot(objects)[target := map[]];
    }
  }

  /** Puts one carried value in its place. */
  method CarryOne(memory: Object, m: Mapping, v: Value<Object>, ghost objects: set<Object>)
    returns (ghost made: seq<Object>)
    requires memory in objects && Closed(Snapshot(objects)) && Held(Snapshot(objects), v)
    modifies objects
    ensures fresh(Elements(made)) && EnoughFor(old(Snapshot(objects)), memory, m, made)
    ensures Snapshot(objects + Elements(made)) == Carry(old(Snapshot(objects)), memory, m, v, made)
  {
    if m.toField == [] {
      made := [];
      SetField(memory, m.toNode, v, objects);
      assert objects + Elements(made) == objects;
    } else {
      made := CarryNested(memory, m, v, objects);
    }
  }

  method CarryNested(memory: Object, m: Mapping, v: Value<Object>, ghost objects: set<Object>)
    returns (ghost made: seq<Object>)
    requires memory in objects && Closed(Snapshot(objects)) && Held(Snapshot(objects), v) && m.toField != []
    modifies objects
    ensures fresh(Elements(made)) && EnoughFor(old(Snapshot(objects)), memory, m, made)
    ensures Snapshot(objects + Elements(made)) == Carry(old(Snapshot(objects)), memory, m, v, made)
  {
    ghost var h := Snapshot(objects);
    var target;
    ghost var first, rest;
    target, first := TargetObject(memory, m.toNode, objects);
    ghost var all := objects + Elements(first);
    ghost var h0 := Snapshot(all);
    assert first == [] ==> all == objects;
    rest := SetNestedField(target, m.toField, v, all);
    made := first + rest;
    ElementsSum(first, rest);
    CarriedNested(h, h0, memory, m, v, target, first, rest);
    SetField(memory, m.toNode, Ref(target), all + Elements(rest));
    assert objects + Elements(made) == all + Elements(rest);
  }

  lemma CarriedNested<Id>(h: Heap<Id>, h0: Heap<Id>, memory: Id, m: Mapping, v: Value<Id>, target: Id, first: seq<Id>,
                          rest: seq<Id>)
    requires memory in h && m.toField != [] && target in h0
    requires
      if Present(h, memory, m.toNode) then first == [] && target == h[memory][m.toNode].id && h0 == h
      else first == [target] && target !in h && h0 == h[target := map[]]
    requires Enough(h0, target, m.toField, rest)
    ensures EnoughFor(h, memory, m, first + rest)
    ensures
      var h1 := Write(h0, target, m.toField, v, rest);
      Carry(h, memory, m, v, first + rest) == h1[memory := h1[memory][m.toNode := Ref(target)]]
  {
    if first == [] {
      assert first + rest == rest;
    } else {
      assert (first + rest)[1..] == rest;
    }
  }

  /** New objects of later mappings play no part in earlier ones. */
  lemma {:induction false} AppliedSame<Id>(h: Heap<Id>, job: Job<Id>, mappings: seq<Mapping>, made: seq<seq<Id>>,
                                           next: seq<Id>, n: nat)
    requires job.memory in h && n <= |made| <= |mappings|
    ensures Applied(h, job, mappings, made + [next], n) == Applied(h, job, mappings, made, n)
  {
    if n > 0 {
      AppliedSame(h, job, mappings, made, next, n - 1);
    }
  }

  lemma EnoughKept<Id>(h: Heap<Id>, job: Job<Id>, mappings: seq<Mapping>, made: seq<seq<Id>>, next: seq<Id>, i: nat)
    requires job.memory in h && i < |made| < |mappings| && EnoughAt(h, job, mappings, made, i)
    ensures EnoughAt(h, job, mappings, made + [next], i)
  {
    AppliedSame(h, job, mappings, made, next, i);
  }

  /** One more mapping has been applied. */
  lemma AppliedNext<Id>(h: Heap<Id>, job: Job<Id>, mappings: seq<Mapping>, made: seq<seq<Id>>, next: seq<Id>,
                        h': Heap<Id>)
    requires job.memory in h && |made| < |mappings| && AllEnough(h, job, mappings, made)
    requires
      var n := |made|;
      match CarriedAt(h, job, mappings, made, n)
      case None => h' == Applied(h, job, mappings, made, n)
      case Some(v) =>
        && EnoughFor(Applied(h, job, mappings, made, n), job.memory, mappings[n], next)
        && h' == Carry(Applied(h, job, mappings, made, n), job.memory, mappings[n], v, next)
    ensures AllEnough(h, job, mappings, made + [next])
    ensures Applied(h, job, mappings, made + [next], |made| + 1) == h'
  {
    AppliedSame(h, job, mappings, made, next, |made|);
    forall i | 0 <= i <= |made|
      ensures EnoughAt(h, job, mappings, made + [next], i)
    {
      if i < |made| {
        assert EnoughAt(h, job, mappings, made, i);
        EnoughKept(h, job, mappings, made, next, i);
      }
    }
  }

  /** One round of the loop over the mappings. */
  method ApplyOne(memory: Object, from: string, output: Value<Object>, m: Mapping, ghost objects: set<Object>)
    returns (ghost made: seq<Object>)
    requires memory in objects && Closed(Snapshot(objects)) && Held(Snapshot(objects), output)
    modifies objects
    ensures fresh(Elements(made)) && Closed(Snapshot(objects + Elements(made)))
    ensures
      var h := old(Snapshot(objects));
      match Carried(h, Job(memory, from, output), m)
      case None => Snapshot(objects + Elements(made)) == h
      case Some(v) =>
        EnoughFor(h, memory, m, made) && Snapshot(objects + Elements(made)) == Carry(h, memory, m, v, made)
  {
    ghost var h := Snapshot(objects);
    made := [];
    assert objects + Elements(made) == objects;
    if m.fromNode != from {
      return;
    }
    var value := ResolveField(output, m.fromField, objects);
    if value == None {
      return;
    }
    HeldAt(h, output, m.fromField);
    made := CarryOne(memory, m, value.value, objects);
    CarryClosed(h, memory, m, value.value, made);
  }

  /** The source's `apply_field_mappings`. */
  method ApplyFieldMappings(memory: Object, from: string, output: Value<Object>, mappings: seq<Mapping>,
                            ghost objects: set<Object>)
    returns (ghost made: seq<seq<Object>>)
    requires memory in objects && Closed(Snapshot(objects)) && Held(Snapshot(objects), output)
    modifies objects
    ensures |made| == |mappings| && fresh(Elements(Flatten(made)))
    ensures AllEnough(old(Snapshot(objects)), Job(memory, from, output), mappings, made)
    ensures Snapshot(objects + Elements(Flatten(made)))
         == Applied(old(Snapshot(objects)), Job(memory, from, output), mappings, made, |mappings|)
  {
    ghost var h, job := Snapshot(objects), Job(memory, from, output);
    made := [];
    assert objects + Elements(Flatten(made)) == objects;
    for i := 0 to |mappings|
      invariant |made| == i && fresh(Elements(Flatten(made)))
      invariant Closed(Snapshot(objects + Elements(Flatten(made))))
      invariant AllEnough(h, job, mappings, made)
      invariant Snapshot(objects + Elements(Flatten(made))) == Applied(h, job, mappings, made, i)
    {
      ghost var all, next := objects + Elements(Flatten(made)), [];
      next := ApplyOne(memory, from, output, mappings[i], all);
      AppliedNext(h, job, mappings, made, next, Snapshot(all + Elements(next)));
      FlattenSnoc(made, next);
      made := made + [next];
      assert objects + Elements(Flatten(made)) == all + Elements(next);
    }
  }

  // ---- What sharing breaks ----

  /** The memory after node A has put out `{x: {a: 1}, y: 2}`: object 0 is the memory, 1 the output, 2 its field x. */
  function OutputOfA(): Heap<nat> {
    map[
      0 := map["A" := Ref(1)],
      1 := map["x" := Ref(2), "y" := Plain("2")],
      2 := map["a" := Plain("1")]
    ]
  }

  function JobOfA(): Job<nat> {
    Job(0, "A", Ref(1))
  }

  function NoneMade(): seq<seq<nat>> {
    [[], [], []]
  }

  function ThreeMappings(): seq<Mapping> {
    [Mapping("A", ["x"], "B", []), Mapping("A", ["x"], "C", []), Mapping("A", ["y"], "C", ["z"])]
  }

  /** The memory with the output's field x at B and C. */
  function BothCarried(): Heap<nat> {
    OutputOfA()[0 := map["A" := Ref(1), "B" := Ref(2), "C" := Ref(2)]]
  }

  lemma ApartAtFirst(p: Path, q: Path)
    requires p != [] && q != [] && p[0] != q[0]
    ensures Apart(p, q)
  {
  }

  lemma ReadKeys<Id>(h: Heap<Id>, v: Value<Id>, k: string, l: string)
    ensures At(h, v, [k]) == if v.Ref? && v.id in h && k in h[v.id] then Some(h[v.id][k]) else None
    ensures At(h, v, [k, l]) == match At(h, v, [k]) case Some(u) => At(h, u, [l]) case None => None
  {
    assert [k, l][1..] == [l] && [k][1..] == [];
  }

  lemma TwoAreCarried()
    ensures Applied(OutputOfA(), JobOfA(), ThreeMappings(), NoneMade(), 2) == BothCarried()
  {
    var h := OutputOfA();
    var h1 := h[0 := map["A" := Ref(1), "B" := Ref(2)]];
    assert h[0 := h[0]["B" := Ref(2)]] == h1;
    assert Applied(h, JobOfA(), ThreeMappings(), NoneMade(), 1) == h1;
    assert h1[0 := h1[0]["C" := Ref(2)]] == BothCarried();
  }

  lemma ThirdIsWritten()
    ensures
      var h := Carry(BothCarried(), 0, ThreeMappings()[2], Plain("2"), []);
      At(h, Ref(0), ["B", "z"]) == Some(Plain("2")) == At(h, Ref(1), ["x", "z"])
  {
    var h := BothCarried();
    var h1 := Write(h, 2, ["z"], Plain("2"), []);
    assert h1[0] == h[0] && h1[1] == h[1] && h1[2]["z"] == Plain("2");
    ReadKeys(h1[0 := h1[0]["C" := Ref(2)]], Ref(0), "B", "z");
    ReadKeys(h1[0 := h1[0]["C" := Ref(2)]], Ref(1), "x", "z");
  }

  lemma LaterTargetsApart()
    ensures forall j :: 0 < j < 3 ==> Apart(Target(ThreeMappings()[j]), Target(ThreeMappings()[0]))
  {
    forall j | 0 < j < 3
      ensures Apart(Target(ThreeMappings()[j]), Target(ThreeMappings()[0]))
    {
      ApartAtFirst(Target(ThreeMappings()[j]), Target(ThreeMappings()[0]));
    }
  }

  lemma ThirdIsApplied()
    ensures Applied(OutputOfA(), JobOfA(), ThreeMappings(), NoneMade(), 3)
         == Carry(BothCarried(), 0, ThreeMappings()[2], Plain("2"), [])
  {
    TwoAreCarried();
  }

  /** Two targets get the same object, and a write into one of them shows at the other: the first target does not read
      what its mapping carried, though every later target is apart from it. */
  lemma SharedTargetIsWritten()
    ensures forall j :: 0 < j < 3 ==> Apart(Target(ThreeMappings()[j]), Target(ThreeMappings()[0]))
    ensures CarriedAt(OutputOfA(), JobOfA(), ThreeMappings(), NoneMade(), 0) == Some(Ref(2))
    ensures At(OutputOfA(), Ref(2), ["z"]) == None
    ensures At(Applied(OutputOfA(), JobOfA(), ThreeMappings(), NoneMade(), 3), Ref(0), ["B", "z"]) == Some(Plain("2"))
  {
    LaterTargetsApart();
    ThirdIsApplied();
    ThirdIsWritten();
  }

  lemma TargetsApartFromA()
    ensures forall j :: 0 <= j < 3 ==> Apart(Target(ThreeMappings()[j]), ["A", "x", "z"])
  {
    forall j | 0 <= j < 3
      ensures Apart(Target(ThreeMappings()[j]), ["A", "x", "z"])
    {
      ApartAtFirst(Target(ThreeMappings()[j]), ["A", "x", "z"]);
    }
  }

  /** The same write changes the output of A, at a path apart from all targets. */
  lemma SharedFieldIsWritten()
    ensures forall j :: 0 <= j < 3 ==> Apart(Target(ThreeMappings()[j]), ["A", "x", "z"])
    ensures At(OutputOfA(), Ref(0), ["A", "x", "z"]) == None
    ensures
      At(Applied(OutputOfA(), JobOfA(), ThreeMappings(), NoneMade(), 3), Ref(0), ["A", "x", "z"]) == Some(Plain("2"))
  {
    TargetsApartFromA();
    ThirdIsApplied();
    ThirdIsWritten();
    ThroughA(OutputOfA());
    ThroughA(Carry(BothCarried(), 0, ThreeMappings()[2], Plain("2"), []));
    ReadKeys(OutputOfA(), Ref(1), "x", "z");
  }

  lemma ThroughA(h: Heap<nat>)
    requires 0 in h && "A" in h[0] && h[0]["A"] == Ref(1)
    ensures At(h, Ref(0), ["A", "x", "z"]) == At(h, Ref(1), ["x", "z"])
  {
    assert ["A", "x", "z"][1..] == ["x", "z"];
  }

  function IntoItself(): seq<Mapping> {
    [Mapping("A", [], "A", ["x"])]
  }

  /** A mapping into the object it carries makes the object a part of itself: its target does not read what the mapping
      carried either. */
  lemma OwnFieldIsWritten()
    ensures CarriedAt(OutputOfA(), JobOfA(), IntoItself(), NoneMade(), 0) == Some(Ref(1))
    ensures At(OutputOfA(), Ref(1), ["x"]) == Some(Ref(2))
    ensures At(Applied(OutputOfA(), JobOfA(), IntoItself(), NoneMade(), 1), Ref(0), ["A", "x", "x"]) == Some(Ref(1))
  {
    var h := OutputOfA();
    var h1 := Write(h, 1, ["x"], Ref(1), []);
    assert h1[0] == h[0] && h1[1]["x"] == Ref(1);
    var h2 := Applied(h, JobOfA(), IntoItself(), NoneMade(), 1);
    assert h2 == h1[0 := h1[0]["A" := Ref(1)]];
    ReadKeys(h2, Ref(1), "x", "x");
    ReadKeys(h2, Ref(0), "A", "x");
    assert ["A", "x", "x"][1..] == ["x", "x"];
  }
}
