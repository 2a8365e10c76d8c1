/** Objects that may be held in many places, and nested writes to them in place. */
module ObjectHeap {
  import opened WorkflowNode
  import opened FieldPaths

  datatype Value<+Id> = Plain(text: string) | Ref(id: Id)

  /** What every object holds. */
  type Heap<Id(==)> = map<Id, map<string, Value<Id>>>

  predicate Held<Id(==)>(h: Heap<Id>, v: Value<Id>) {
    v.Ref? ==> v.id in h
  }

  ghost predicate Closed<Id>(h: Heap<Id>) {
    forall o, k :: o in h && k in h[o] ==> Held(h, h[o][k])
  }

  /** What is read at a path, starting at a value. */
  ghost function At<Id>(h: Heap<Id>, v: Value<Id>, path: Path): Option<Value<Id>>
    decreases |path|
  {
    if path == [] then Some(v)
    else if v.Plain? || v.id !in h || path[0] !in h[v.id] then None
    else At(h, h[v.id][path[0]], path[1..])
  }

  /** Whether the path leads on from object `o` into another object. */
  ghost predicate Leads<Id>(h: Heap<Id>, o: Id, path: Path)
    requires o in h && path != []
  {
    |path| > 1 && path[0] in h[o] && h[o][path[0]].Ref?
  }

  /** A nested write to object `o`; the objects `made` take the place of what has no fields on the way. */
  ghost function Write<Id>(h: Heap<Id>, o: Id, path: Path, v: Value<Id>, made: seq<Id>): (r: Heap<Id>)
    requires o in h && path != []
    ensures forall y :: y in h ==> y in r
    decreases |path|
  {
    if |path| == 1 then h[o := h[o][path[0] := v]]
    else if Leads(h, o, path) && h[o][path[0]].id in h then Write(h, h[o][path[0]].id, path[1..], v, made)
    else if made == [] then h
    else Write(h[o := h[o][path[0] := Ref(made[0])]][made[0] := map[]], made[0], path[1..], v, made[1..])
  }

  /** `made` are as many new objects as the write takes. */
  ghost predicate Enough<Id>(h: Heap<Id>, o: Id, path: Path, made: seq<Id>)
    requires o in h && path != []
    decreases |path|
  {
    if |path| == 1 then made == []
    else if Leads(h, o, path) && h[o][path[0]].id in h then Enough(h, h[o][path[0]].id, path[1..], made)
    else
      && made != [] && made[0] !in h
      && Enough(h[o := h[o][path[0] := Ref(made[0])]][made[0] := map[]], made[0], path[1..], made[1..])
  }

  // ---- The slot that a write changes ----

  /** How far the path leads through objects that are there. */
  ghost function Depth<Id>(h: Heap<Id>, o: Id, path: Path): (n: nat)
    requires o in h && path != [] && Closed(h)
    ensures n < |path|
    decreases |path|
  {
    if Leads(h, o, path) then 1 + Depth(h, h[o][path[0]].id, path[1..]) else 0
  }

  /** The object whose field the write changes. */
  ghost function Holder<Id>(h: Heap<Id>, o: Id, path: Path): (x: Id)
    requires o in h && path != [] && Closed(h)
    ensures x in h
    decreases |path|
  {
    if Leads(h, o, path) then Holder(h, h[o][path[0]].id, path[1..]) else o
  }

  lemma {:induction false} AtThrough<Id>(h: Heap<Id>, v: Value<Id>, p: Path, q: Path)
    ensures At(h, v, p + q) == match At(h, v, p) case Some(u) => At(h, u, q) case None => None
    decreases |p|
  {
    if p == [] {
      assert p + q == q;
    } else {
      assert (p + q)[1..] == p[1..] + q;
      if v.Ref? && v.id in h && p[0] in h[v.id] {
        AtThrough(h, h[v.id][p[0]], p[1..], q);
      }
    }
  }

  lemma {:induction false} HeldAt<Id>(h: Heap<Id>, v: Value<Id>, p: Path)
    requires Closed(h) && Held(h, v)
    ensures At(h, v, p).Some? ==> Held(h, At(h, v, p).value)
    decreases |p|
  {
    if p != [] && v.Ref? && p[0] in h[v.id] {
      HeldAt(h, h[v.id][p[0]], p[1..]);
    }
  }

  /** The write walks to the holder, and what is left of the path does not lead on from there. */
  lemma {:induction false} HolderAt<Id>(h: Heap<Id>, o: Id, path: Path, v: Value<Id>, made: seq<Id>)
    requires o in h && path != [] && Closed(h)
    ensures
      var n, x := Depth(h, o, path), Holder(h, o, path);
      && At(h, Ref(o), path[..n]) == Some(Ref(x)) && !Leads(h, x, path[n..])
      && Write(h, o, path, v, made) == Write(h, x, path[n..], v, made)
      && Enough(h, o, path, made) == Enough(h, x, path[n..], made)
    decreases |path|
  {
    if Leads(h, o, path) {
      var next := h[o][path[0]].id;
      HolderAt(h, next, path[1..], v, made);
      var n := Depth(h, next, path[1..]);
      assert path[1..][n..] == path[n + 1..];
      assert path[..n + 1] == [path[0]] + path[1..][..n];
    } else {
      assert path[0..] == path;
    }
  }

  /** New objects hold one field each, the next key of the path. */
  lemma {:induction false} ChainAt<Id>(h: Heap<Id>, o: Id, path: Path, v: Value<Id>, made: seq<Id>, r: Path)
    requires o in h && h[o] == map[] && path != [] && Enough(h, o, path, made)
    ensures
      var h' := Write(h, o, path, v, made);
      && o in h' && (forall y :: y in h && y != o ==> y in h' && h'[y] == h[y])
      && (path <= r ==> At(h', Ref(o), r) == At(h', v, r[|path|..]))
      && (Apart(path, r) ==> At(h', Ref(o), r) == None)
      && (r < path ==> At(h', Ref(o), r).Some? && At(h', Ref(o), r).value.Ref?)
      && (r < path && r != [] ==> At(h', Ref(o), r).value.id !in h)
    decreases |path|
  {
    var h' := Write(h, o, path, v, made);
    if |path| == 1 {
      assert h'[o] == map[path[0] := v];
      if r != [] {
        assert path == [path[0]] && r == [r[0]] + r[1..];
      }
    } else {
      var h1 := h[o := h[o][path[0] := Ref(made[0])]][made[0] := map[]];
      ChainAt(h1, made[0], path[1..], v, made[1..], if r == [] then [] else r[1..]);
      assert h'[o] == map[path[0] := Ref(made[0])];
      assert path == [path[0]] + path[1..];
      if r != [] {
        assert r == [r[0]] + r[1..];
      }
    }
  }

  /** A new object is read at this path. */
  ghost predicate NewAt<Id>(h: Heap<Id>, h': Heap<Id>, w: Value<Id>, r: Path) {
    At(h', w, r).Some? && At(h', w, r).value.Ref? && At(h', w, r).value.id !in h
  }

  /** What a write leaves of the heap, and what is then read from the slot on. */
  lemma SlotWritten<Id>(h: Heap<Id>, x: Id, path: Path, v: Value<Id>, made: seq<Id>, r: Path)
    requires x in h && path != [] && !Leads(h, x, path) && Enough(h, x, path, made)
    ensures
      var h' := Write(h, x, path, v, made);
      && x in h' && path[0] in h'[x]
      && (forall y :: y in h && y != x ==> y in h' && h'[y] == h[y])
      && (forall k :: k != path[0] ==> (k in h'[x] <==> k in h[x]) && (k in h[x] ==> h'[x][k] == h[x][k]))
      && (path[1..] <= r ==> At(h', h'[x][path[0]], r) == At(h', v, r[|path| - 1..]))
      && (Apart(path[1..], r) ==> At(h', h'[x][path[0]], r) == None)
      && (r < path[1..] ==> NewAt(h, h', h'[x][path[0]], r))
  {
    if |path| > 1 {
      var h1 := h[x := h[x][path[0] := Ref(made[0])]][made[0] := map[]];
      ChainAt(h1, made[0], path[1..], v, made[1..], r);
    }
  }

  lemma {:induction false} WriteClosed<Id>(h: Heap<Id>, o: Id, path: Path, v: Value<Id>, made: seq<Id>)
    requires o in h && path != [] && Closed(h) && Held(h, v)
    ensures Closed(Write(h, o, path, v, made))
    decreases |path|
  {
    if |path| > 1 {
      if Leads(h, o, path) {
        WriteClosed(h, h[o][path[0]].id, path[1..], v, made);
      } else if made != [] {
        WriteClosed(h[o := h[o][path[0] := Ref(made[0])]][made[0] := map[]], made[0], path[1..], v, made[1..]);
      }
    }
  }

  /** A write to an object without fields does not look at any other. */
  lemma {:induction false} ChainFrame<Id>(h: Heap<Id>, o: Id, path: Path, v: Value<Id>, made: seq<Id>,
                                          y: Id, fields: map<string, Value<Id>>)
    requires o in h && h[o] == map[] && path != [] && Enough(h, o, path, made) && y in h && y != o
    ensures Enough(h[y := fields], o, path, made)
    ensures Write(h[y := fields], o, path, v, made) == Write(h, o, path, v, made)[y := fields]
    decreases |path|
  {
    if |path| == 1 {
      assert h[y := fields][o := map[path[0] := v]] == h[o := map[path[0] := v]][y := fields];
    } else {
      var h1 := h[o := h[o][path[0] := Ref(made[0])]][made[0] := map[]];
      assert h[y := fields][o := h[o][path[0] := Ref(made[0])]][made[0] := map[]] == h1[y := fields];
      ChainFrame(h1, made[0], path[1..], v, made[1..], y, fields);
    }
  }

  // ---- Reading after a write ----

  /** The path, from value `w` on, goes through key `k` of object `x`. */
  ghost predicate Passes<Id>(h: Heap<Id>, w: Value<Id>, q: Path, x: Id, k: string)
    decreases |q|
  {
    && q != [] && w.Ref? && w.id in h
    && ((w.id == x && q[0] == k) || (q[0] in h[w.id] && Passes(h, h[w.id][q[0]], q[1..], x, k)))
  }

  /** The second heap has the objects of the first, and they differ at key `k` of object `x` at most. */
  ghost predicate Differ<Id>(h: Heap<Id>, h': Heap<Id>, x: Id, k: string) {
    && (forall y :: y in h ==> y in h' && (y != x ==> h'[y] == h[y]))
    && (x in h ==>
          && k in h'[x]
          && forall l :: l != k ==> (l in h'[x] <==> l in h[x]) && (l in h[x] ==> h'[x][l] == h[x][l]))
  }

  lemma {:induction false} SameAt<Id>(h: Heap<Id>, h': Heap<Id>, x: Id, k: string, w: Value<Id>, q: Path)
    requires Closed(h) && Held(h, w) && Differ(h, h', x, k) && !Passes(h, w, q, x, k)
    ensures At(h', w, q) == At(h, w, q)
    decreases |q|
  {
    if q != [] && w.Ref? && q[0] in h[w.id] {
      SameAt(h, h', x, k, h[w.id][q[0]], q[1..]);
    }
  }

  /** Where a path goes through the slot for the first time. */
  lemma {:induction false} FirstPass<Id>(h: Heap<Id>, w: Value<Id>, q: Path, x: Id, k: string) returns (m: nat)
    requires Passes(h, w, q, x, k)
    ensures m < |q| && At(h, w, q[..m]) == Some(Ref(x)) && q[m] == k && !Passes(h, w, q[..m], x, k)
    decreases |q|
  {
    if w.id == x && q[0] == k {
      m := 0;
    } else {
      var n := FirstPass(h, h[w.id][q[0]], q[1..], x, k);
      m := n + 1;
      assert q[..m] == [q[0]] + q[1..][..n];
    }
  }

  lemma ReadField<Id>(h: Heap<Id>, x: Id, k: string, r: Path)
    requires x in h && k in h[x]
    ensures At(h, Ref(x), [k] + r) == At(h, h[x][k], r)
  {
    assert ([k] + r)[1..] == r;
  }

  /** The slot of a write at `p`: key `p[n]` of object `x`, from where the path does not lead on. */
  ghost predicate Slot<Id>(h: Heap<Id>, root: Value<Id>, p: Path, n: nat, x: Id) {
    n < |p| && x in h && At(h, root, p[..n]) == Some(Ref(x)) && !Leads(h, x, p[n..])
  }

  /** What is read from the slot on after the write. */
  ghost predicate Landed<Id>(h: Heap<Id>, h': Heap<Id>, x: Id, p: Path, n: nat, v: Value<Id>, r: Path)
    requires n < |p| && x in h' && p[n] in h'[x]
  {
    && (p[n + 1..] <= r ==> At(h', h'[x][p[n]], r) == At(h', v, r[|p| - n - 1..]))
    && (Apart(p[n + 1..], r) ==> At(h', h'[x][p[n]], r) == None)
    && (r < p[n + 1..] ==> NewAt(h, h', h'[x][p[n]], r))
  }

  /** The facts about one write that its readers need. */
  lemma Wrote<Id>(h: Heap<Id>, root: Id, p: Path, v: Value<Id>, made: seq<Id>, r: Path)
    requires root in h && p != [] && Closed(h) && Enough(h, root, p, made)
    ensures
      var n, x, h' := Depth(h, root, p), Holder(h, root, p), Write(h, root, p, v, made);
      Slot(h, Ref(root), p, n, x) && Differ(h, h', x, p[n]) && Landed(h, h', x, p, n, v, r)
  {
    var n, x := Depth(h, root, p), Holder(h, root, p);
    HolderAt(h, root, p, v, made);
    SlotWritten(h, x, p[n..], v, made, r);
    assert p[n..][1..] == p[n + 1..] && p[n..][0] == p[n];
  }

  /** No other path leads to the object of the slot, except through what the write replaces. */
  ghost predicate OnlyWay<Id>(h: Heap<Id>, root: Value<Id>, p: Path, n: nat, x: Id)
    requires n < |p|
  {
    forall q :: At(h, root, q) == Some(Ref(x)) ==> q == p[..n] || p <= q
  }

  /** On the way to the slot the path does not go through it. */
  lemma NotBefore<Id>(h: Heap<Id>, root: Value<Id>, p: Path, n: nat, x: Id, q: Path)
    requires n < |p| && OnlyWay(h, root, p, n, x) && |q| <= n
    ensures !Passes(h, root, q, x, p[n])
  {
    if Passes(h, root, q, x, p[n]) {
      var m := FirstPass(h, root, q, x, p[n]);
    }
  }

  /** From the slot on, the new heap is read. */
  lemma SlotRead<Id>(h: Heap<Id>, h': Heap<Id>, root: Value<Id>, p: Path, n: nat, x: Id, r: Path)
    requires Closed(h) && Held(h, root) && Slot(h, root, p, n, x) && OnlyWay(h, root, p, n, x) && Differ(h, h', x, p[n])
    ensures At(h', root, p[..n] + ([p[n]] + r)) == At(h', h'[x][p[n]], r)
  {
    NotBefore(h, root, p, n, x, p[..n]);
    SameAt(h, h', x, p[n], root, p[..n]);
    AtThrough(h', root, p[..n], [p[n]] + r);
    ReadField(h', x, p[n], r);
  }

  lemma ApartBeyond(p: Path, q: Path, n: nat)
    requires Apart(p, q) && n < |p| && n < |q| && p[..n] == q[..n] && p[n] == q[n]
    ensures q == p[..n] + ([p[n]] + q[n + 1..]) && Apart(p[n + 1..], q[n + 1..])
  {
    assert p == p[..n] + ([p[n]] + p[n + 1..]) && q == p[..n] + ([p[n]] + q[n + 1..]);
  }

  /** Where the path has keys beyond the slot, the slot holds no object before the write. */
  lemma NothingBeyond<Id>(h: Heap<Id>, root: Value<Id>, p: Path, n: nat, x: Id, r: Path)
    requires Slot(h, root, p, n, x) && n + 1 < |p|
    ensures var read := At(h, root, p[..n] + ([p[n]] + r));
      (read.Some? ==> read.value.Plain?) && (r != [] ==> read == None)
  {
    AtThrough(h, root, p[..n], [p[n]] + r);
    assert p[n..][0] == p[n];
    if p[n] in h[x] {
      ReadField(h, x, p[n], r);
    }
  }

  /** A path apart from a write to an object held nowhere else reads as before. */
  lemma ApartKept<Id>(h: Heap<Id>, h': Heap<Id>, root: Value<Id>, p: Path, n: nat, x: Id, v: Value<Id>, q: Path)
    requires Closed(h) && Held(h, root) && Slot(h, root, p, n, x) && OnlyWay(h, root, p, n, x) && Differ(h, h', x, p[n])
    requires Apart(p, q) && (n < |q| ==> Landed(h, h', x, p, n, v, q[n + 1..]))
    ensures At(h', root, q) == At(h, root, q)
  {
    if Passes(h, root, q, x, p[n]) {
      var m := FirstPass(h, root, q, x, p[n]);
      assert q[..m] <= q;
      assert q[..m] == p[..n];
      ApartBeyond(p, q, n);
      SlotRead(h, h', root, p, n, x, q[n + 1..]);
      NothingBeyond(h, root, p, n, x, q[n + 1..]);
    } else {
      SameAt(h, h', x, p[n], root, q);
    }
  }

  /** The value written does not lead to the object that the write changes. */
  ghost predicate LeadsAway<Id>(h: Heap<Id>, v: Value<Id>, x: Id) {
    forall r :: At(h, v, r) != Some(Ref(x))
  }

  lemma ValueKept<Id>(h: Heap<Id>, h': Heap<Id>, x: Id, k: string, v: Value<Id>, r: Path)
    requires Closed(h) && Held(h, v) && Differ(h, h', x, k) && LeadsAway(h, v, x)
    ensures At(h', v, r) == At(h, v, r)
  {
    if Passes(h, v, r, x, k) {
      var m := FirstPass(h, v, r, x, k);
    } else {
      SameAt(h, h', x, k, v, r);
    }
  }

  lemma BelowBeyond(p: Path, r: Path, n: nat)
    requires n < |p|
    ensures p + r == p[..n] + ([p[n]] + (p[n + 1..] + r))
    ensures p[n + 1..] <= p[n + 1..] + r && (p[n + 1..] + r)[|p| - n - 1..] == r
  {
  }

  /** The written path, and any path below it, reads what was written. */
  lemma BelowRead<Id>(h: Heap<Id>, h': Heap<Id>, root: Value<Id>, p: Path, n: nat, x: Id, v: Value<Id>, r: Path)
    requires Closed(h) && Held(h, root) && Held(h, v)
    requires Slot(h, root, p, n, x) && OnlyWay(h, root, p, n, x) && Differ(h, h', x, p[n]) && LeadsAway(h, v, x)
    requires Landed(h, h', x, p, n, v, p[n + 1..] + r)
    ensures At(h', root, p + r) == At(h, v, r)
  {
    BelowBeyond(p, r, n);
    SlotRead(h, h', root, p, n, x, p[n + 1..] + r);
    ValueKept(h, h', x, p[n], v, r);
  }

  lemma ObjectsOnTheWay<Id>(h: Heap<Id>, root: Value<Id>, p: Path, n: nat, x: Id, q: Path)
    requires Slot(h, root, p, n, x) && q < p && |q| <= n
    ensures At(h, root, q).Some? && At(h, root, q).value.Ref?
  {
    var r := p[|q|..n];
    assert p[..n] == q + r;
    AtThrough(h, root, q, r);
  }

  lemma PrefixBeyond(p: Path, q: Path, n: nat)
    requires q < p && n < |q|
    ensures q == p[..n] + ([p[n]] + q[n + 1..]) && q[n + 1..] < p[n..][1..]
  {
    assert p == q + p[|q|..];
  }

  lemma NewRead<Id>(h: Heap<Id>, h': Heap<Id>, root: Value<Id>, p: Path, n: nat, x: Id, q: Path)
    requires Closed(h) && Held(h, root) && Slot(h, root, p, n, x) && OnlyWay(h, root, p, n, x) && Differ(h, h', x, p[n])
    requires q < p && n < |q|
    ensures At(h', root, q) == At(h', h'[x][p[n]], q[n + 1..])
  {
    PrefixBeyond(p, q, n);
    SlotRead(h, h', root, p, n, x, q[n + 1..]);
  }

  lemma UptoSlot<Id>(h: Heap<Id>, h': Heap<Id>, root: Value<Id>, p: Path, n: nat, x: Id, q: Path)
    requires Closed(h) && Held(h, root) && n < |p| && OnlyWay(h, root, p, n, x) && Differ(h, h', x, p[n])
    requires |q| <= n
    ensures At(h', root, q) == At(h, root, q)
  {
    NotBefore(h, root, p, n, x, q);
    SameAt(h, h', x, p[n], root, q);
  }

  /** Up to the slot, a path above the written one reads the object that was there; beyond it, a new object. */
  lemma AboveRead<Id>(h: Heap<Id>, h': Heap<Id>, root: Value<Id>, p: Path, n: nat, x: Id, v: Value<Id>, q: Path)
    requires Closed(h) && Held(h, root) && Slot(h, root, p, n, x) && OnlyWay(h, root, p, n, x) && Differ(h, h', x, p[n])
    requires q < p && (n < |q| ==> Landed(h, h', x, p, n, v, q[n + 1..]))
    ensures if |q| <= n then At(h', root, q) == At(h, root, q) else NewAt(h, h', root, q)
  {
    if |q| <= n {
      UptoSlot(h, h', root, p, n, x, q);
    } else {
      PrefixBeyond(p, q, n);
      NewRead(h, h', root, p, n, x, q);
    }
  }

  // ---- One write ----

  /** No other path leads to the object that the write changes, except through what the write replaces. */
  ghost predicate Alone<Id>(h: Heap<Id>, root: Id, p: Path)
    requires root in h && p != [] && Closed(h)
  {
    OnlyWay(h, Ref(root), p, Depth(h, root, p), Holder(h, root, p))
  }

  /** The value written does not lead to it either. */
  ghost predicate Unreached<Id>(h: Heap<Id>, root: Id, p: Path, v: Value<Id>)
    requires root in h && p != [] && Closed(h)
  {
    LeadsAway(h, v, Holder(h, root, p))
  }

  lemma ApartReadsAsBefore<Id>(h: Heap<Id>, root: Id, p: Path, v: Value<Id>, made: seq<Id>, q: Path)
    requires root in h && p != [] && Closed(h) && Enough(h, root, p, made)
    requires Alone(h, root, p) && Apart(p, q)
    ensures At(Write(h, root, p, v, made), Ref(root), q) == At(h, Ref(root), q)
  {
    var n, x := Depth(h, root, p), Holder(h, root, p);
    Wrote(h, root, p, v, made, if n < |q| then q[n + 1..] else []);
    ApartKept(h, Write(h, root, p, v, made), Ref(root), p, n, x, v, q);
  }

  lemma WrittenReads<Id>(h: Heap<Id>, root: Id, p: Path, v: Value<Id>, made: seq<Id>, r: Path)
    requires root in h && p != [] && Closed(h) && Enough(h, root, p, made) && Held(h, v)
    requires Alone(h, root, p) && Unreached(h, root, p, v)
    ensures At(Write(h, root, p, v, made), Ref(root), p + r) == At(h, v, r)
  {
    var n, x := Depth(h, root, p), Holder(h, root, p);
    Wrote(h, root, p, v, made, p[n + 1..] + r);
    BelowRead(h, Write(h, root, p, v, made), Ref(root), p, n, x, v, r);
  }

  lemma AboveReads<Id>(h: Heap<Id>, root: Id, p: Path, v: Value<Id>, made: seq<Id>, q: Path)
    requires root in h && p != [] && Closed(h) && Enough(h, root, p, made) && Alone(h, root, p) && q < p
    ensures
      var h' := Write(h, root, p, v, made);
      if |q| <= Depth(h, root, p) then
        At(h', Ref(root), q) == At(h, Ref(root), q) && At(h, Ref(root), q).Some? && At(h, Ref(root), q).value.Ref?
      else NewAt(h, h', Ref(root), q)
  {
    var n, x := Depth(h, root, p), Holder(h, root, p);
    Wrote(h, root, p, v, made, if n < |q| then q[n + 1..] else []);
    AboveRead(h, Write(h, root, p, v, made), Ref(root), p, n, x, v, q);
    if |q| <= n {
      ObjectsOnTheWay(h, Ref(root), p, n, x, q);
    }
  }

  lemma {:induction false} ChainDistinct<Id>(h: Heap<Id>, o: Id, path: Path, v: Value<Id>, made: seq<Id>,
                                             r1: Path, r2: Path)
    requires o in h && h[o] == map[] && path != [] && Enough(h, o, path, made) && r1 < r2 < path
    ensures At(Write(h, o, path, v, made), Ref(o), r1) != At(Write(h, o, path, v, made), Ref(o), r2)
    decreases |path|
  {
    ChainAt(h, o, path, v, made, r2);
    if r1 != [] {
      var h1 := h[o := h[o][path[0] := Ref(made[0])]][made[0] := map[]];
      ChainAt(h1, made[0], path[1..], v, made[1..], []);
      ChainDistinct(h1, made[0], path[1..], v, made[1..], r1[1..], r2[1..]);
    }
  }

  /** The new objects on the path are different from each other. */
  lemma NewDiffer<Id>(h: Heap<Id>, root: Id, p: Path, v: Value<Id>, made: seq<Id>, q1: Path, q2: Path)
    requires root in h && p != [] && Closed(h) && Enough(h, root, p, made) && Alone(h, root, p)
    requires Depth(h, root, p) < |q1| && q1 < q2 < p
    ensures At(Write(h, root, p, v, made), Ref(root), q1) != At(Write(h, root, p, v, made), Ref(root), q2)
  {
    var n, x, h' := Depth(h, root, p), Holder(h, root, p), Write(h, root, p, v, made);
    Wrote(h, root, p, v, made, []);
    NewRead(h, h', Ref(root), p, n, x, q1);
    NewRead(h, h', Ref(root), p, n, x, q2);
    HolderAt(h, root, p, v, made);
    PrefixBeyond(q2, q1, n);
    PrefixBeyond(p, q2, n);
    SlotChain(h, x, p[n..], v, made, q1[n + 1..], q2[n + 1..]);
  }

  lemma SlotChain<Id>(h: Heap<Id>, x: Id, path: Path, v: Value<Id>, made: seq<Id>, r1: Path, r2: Path)
    requires x in h && |path| > 1 && !Leads(h, x, path) && Enough(h, x, path, made) && r1 < r2 < path[1..]
    ensures
      var h' := Write(h, x, path, v, made);
      x in h' && path[0] in h'[x] && At(h', h'[x][path[0]], r1) != At(h', h'[x][path[0]], r2)
  {
    var h1 := h[x := h[x][path[0] := Ref(made[0])]][made[0] := map[]];
    ChainAt(h1, made[0], path[1..], v, made[1..], []);
    ChainDistinct(h1, made[0], path[1..], v, made[1..], r1, r2);
  }

  // ---- Writes on trees ----

  predicate Alike<Id>(a: Option<Value<Id>>, b: Option<Tree>) {
    match (a, b)
    case (None, None) => true
    case (Some(Plain(x)), Some(Leaf(y))) => x == y
    case (Some(Ref(_)), Some(Branch(_))) => true
    case _ => false
  }

  /** Read from value `w` on, the heap looks like the tree. */
  ghost predicate Shows<Id>(h: Heap<Id>, w: Value<Id>, t: Tree) {
    forall q :: Alike(At(h, w, q), Get(t, q))
  }

  /** A nested write in place, to an object that is held nowhere else, does what `Put` does. */
  lemma WriteIsPut<Id>(h: Heap<Id>, root: Id, p: Path, v: Value<Id>, made: seq<Id>, t: Tree, u: Tree)
    requires root in h && p != [] && Closed(h) && Enough(h, root, p, made) && Held(h, v)
    requires Alone(h, root, p) && Unreached(h, root, p, v) && t.Branch?
    requires Shows(h, Ref(root), t) && Shows(h, v, u)
    ensures Shows(Write(h, root, p, v, made), Ref(root), Put(t, p, u))
  {
    var h' := Write(h, root, p, v, made);
    forall q
      ensures Alike(At(h', Ref(root), q), Get(Put(t, p, u), q))
    {
      if p <= q {
        var r := q[|p|..];
        assert q == p + r;
        WrittenReads(h, root, p, v, made, r);
        GetWritten(t, p, u, r);
        assert Alike(At(h, v, r), Get(u, r));
      } else if q < p {
        AboveReads(h, root, p, v, made, q);
        GetAbove(t, p, u, q);
      } else {
        ApartReadsAsBefore(h, root, p, v, made, q);
        GetElsewhere(t, p, u, q);
        assert Alike(At(h, Ref(root), q), Get(t, q));
      }
    }
  }

  // ---- When a write stays local, exactly ----

  /** Another path leads to the object of the slot. */
  ghost predicate Alias<Id>(h: Heap<Id>, root: Value<Id>, p: Path, n: nat, x: Id, q: Path)
    requires n < |p|
  {
    At(h, root, q) == Some(Ref(x)) && q != p[..n] && !(p <= q)
  }

  ghost predicate ShortAlias<Id>(h: Heap<Id>, root: Value<Id>, p: Path, n: nat, x: Id, q: Path)
    requires n < |p|
  {
    Alias(h, root, p, n, x, q) && forall m :: 0 <= m < |q| ==> !Alias(h, root, p, n, x, q[..m])
  }

  lemma {:induction false} ShortestAlias<Id>(h: Heap<Id>, root: Value<Id>, p: Path, n: nat, x: Id, q: Path)
    returns (s: Path)
    requires n < |p| && Alias(h, root, p, n, x, q)
    ensures ShortAlias(h, root, p, n, x, s)
    decreases |q|
  {
    if m :| 0 <= m < |q| && Alias(h, root, p, n, x, q[..m]) {
      s := ShortestAlias(h, root, p, n, x, q[..m]);
    } else {
      s := q;
    }
  }

  lemma AliasAvoidsSlot<Id>(h: Heap<Id>, root: Value<Id>, p: Path, n: nat, x: Id, q: Path)
    requires Slot(h, root, p, n, x) && ShortAlias(h, root, p, n, x, q)
    ensures !Passes(h, root, q, x, p[n])
  {
    assert n + 1 == |p| ==> p == p[..n] + [p[n]];
    if Passes(h, root, q, x, p[n]) {
      var m := FirstPass(h, root, q, x, p[n]);
      assert q[..m] <= q;
      assert q[..m] == p[..n];
      assert q == p[..n] + ([p[n]] + q[n + 1..]);
      if n + 1 < |p| {
        NothingBeyond(h, root, p, n, x, q[n + 1..]);
      }
    }
  }

  lemma AliasReads<Id>(h: Heap<Id>, h': Heap<Id>, root: Value<Id>, p: Path, n: nat, x: Id, v: Value<Id>, q: Path)
    requires Closed(h) && Held(h, root) && Slot(h, root, p, n, x) && Differ(h, h', x, p[n])
    requires ShortAlias(h, root, p, n, x, q) && Landed(h, h', x, p, n, v, p[n + 1..])
    ensures At(h', root, q + p[n..]) == Some(v)
  {
    AliasAvoidsSlot(h, root, p, n, x, q);
    SameAt(h, h', x, p[n], root, q);
    assert p[n..] == [p[n]] + p[n + 1..];
    AtThrough(h', root, q, [p[n]] + p[n + 1..]);
    ReadField(h', x, p[n], p[n + 1..]);
    assert p[n + 1..][|p| - n - 1..] == [];
  }

  lemma AliasIsApart<Id>(h: Heap<Id>, root: Value<Id>, p: Path, n: nat, x: Id, q: Path)
    requires Slot(h, root, p, n, x) && Alias(h, root, p, n, x, q)
    requires forall m :: 0 <= m < n ==> At(h, root, p[..m]) != Some(Ref(x))
    ensures Apart(p, q)
  {
    if q <= p {
      assert q == p[..|q|];
      if |q| > n {
        assert q == p[..n] + ([p[n]] + q[n + 1..]);
        NothingBeyond(h, root, p, n, x, q[n + 1..]);
      }
    }
  }

  /** The path visits the object that the write changes once only. */
  ghost predicate VisitsOnce<Id>(h: Heap<Id>, root: Id, p: Path)
    requires root in h && p != [] && Closed(h)
  {
    forall m :: 0 <= m < Depth(h, root, p) ==> At(h, Ref(root), p[..m]) != Some(Ref(Holder(h, root, p)))
  }

  lemma AliasBreaks<Id>(h: Heap<Id>, root: Id, p: Path, made: seq<Id>, q: Path) returns (v: Value<Id>, r: Path)
    requires root in h && p != [] && Closed(h) && Enough(h, root, p, made) && VisitsOnce(h, root, p)
    requires Alias(h, Ref(root), p, Depth(h, root, p), Holder(h, root, p), q)
    ensures Held(h, v) && Apart(p, r)
    ensures At(Write(h, root, p, v, made), Ref(root), r) != At(h, Ref(root), r)
  {
    var n, x := Depth(h, root, p), Holder(h, root, p);
    var s := ShortestAlias(h, Ref(root), p, n, x, q);
    r := s + p[n..];
    v := Plain(if At(h, Ref(root), r) == Some(Plain("a")) then "b" else "a");
    Wrote(h, root, p, v, made, p[n + 1..]);
    AliasIsApart(h, Ref(root), p, n, x, s);
    AliasReads(h, Write(h, root, p, v, made), Ref(root), p, n, x, v, s);
  }

  /** A write leaves every path apart from it as it was, whatever is written, exactly when no other path leads to the
      object that it changes. */
  lemma LocalIffAlone<Id>(h: Heap<Id>, root: Id, p: Path, made: seq<Id>)
    requires root in h && p != [] && Closed(h) && Enough(h, root, p, made) && VisitsOnce(h, root, p)
    ensures Alone(h, root, p) <==>
      forall v, q | Held(h, v) && Apart(p, q) :: At(Write(h, root, p, v, made), Ref(root), q) == At(h, Ref(root), q)
  {
    if Alone(h, root, p) {
      forall v, q | Held(h, v) && Apart(p, q)
        ensures At(Write(h, root, p, v, made), Ref(root), q) == At(h, Ref(root), q)
      {
        ApartReadsAsBefore(h, root, p, v, made, q);
      }
    } else {
      var q :| At(h, Ref(root), q) == Some(Ref(Holder(h, root, p))) && q != p[..Depth(h, root, p)] && !(p <= q);
      var v, r := AliasBreaks(h, root, p, made, q);
    }
  }

  // ---- Objects ----

  class Object {
    var fields: map<string, Value<Object>>

    constructor ()
      ensures fields == map[]
    {
      fields := map[];
    }
  }

  ghost function Snapshot(objects: set<Object>): Heap<Object>
    reads objects
  {
    map o | o in objects :: o.fields
  }

  /** The source's `resolve_field`. */
  method ResolveField(v: Value<Object>, path: Path, ghost objects: set<Object>) returns (r: Option<Value<Object>>)
    requires Closed(Snapshot(objects)) && Held(Snapshot(objects), v)
    ensures r == At(Snapshot(objects), v, path)
  {
    var current := v;
    assert path[0..] == path;
    for i := 0 to |path|
      invariant Held(Snapshot(objects), current)
      invariant At(Snapshot(objects), v, path) == At(Snapshot(objects), current, path[i..])
    {
      assert path[i..][1..] == path[i + 1..];
      if current.Plain? || path[i] !in current.id.fields {
        return None;
      }
      assert current.id.fields == Snapshot(objects)[current.id];
      current := current.id.fields[path[i]];
    }
    r := Some(current);
  }

  ghost function Elements<T>(s: seq<T>): set<T> {
    set x | x in s
  }

  lemma ElementsSum<T>(a: seq<T>, b: seq<T>)
    ensures Elements(a + b) == Elements(a) + Elements(b)
  {
  }

  method SetField(o: Object, key: string, v: Value<Object>, ghost objects: set<Object>)
    requires o in objects
    modifies o
    ensures Snapshot(objects) == old(Snapshot(objects))[o := old(Snapshot(objects))[o][key := v]]
  {
    o.fields := o.fields[key := v];
  }

  /** The way down by one key: to the object that is there, or to a new one. */
  ghost predicate Down<Id>(h: Heap<Id>, h': Heap<Id>, o: Id, key: string, next: Id, made: seq<Id>) {
    && o in h
    && if key in h[o] && h[o][key].Ref? then h' == h && next == h[o][key].id && made == []
       else made == [next] && next !in h && h' == h[o := h[o][key := Ref(next)]][next := map[]]
  }

  lemma DownIsWrite<Id>(h: Heap<Id>, h': Heap<Id>, o: Id, path: Path, v: Value<Id>, next: Id, made: seq<Id>,
                        rest: seq<Id>)
    requires Closed(h) && |path| > 1 && Down(h, h', o, path[0], next, made)
    ensures next in h' && Write(h, o, path, v, made + rest) == Write(h', next, path[1..], v, rest)
    ensures Enough(h, o, path, made + rest) == Enough(h', next, path[1..], rest)
  {
    if made == [] {
      assert made + rest == rest;
    } else {
      assert (made + rest)[1..] == rest;
    }
  }

  method Descend(o: Object, key: string, ghost objects: set<Object>) returns (next: Object, ghost made: seq<Object>)
    requires o in objects && Closed(Snapshot(objects))
    modifies o
    ensures fresh(Elements(made)) && next in objects + Elements(made)
    ensures Closed(Snapshot(objects + Elements(made)))
    ensures Down(old(Snapshot(objects)), Snapshot(objects + Elements(made)), o, key, next, made)
  {
    ghost var h := Snapshot(objects);
    assert h[o] == o.fields;
    if key !in o.fields || o.fields[key].Plain? {
      next := new Object();
      o.fields := o.fields[key := Ref(next)];
      made := [next];
      assert Snapshot(objects + Elements(made)) == h[o := h[o][key := Ref(next)]][next := map[]];
    } else {
      next := o.fields[key].id;
      made := [];
      assert objects + Elements(made) == objects;
    }
  }

  function Flatten<T>(lists: seq<seq<T>>): seq<T> {
    if lists == [] then [] else lists[0] + Flatten(lists[1..])
  }

  lemma {:induction false} FlattenSnoc<T>(lists: seq<seq<T>>, last: seq<T>)
    ensures Flatten(lists + [last]) == Flatten(lists) + last
  {
    if lists == [] {
      assert lists + [last] == [last];
    } else {
      assert (lists + [last])[1..] == lists[1..] + [last];
      FlattenSnoc(lists[1..], last);
    }
  }

  /** The heaps and objects on the way down the first keys of a path. */
  ghost predicate WayDown<Id>(heaps: seq<Heap<Id>>, objects: seq<Id>, path: Path, made: seq<seq<Id>>) {
    && |heaps| == |objects| == |made| + 1 <= |path|
    && forall i :: 0 <= i < |made| ==>
         Closed(heaps[i]) && Down(heaps[i], heaps[i + 1], objects[i], path[i], objects[i + 1], made[i])
  }

  lemma {:induction false} WayDownIsWrite<Id>(heaps: seq<Heap<Id>>, objects: seq<Id>, path: Path, v: Value<Id>,
                                              made: seq<seq<Id>>)
    requires WayDown(heaps, objects, path, made) && |made| == |path| - 1
    requires objects[|made|] in heaps[|made|]
    ensures objects[0] in heaps[0] && Enough(heaps[0], objects[0], path, Flatten(made))
    ensures
      var h, o := heaps[|made|], objects[|made|];
      Write(heaps[0], objects[0], path, v, Flatten(made)) == h[o := h[o][path[|path| - 1] := v]]
    decreases |path|
  {
    if made != [] {
      assert WayDown(heaps[1..], objects[1..], path[1..], made[1..]);
      WayDownIsWrite(heaps[1..], objects[1..], path[1..], v, made[1..]);
      DownIsWrite(heaps[0], heaps[1], objects[0], path, v, objects[1], made[0], Flatten(made[1..]));
    }
  }

  /** The source's `set_nested_field`: writes a value at a path, putting new objects in place of what has no fields. */
  method SetNestedField(o: Object, path: Path, v: Value<Object>, ghost objects: set<Object>)
    returns (ghost made: seq<Object>)
    requires o in objects && path != [] && Closed(Snapshot(objects)) && Held(Snapshot(objects), v)
    modifies objects
    ensures fresh(Elements(made)) && Enough(old(Snapshot(objects)), o, path, made)
    ensures Snapshot(objects + Elements(made)) == Write(old(Snapshot(objects)), o, path, v, made)
  {
    var current := o;
    ghost var heaps, way, steps := [Snapshot(objects)], [o], [];
    made := [];
    assert objects + Elements(made) == objects;
    for i := 0 to |path| - 1
      invariant current in objects + Elements(made) && fresh(Elements(made)) && made == Flatten(steps)
      invariant |steps| == i && WayDown(heaps, way, path, steps)
      invariant heaps[0] == old(Snapshot(objects)) && way[0] == o
      invariant heaps[i] == Snapshot(objects + Elements(made)) && way[i] == current && Closed(heaps[i])
    {
      ghost var all := objects + Elements(made);
      var next;
      ghost var step;
      next, step := Descend(current, path[i], all);
      ElementsSum(made, step);
      assert objects + Elements(made + step) == all + Elements(step);
      FlattenSnoc(steps, step);
      current, made, steps := next, made + step, steps + [step];
      heaps, way := heaps + [Snapshot(all + Elements(step))], way + [next];
    }
    WayDownIsWrite(heaps, way, path, v, steps);
    SetField(current, path[|path| - 1], v, objects + Elements(made));
  }
}
