/** Reading and writing nested fields: what a write changes, and what it leaves alone. */
module FieldPaths {
  import opened WorkflowNode

  /** A value: something without fields, or an object. */
  datatype Tree = Leaf(text: string) | Branch(fields: map<string, Tree>)

  type Path = seq<string>

  function Get(t: Tree, path: Path): Option<Tree> {
    if path == [] then Some(t)
    else if t.Leaf? || path[0] !in t.fields then None
    else Get(t.fields[path[0]], path[1..])
  }

  /** The object under a key, or a new one where there is none. */
  function Under(t: Tree, key: string): (u: Tree)
    requires t.Branch?
    ensures u.Branch?
  {
    if key in t.fields && t.fields[key].Branch? then t.fields[key] else Branch(map[])
  }

  function Put(t: Tree, path: Path, v: Tree): (r: Tree)
    requires t.Branch? && path != []
    ensures r.Branch?
    decreases |path|
  {
    Branch(t.fields[path[0] := if |path| == 1 then v else Put(Under(t, path[0]), path[1..], v)])
  }

  predicate Apart(p: Path, q: Path) {
    !(p <= q) && !(q <= p)
  }

  lemma {:induction false} GetThrough(t: Tree, p: Path, q: Path)
    ensures Get(t, p + q) == match Get(t, p) case Some(u) => Get(u, q) case None => None
    decreases |p|
  {
    if p == [] {
      assert p + q == q;
    } else {
      assert (p + q)[1..] == p[1..] + q;
      if t.Branch? && p[0] in t.fields {
        GetThrough(t.fields[p[0]], p[1..], q);
      }
    }
  }

  /** The written path, and any path below it, reads what was written. */
  lemma {:induction false} GetWritten(t: Tree, p: Path, v: Tree, below: Path)
    requires t.Branch? && p != []
    ensures Get(Put(t, p, v), p + below) == Get(v, below)
    decreases |p|
  {
    assert (p + below)[1..] == p[1..] + below;
    if |p| == 1 {
      assert p[1..] + below == below;
    } else {
      GetWritten(Under(t, p[0]), p[1..], v, below);
    }
  }

  /** A path apart from the written one reads what it read before, even through a value replaced by an object. */
  lemma {:induction false} GetElsewhere(t: Tree, p: Path, v: Tree, q: Path)
    requires t.Branch? && p != [] && Apart(p, q)
    ensures Get(Put(t, p, v), q) == Get(t, q)
    decreases |p|
  {
    if p[0] == q[0] {
      assert p == [p[0]] + p[1..] && q == [q[0]] + q[1..];
      if |p| > 1 {
        GetElsewhere(Under(t, p[0]), p[1..], v, q[1..]);
      }
    }
  }

  /** A path above the written one reads the object there with the rest of the path written, as if on its own. */
  lemma {:induction false} GetAbove(t: Tree, p: Path, v: Tree, q: Path)
    requires t.Branch? && q < p
    ensures Get(Put(t, p, v), q) ==
      Some(Put(match Get(t, q) case Some(u) => (if u.Branch? then u else Branch(map[])) case None => Branch(map[]),
        p[|q|..], v))
    decreases |p|
  {
    if q != [] {
      assert p[0] == q[0] && q[1..] < p[1..] && p[1..][|q| - 1..] == p[|q|..];
      GetAbove(Under(t, p[0]), p[1..], v, q[1..]);
      if q[0] in t.fields && t.fields[q[0]].Leaf? {
        assert Under(t, q[0]) == Branch(map[]);
      }
    } else {
      assert p[0..] == p;
    }
  }

  /** The second of two writes to one path wins. */
  lemma {:induction false} PutTwice(t: Tree, p: Path, v: Tree, w: Tree)
    requires t.Branch? && p != []
    ensures Put(Put(t, p, v), p, w) == Put(t, p, w)
    decreases |p|
  {
    if |p| > 1 {
      PutTwice(Under(t, p[0]), p[1..], v, w);
    }
  }

  /** Writing back what is there changes nothing. */
  lemma {:induction false} PutWhatIsThere(t: Tree, p: Path, v: Tree)
    requires t.Branch? && p != [] && Get(t, p) == Some(v)
    ensures Put(t, p, v) == t
    decreases |p|
  {
    if |p| > 1 {
      assert Get(t.fields[p[0]], p[1..]) == Some(v) && t.fields[p[0]].Branch?;
      PutWhatIsThere(t.fields[p[0]], p[1..], v);
    } else {
      assert p[1..] == [];
    }
    assert t.fields[p[0] := t.fields[p[0]]] == t.fields;
  }

  /** Writes to paths apart from each other may be done in either order. */
  lemma {:induction false} PutsCommute(t: Tree, p: Path, v: Tree, q: Path, w: Tree)
    requires t.Branch? && p != [] && q != [] && Apart(p, q)
    ensures Put(Put(t, p, v), q, w) == Put(Put(t, q, w), p, v)
    decreases |p|
  {
    assert p == [p[0]] + p[1..] && q == [q[0]] + q[1..];
    var k, l := p[0], q[0];
    if k == l {
      assert |p| > 1 && |q| > 1;
      PutsCommute(Under(t, k), p[1..], v, q[1..], w);
      var u := Under(t, k);
      assert Under(Put(t, p, v), k) == Put(u, p[1..], v) && Under(Put(t, q, w), k) == Put(u, q[1..], w);
      UpdateTwice(t.fields, k, Put(u, p[1..], v), Put(Put(u, p[1..], v), q[1..], w));
      UpdateTwice(t.fields, k, Put(u, q[1..], w), Put(Put(u, q[1..], w), p[1..], v));
    } else {
      var a, b := Put(t, p, v).fields[k], Put(t, q, w).fields[l];
      assert t.fields[k := a][l := b] == t.fields[l := b][k := a];
    }
  }

  lemma UpdateTwice<K, V>(m: map<K, V>, k: K, v: V, w: V)
    ensures m[k := v][k := w] == m[k := w]
  {
  }
}
