/** The tree a document owns: JSON nodes, paths that name a node inside a
    tree, and reading and replacing the node a path names. A handle is a
    document plus a path, so everything about aliasing between handles is a
    statement about At and Put on paths. */
module JsonTree {

  datatype Option<T> = None | Some(value: T)

  /** The widths of the C++ integer types the setters take. */
  type int32 = x: int | -0x8000_0000 <= x < 0x8000_0000
  type uint32 = x: int | 0 <= x < 0x1_0000_0000
  type int64 = x: int | -0x8000_0000_0000_0000 <= x < 0x8000_0000_0000_0000

  /** One node; exactly one variant is active. Float and Double carry the
      IEEE-754 bit pattern of the stored number, treated as an opaque token.
      Object members are kept in insertion order. */
  datatype Json =
    | Null
    | Bool(b: bool)
    | Int(i: int32)
    | Uint(u: uint32)
    | Int64(l: int64)
    | Float(fbits: bv32)
    | Double(dbits: bv64)
    | Str(chars: string)
    | Arr(elems: seq<Json>)
    | Obj(members: seq<(string, Json)>)

  /** One navigation step of a handle: a member name or an array index. */
  datatype Step = Key(name: string) | Idx(index: nat)

  type Path = seq<Step>

  /** The characters a C string pointer denotes: everything before the first
      NUL. Names and texts reach the document through `c_str()`, so a text
      without NUL passes whole. */
  function CString(s: string): (r: string)
    ensures r <= s
    ensures '\0' !in r
    ensures |r| < |s| ==> s[|r|] == '\0'
    ensures '\0' !in s ==> r == s
  {
    if '\0' in s then s[..FirstNul(s)] else s
  }

  /** The position of the first NUL. */
  function FirstNul(s: string): (i: nat)
    requires '\0' in s
    ensures i < |s| && s[i] == '\0' && '\0' !in s[..i]
  {
    if s[0] == '\0' then 0 else 1 + FirstNul(s[1..])
  }

  /** The index of the first member named `k`, scanning in order as the
      engine's member search does. */
  function FindKey(ms: seq<(string, Json)>, k: string): (r: Option<nat>)
    ensures r.Some? ==> r.value < |ms| && ms[r.value].0 == k
    ensures r.Some? ==> forall i :: 0 <= i < r.value ==> ms[i].0 != k
    ensures r.None? <==> forall i :: 0 <= i < |ms| ==> ms[i].0 != k
  {
    if |ms| == 0 then None
    else if ms[0].0 == k then Some(0)
    else match FindKey(ms[1..], k)
      case None => None
      case Some(i) => Some(i + 1)
  }

  /** Member search depends on the names only, not on the values. */
  lemma FindKeySameKeys(ms: seq<(string, Json)>, ns: seq<(string, Json)>)
    requires |ms| == |ns|
    requires forall i :: 0 <= i < |ms| ==> ms[i].0 == ns[i].0
    ensures forall k :: FindKey(ms, k) == FindKey(ns, k)
  {
    forall k ensures FindKey(ms, k) == FindKey(ns, k) {
      var a, b := FindKey(ms, k), FindKey(ns, k);
      if a.Some? {
        assert ns[a.value].0 == k;
      }
      if b.Some? {
        assert ms[b.value].0 == k;
      }
    }
  }

  /** Adding a member at the end does not change where an existing name is found. */
  lemma FindKeyAppend(ms: seq<(string, Json)>, m: (string, Json), k: string)
    ensures FindKey(ms + [m], k) ==
      if FindKey(ms, k).Some? then FindKey(ms, k)
      else if m.0 == k then Some(|ms|)
      else None
  {
    var a, b := FindKey(ms, k), FindKey(ms + [m], k);
    assert forall i :: 0 <= i < |ms| ==> (ms + [m])[i] == ms[i];
    assert (ms + [m])[|ms|] == m;
    if a.Some? {
      assert (ms + [m])[a.value].0 == k;
    }
    if b.Some? && b.value < |ms| {
      assert ms[b.value].0 == k;
    }
  }

  /** The child one step names, if the node has it. */
  function Child(j: Json, s: Step): Option<Json> {
    match s
    case Key(k) =>
      if j.Obj? then
        match FindKey(j.members, k)
        case Some(i) => Some(j.members[i].1)
        case None => None
      else None
    case Idx(i) =>
      if j.Arr? && i < |j.elems| then Some(j.elems[i]) else None
  }

  /** The node with the child that `s` names replaced by `c`, in place. */
  function WithChild(j: Json, s: Step, c: Json): (r: Json)
    requires Child(j, s).Some?
    ensures Child(r, s) == Some(c)
    ensures forall t :: t != s ==> Child(r, t) == Child(j, t)
    ensures Child(j, s) == Some(c) ==> r == j
  {
    match s
    case Key(k) =>
      var i := FindKey(j.members, k).value;
      var ms := j.members[i := (k, c)];
      FindKeySameKeys(j.members, ms);
      Obj(ms)
    case Idx(i) =>
      Arr(j.elems[i := c])
  }

  /** The node a path names inside `j`, or None when the path does not resolve. */
  function At(j: Json, p: Path): Option<Json>
    decreases |p|
  {
    if p == [] then Some(j)
    else match Child(j, p[0])
      case None => None
      case Some(c) => At(c, p[1..])
  }

  /** `j` with the node at `p` replaced by `v`; every other node keeps its place. */
  function Put(j: Json, p: Path, v: Json): Json
    requires At(j, p).Some?
    decreases |p|
  {
    if p == [] then v
    else WithChild(j, p[0], Put(Child(j, p[0]).value, p[1..], v))
  }

  /** Two paths that part ways: neither names a node inside the other's. */
  predicate Disjoint(p: Path, q: Path)
    decreases |p|
  {
    |p| > 0 && |q| > 0 && (p[0] != q[0] || Disjoint(p[1..], q[1..]))
  }

  lemma {:induction false} DisjointSymmetric(p: Path, q: Path)
    requires Disjoint(p, q)
    ensures Disjoint(q, p)
    decreases |p|
  {
    if p[0] == q[0] {
      DisjointSymmetric(p[1..], q[1..]);
    }
  }

  /** A path through `p + r` resolves as `r` from the node `p` names. */
  lemma {:induction false} AtAppend(j: Json, p: Path, r: Path)
    ensures At(j, p + r) == if At(j, p).Some? then At(At(j, p).value, r) else None
    decreases |p|
  {
    if p == [] {
      assert p + r == r;
    } else {
      assert (p + r)[0] == p[0] && (p + r)[1..] == p[1..] + r;
      match Child(j, p[0])
      case None =>
      case Some(c) => AtAppend(c, p[1..], r);
    }
  }

  /** Reading back through the handle that was written observes the write. */
  lemma {:induction false} AtPut(j: Json, p: Path, v: Json)
    requires At(j, p).Some?
    ensures At(Put(j, p, v), p) == Some(v)
    decreases |p|
  {
    if p != [] {
      AtPut(Child(j, p[0]).value, p[1..], v);
    }
  }

  /** A write through one handle is invisible through a handle whose path
      parts ways with it. */
  lemma {:induction false} AtPutDisjoint(j: Json, p: Path, q: Path, v: Json)
    requires At(j, p).Some? && Disjoint(p, q)
    ensures At(Put(j, p, v), q) == At(j, q)
    decreases |p|
  {
    if p[0] == q[0] {
      AtPutDisjoint(Child(j, p[0]).value, p[1..], q[1..], v);
    }
  }

  /** Handles below the written node see the new subtree. */
  lemma AtPutBelow(j: Json, p: Path, r: Path, v: Json)
    requires At(j, p).Some?
    ensures At(Put(j, p, v), p + r) == At(v, r)
  {
    AtPut(j, p, v);
    AtAppend(Put(j, p, v), p, r);
  }

  /** Handles above the written node see it changed inside their subtree. */
  lemma {:induction false} AtPutAbove(j: Json, q: Path, r: Path, v: Json)
    requires At(j, q + r).Some?
    ensures At(j, q).Some? && At(At(j, q).value, r).Some?
    ensures At(Put(j, q + r, v), q) == Some(Put(At(j, q).value, r, v))
    decreases |q|
  {
    AtAppend(j, q, r);
    if q == [] {
      assert q + r == r;
    } else {
      assert (q + r)[0] == q[0] && (q + r)[1..] == q[1..] + r;
      AtPutAbove(Child(j, q[0]).value, q[1..], r, v);
    }
  }

  /** A write through a longer path is a write of the changed subtree through
      its prefix. */
  lemma {:induction false} PutAppend(j: Json, q: Path, r: Path, v: Json)
    requires At(j, q + r).Some?
    ensures At(j, q).Some? && At(At(j, q).value, r).Some?
    ensures Put(j, q + r, v) == Put(j, q, Put(At(j, q).value, r, v))
    decreases |q|
  {
    AtAppend(j, q, r);
    if q == [] {
      assert q + r == r;
    } else {
      assert (q + r)[0] == q[0] && (q + r)[1..] == q[1..] + r;
      PutAppend(Child(j, q[0]).value, q[1..], r, v);
    }
  }

  /** Writing back what is already there changes nothing. */
  lemma {:induction false} PutAt(j: Json, p: Path)
    requires At(j, p).Some?
    ensures Put(j, p, At(j, p).value) == j
    decreases |p|
  {
    if p != [] {
      PutAt(Child(j, p[0]).value, p[1..]);
    }
  }

  lemma WithChildTwice(j: Json, s: Step, a: Json, b: Json)
    requires Child(j, s).Some?
    ensures WithChild(WithChild(j, s, a), s, b) == WithChild(j, s, b)
  {
    match s
    case Key(k) =>
      var i := FindKey(j.members, k).value;
      FindKeySameKeys(j.members, j.members[i := (k, a)]);
      assert j.members[i := (k, a)][i := (k, b)] == j.members[i := (k, b)];
    case Idx(i) =>
      assert j.elems[i := a][i := b] == j.elems[i := b];
  }

  /** The later of two writes to one place wins. */
  lemma {:induction false} PutPut(j: Json, p: Path, a: Json, b: Json)
    requires At(j, p).Some?
    ensures At(Put(j, p, a), p).Some?
    ensures Put(Put(j, p, a), p, b) == Put(j, p, b)
    decreases |p|
  {
    AtPut(j, p, a);
    if p != [] {
      var c := Child(j, p[0]).value;
      PutPut(c, p[1..], a, b);
      WithChildTwice(j, p[0], Put(c, p[1..], a), Put(c, p[1..], b));
    }
  }

  lemma WithChildCommute(j: Json, s: Step, t: Step, a: Json, b: Json)
    requires s != t && Child(j, s).Some? && Child(j, t).Some?
    ensures Child(WithChild(j, s, a), t).Some? && Child(WithChild(j, t, b), s).Some?
    ensures WithChild(WithChild(j, s, a), t, b) == WithChild(WithChild(j, t, b), s, a)
  {
    if j.Obj? {
      var i := FindKey(j.members, s.name).value;
      var k := FindKey(j.members, t.name).value;
      FindKeySameKeys(j.members, j.members[i := (s.name, a)]);
      FindKeySameKeys(j.members, j.members[k := (t.name, b)]);
      assert j.members[i := (s.name, a)][k := (t.name, b)] == j.members[k := (t.name, b)][i := (s.name, a)];
    } else {
      assert j.elems[s.index := a][t.index := b] == j.elems[t.index := b][s.index := a];
    }
  }

  /** Writes through two handles whose paths part ways can be done in either order. */
  lemma {:induction false} PutCommute(j: Json, p: Path, q: Path, a: Json, b: Json)
    requires Disjoint(p, q) && At(j, p).Some? && At(j, q).Some?
    ensures At(Put(j, p, a), q).Some? && At(Put(j, q, b), p).Some?
    ensures Put(Put(j, p, a), q, b) == Put(Put(j, q, b), p, a)
    decreases |p|
  {
    DisjointSymmetric(p, q);
    AtPutDisjoint(j, p, q, a);
    AtPutDisjoint(j, q, p, b);
    var cp, cq := Child(j, p[0]).value, Child(j, q[0]).value;
    if p[0] == q[0] {
      PutCommute(cp, p[1..], q[1..], a, b);
      WithChildTwice(j, p[0], Put(cp, p[1..], a), Put(Put(cp, p[1..], a), q[1..], b));
      WithChildTwice(j, q[0], Put(cq, q[1..], b), Put(Put(cq, q[1..], b), p[1..], a));
    } else {
      WithChildCommute(j, p[0], q[0], Put(cp, p[1..], a), Put(cq, q[1..], b));
    }
  }

  /** The tree with the contents of two places that part ways exchanged. */
  function SwapAt(j: Json, p: Path, q: Path): (r: Json)
    requires Disjoint(p, q) && At(j, p).Some? && At(j, q).Some?
    ensures At(r, p) == At(j, q) && At(r, q) == At(j, p)
  {
    var a, b := At(j, p).value, At(j, q).value;
    DisjointSymmetric(p, q);
    AtPutDisjoint(j, p, q, b);
    AtPut(j, p, b);
    var j1 := Put(j, p, b);
    AtPut(j1, q, a);
    AtPutDisjoint(j1, q, p, a);
    Put(j1, q, a)
  }

  /** Swapping the same two places twice restores the tree. */
  lemma SwapAtTwice(j: Json, p: Path, q: Path)
    requires Disjoint(p, q) && At(j, p).Some? && At(j, q).Some?
    ensures At(SwapAt(j, p, q), p).Some? && At(SwapAt(j, p, q), q).Some?
    ensures SwapAt(SwapAt(j, p, q), p, q) == j
  {
    var a, b := At(j, p).value, At(j, q).value;
    DisjointSymmetric(p, q);
    var x := Put(j, p, b);
    AtPutDisjoint(j, p, q, b);
    var j1 := Put(x, q, a);
    assert j1 == SwapAt(j, p, q);
    // The second swap writes `a` back at p and then `b` back at q.
    AtPut(j, p, b);
    AtPutDisjoint(j1, p, q, a);
    PutCommute(x, q, p, a, a);
    PutPut(j, p, b, a);
    PutAt(j, p);
    PutPut(j, q, a, b);
    PutAt(j, q);
  }

  /** Writing `v` and then writing back the old node restores the tree. */
  lemma PutRestore(j: Json, p: Path, v: Json)
    requires At(j, p).Some?
    ensures At(Put(j, p, v), p).Some?
    ensures Put(Put(j, p, v), p, At(j, p).value) == j
  {
    PutPut(j, p, v, At(j, p).value);
    PutAt(j, p);
  }

  /** No object in the tree has two members of one name. */
  predicate UniqueKeys(ms: seq<(string, Json)>) {
    forall i, k :: 0 <= i < k < |ms| ==> ms[i].0 != ms[k].0
  }

  predicate WellFormed(j: Json) {
    match j
    case Arr(es) => forall i :: 0 <= i < |es| ==> WellFormed(es[i])
    case Obj(ms) => UniqueKeys(ms) && forall i :: 0 <= i < |ms| ==> WellFormed(ms[i].1)
    case _ => true
  }

  /** Every node of a well-formed tree is well-formed. */
  lemma {:induction false} AtWellFormed(j: Json, p: Path)
    requires WellFormed(j) && At(j, p).Some?
    ensures WellFormed(At(j, p).value)
    decreases |p|
  {
    if p != [] {
      AtWellFormed(Child(j, p[0]).value, p[1..]);
    }
  }

  /** Replacing a node by a well-formed one keeps the tree well-formed. */
  lemma {:induction false} PutWellFormed(j: Json, p: Path, v: Json)
    requires WellFormed(j) && WellFormed(v) && At(j, p).Some?
    ensures WellFormed(Put(j, p, v))
    decreases |p|
  {
    if p != [] {
      var c := Child(j, p[0]).value;
      PutWellFormed(c, p[1..], v);
      var r := WithChild(j, p[0], Put(c, p[1..], v));
      if j.Obj? {
        var i := FindKey(j.members, p[0].name).value;
        assert r.members == j.members[i := (p[0].name, Put(c, p[1..], v))];
        assert UniqueKeys(r.members);
      }
    }
  }
}
