/** The value handle. A document owns one tree; a handle names one node of
    it by its path from the root. Navigation returns handles into the same
    document (they alias), assignment copies a node's content into the
    receiver's place (it never aliases). */
module Handles {
  import opened JsonTree
  import opened NodeOps

  /** One document: the arena that owns a tree, shared by every handle into it. */
  class Doc {
    var root: Json

    constructor (root: Json)
      ensures this.root == root
    {
      this.root := root;
    }
  }

  /** The two type tags a handle can be reset to. */
  datatype ValueType = NullValue | ArrayValue

  /** `Value()`: a private document holding a single Null node. */
  method NewValue() returns (v: Value)
    ensures fresh(v.doc) && v.path == [] && v.doc.root == Null
    ensures v.Valid() && v.Node() == Null
  {
    var d := new Doc(Null);
    v := Value(d, []);
  }

  /** `Value(ValueType)`: a private document holding an empty array, whatever
      the tag. */
  method NewFromType(t: ValueType) returns (v: Value)
    ensures fresh(v.doc) && v.path == [] && v.doc.root == Arr([])
    ensures v.Valid() && v.Node() == Arr([])
  {
    v := NewValue();
    v.Replace(Arr([]));
  }

  /** `Value(ValueType)` as the tag evidently intends: the node `= t` would give. */
  method NewFromTypeIntended(t: ValueType) returns (v: Value)
    ensures fresh(v.doc) && v.path == []
    ensures v.Valid() && v.Node() == (if t == NullValue then Null else Arr([]))
  {
    v := NewValue();
    v.AssignType(t);
  }

  /** `Value(const std::string&)`: a private document holding the string, up
      to its first NUL. */
  method NewFromString(s: string) returns (v: Value)
    ensures fresh(v.doc) && v.path == [] && v.doc.root == Str(CString(s))
    ensures v.Valid() && AsString(v.Node()) == CString(s)
  {
    v := NewValue();
    v.AssignCString(Some(s));
  }

  /** The copy constructor: a private Null document, then copy assignment. */
  method CopyOf(other: Value) returns (v: Value)
    requires other.Valid()
    ensures fresh(v.doc) && v.path == [] && v.doc.root == other.Node()
    ensures v.Valid() && v.Node() == other.Node()
  {
    v := NewValue();
    v.Assign(other);
  }

  /** A handle: the node at `path` inside `doc`. Two handles alias exactly
      when they have the same document and the same path. */
  datatype Value = Value(doc: Doc, path: Path) {

    /** The path still names a node of the document. */
    predicate Valid()
      reads doc
    {
      At(doc.root, path).Some?
    }

    /** The node this handle names. */
    function Node(): Json
      reads doc
      requires Valid()
    {
      At(doc.root, path).value
    }

    /** Replaces the named node in place; the handle keeps its position. */
    method Replace(n: Json)
      requires Valid()
      modifies doc
      ensures doc.root == Put(old(doc.root), path, n)
      ensures Valid() && Node() == n
    {
      AtPut(doc.root, path, n);
      doc.root := Put(doc.root, path, n);
    }

    /** The mutating `operator[](name)`: a Null node becomes an object, an
        absent name is added at the end bound to Null, and the result aliases
        that member. The engine asserts a Null or object receiver. */
    method Member(name: string) returns (m: Value)
      requires Valid() && (Node().Null? || Node().Obj?)
      modifies doc
      ensures doc.root == Put(old(doc.root), path, WithMember(old(Node()), CString(name)))
      ensures Valid() && Node().Obj?
      ensures m == Value(doc, path + [Key(CString(name))]) && m.Valid()
      ensures m.Node() == old(if Child(Node(), Key(CString(name))).Some?
                              then Child(Node(), Key(CString(name))).value else Null)
    {
      var k := CString(name);
      var n := WithMember(Node(), k);
      ghost var before := doc.root;
      Replace(n);
      m := Value(doc, path + [Key(k)]);
      AtPutBelow(before, path, [Key(k)], n);
    }

    /** The const `operator[](name)`: still turns a Null node into an empty
        object, aliases a present member, and for an absent name returns a
        fresh detached Null handle without adding the name. */
    method ConstMember(name: string) returns (m: Value)
      requires Valid() && (Node().Null? || Node().Obj?)
      modifies doc
      ensures doc.root == Put(old(doc.root), path, if old(Node()).Null? then Obj([]) else old(Node()))
      ensures Valid() && Node().Obj? && MembersOf(Node()) == MembersOf(old(Node()))
      ensures old(Child(Node(), Key(CString(name)))).None? ==>
        fresh(m.doc) && m.path == [] && m.doc.root == Null && m.Valid()
      ensures old(Child(Node(), Key(CString(name)))).Some? ==>
        m == Value(doc, path + [Key(CString(name))]) && m.Valid() &&
        m.Node() == old(Child(Node(), Key(CString(name)))).value
    {
      var k := CString(name);
      if Node().Null? {
        Replace(Obj([]));
      } else {
        PutAt(doc.root, path);
      }
      if Child(Node(), Key(k)).Some? {
        m := Value(doc, path + [Key(k)]);
        AtAppend(doc.root, path, [Key(k)]);
      } else {
        m := NewValue();
      }
    }

    /** `operator[](index)`, const or not: aliases the element. The engine
        asserts an array receiver and an index in range; nothing extends the
        array. */
    method Index(index: uint32) returns (e: Value)
      requires Valid() && Node().Arr? && index < |Node().elems|
      ensures e == Value(doc, path + [Idx(index)])
      ensures e.Valid() && e.Node() == Node().elems[index]
    {
      e := Value(doc, path + [Idx(index)]);
      AtAppend(doc.root, path, [Idx(index)]);
    }

    /** The index write the tests rely on: make the node an array, pad it with
        Nulls up to `index`, then alias the element. */
    method IndexOrGrow(index: uint32) returns (e: Value)
      requires Valid()
      modifies doc
      ensures doc.root == Put(old(doc.root), path, Grown(old(Node()), index))
      ensures Valid() && Node().Arr? && index < |Node().elems|
      ensures e == Value(doc, path + [Idx(index)]) && e.Valid()
      ensures e.Node() == if index < Size(old(Node())) then old(Node()).elems[index] else Null
    {
      var n := Grown(Node(), index);
      Replace(n);
      e := Index(index);
    }

    /** Copy assignment: the receiver's node becomes a copy of `src`'s node,
        in the receiver's own place. A source in another document, or in a
        place that parts ways with the receiver's, is left as it was. The
        engine's copy asserts that a node is not copied onto itself. */
    method Assign(src: Value)
      requires Valid() && src.Valid() && src != this
      modifies doc
      ensures doc.root == Put(old(doc.root), path, old(src.Node()))
      ensures Valid() && Node() == old(src.Node())
      ensures src.doc != doc || Disjoint(path, src.path) ==>
        src.Valid() && src.Node() == old(src.Node())
    {
      var n := src.Node();
      if src.doc == doc && Disjoint(path, src.path) {
        AtPutDisjoint(doc.root, path, src.path, n);
      }
      Replace(n);
    }

    /** `operator=(ValueType)`: nullValue gives Null, arrayValue an empty array. */
    method AssignType(t: ValueType)
      requires Valid()
      modifies doc
      ensures doc.root == Put(old(doc.root), path, if t == NullValue then Null else Arr([]))
      ensures Valid() && Empty(Node()) && (IsNull(Node()) <==> t == NullValue)
    {
      match t
      case NullValue => Replace(Null);
      case ArrayValue => Replace(Arr([]));
    }

    /** `operator=(const char*)`: a null pointer leaves the node unchanged;
        otherwise the node becomes the string up to its first NUL. */
    method AssignCString(s: Option<string>)
      requires Valid()
      modifies doc
      ensures s.None? ==> doc.root == old(doc.root)
      ensures s.Some? ==> doc.root == Put(old(doc.root), path, Str(CString(s.value)))
      ensures Valid() && (s.Some? ==> Node() == Str(CString(s.value)))
    {
      if s.Some? {
        Replace(Str(CString(s.value)));
      }
    }

    /** `operator=(int)`. */
    method AssignInt(x: int32)
      requires Valid()
      modifies doc
      ensures doc.root == Put(old(doc.root), path, Int(x))
      ensures Valid() && Node() == Int(x)
    {
      Replace(Int(x));
    }

    /** `operator=(unsigned int)`. */
    method AssignUInt(x: uint32)
      requires Valid()
      modifies doc
      ensures doc.root == Put(old(doc.root), path, Uint(x))
      ensures Valid() && Node() == Uint(x)
    {
      Replace(Uint(x));
    }

    /** `operator=(long long)`. */
    method AssignInt64(x: int64)
      requires Valid()
      modifies doc
      ensures doc.root == Put(old(doc.root), path, Int64(x))
      ensures Valid() && Node() == Int64(x)
    {
      Replace(Int64(x));
    }

    /** `operator=(bool)`. */
    method AssignBool(x: bool)
      requires Valid()
      modifies doc
      ensures doc.root == Put(old(doc.root), path, Bool(x))
      ensures Valid() && Node() == Bool(x)
    {
      Replace(Bool(x));
    }

    /** `operator=(float)`. */
    method AssignFloat(x: bv32)
      requires Valid()
      modifies doc
      ensures doc.root == Put(old(doc.root), path, Float(x))
      ensures Valid() && Node() == Float(x)
    {
      Replace(Float(x));
    }

    /** `operator=(double)`. */
    method AssignDouble(x: bv64)
      requires Valid()
      modifies doc
      ensures doc.root == Put(old(doc.root), path, Double(x))
      ensures Valid() && Node() == Double(x)
    {
      Replace(Double(x));
    }

    /** What `append` copies: the node `other` names once this node has been
        reset to an array. When that reset removed `other`'s place (it lay
        inside a non-array receiver), the copy reads the old node, since the
        engine's pool allocator does not free the storage the reset drops. */
    function AppendSource(other: Value): (r: Json)
      reads doc, other.doc
      requires Valid() && other.Valid()
      ensures other.doc != doc ==> r == other.Node()
      ensures other.doc == doc && At(Put(doc.root, path, ArrayReset(Node())), other.path).Some? ==>
        r == At(Put(doc.root, path, ArrayReset(Node())), other.path).value
      ensures other.doc == doc && Node().Arr? ==> r == other.Node()
    {
      PutAt(doc.root, path);
      if other.doc == doc && At(Put(doc.root, path, ArrayReset(Node())), other.path).Some? then
        At(Put(doc.root, path, ArrayReset(Node())), other.path).value
      else other.Node()
    }

    /** `append(other)`: a non-array receiver first becomes an empty array
        (its content is discarded), then a copy of `other` is added as the
        last element. Returns the receiver, for chaining. */
    method Append(other: Value) returns (self: Value)
      requires Valid() && other.Valid()
      modifies doc
      ensures self == this
      ensures doc.root == Put(old(doc.root), path, Appended(old(Node()), old(AppendSource(other))))
      ensures Valid() && Node().Arr? && Size(Node()) == Size(old(Node())) + 1
      ensures Node().elems[..Size(old(Node()))] == ElemsOf(old(Node()))
      ensures Node().elems[Size(old(Node()))] == old(AppendSource(other))
    {
      ghost var before := doc.root;
      var n := Node();
      var stored := other.Node();
      if !n.Arr? {
        Replace(Arr([]));
      } else {
        PutAt(doc.root, path);
      }
      assert doc.root == Put(before, path, ArrayReset(n));
      var x := if other.doc == doc && At(doc.root, other.path).Some? then At(doc.root, other.path).value
               else stored;
      assert Appended(ArrayReset(n), x) == Appended(n, x);
      Replace(Appended(n, x));
      PutPut(before, path, ArrayReset(n), Appended(n, x));
      self := this;
    }

    /** `clear`: arrays and objects lose all children, other nodes stay. */
    method Clear()
      requires Valid()
      modifies doc
      ensures doc.root == Put(old(doc.root), path, Cleared(old(Node())))
      ensures Valid() && Node() == Cleared(old(Node()))
      ensures old(Node()).Arr? || old(Node()).Obj? ==> Empty(Node())
    {
      var n := Node();
      if n.Arr? {
        Replace(Arr([]));
      } else if n.Obj? {
        Replace(Obj([]));
      } else {
        PutAt(doc.root, path);
      }
    }

    /** `swap(other)`: the two nodes exchange content in place; each handle
        keeps its position. Within one document the two places must not
        contain one another. */
    method Swap(other: Value)
      requires Valid() && other.Valid()
      requires other.doc == doc ==> path == other.path || Disjoint(path, other.path)
      modifies doc, other.doc
      ensures other.doc != doc ==>
        doc.root == Put(old(doc.root), path, old(other.Node())) &&
        other.doc.root == Put(old(other.doc.root), other.path, old(Node()))
      ensures other.doc == doc && path != other.path ==>
        doc.root == SwapAt(old(doc.root), path, other.path)
      ensures other.doc == doc && path == other.path ==> doc.root == old(doc.root)
      ensures Valid() && other.Valid()
      ensures Node() == old(other.Node()) && other.Node() == old(Node())
    {
      ghost var before := doc.root;
      var a, b := Node(), other.Node();
      if other.doc != doc {
        Replace(b);
        other.Replace(a);
      } else if path == other.path {
        PutAt(doc.root, path);
      } else {
        AtPutDisjoint(doc.root, path, other.path, b);
        Replace(b);
        other.Replace(a);
        assert doc.root == SwapAt(before, path, other.path);
      }
    }

    /** `begin()`: a cursor on the first element. The engine asserts an array. */
    method Begin() returns (it: Iterator)
      requires Valid() && Node().Arr?
      ensures fresh(it) && it.doc == doc && it.path == path && it.pos == 0 && it.Valid()
    {
      it := new Iterator(doc, path, 0);
    }

    /** `end()`: a cursor one past the last element. */
    method End() returns (it: Iterator)
      requires Valid() && Node().Arr?
      ensures fresh(it) && it.doc == doc && it.path == path && it.pos == |Node().elems|
      ensures it.Valid()
    {
      it := new Iterator(doc, path, |Node().elems|);
    }
  }

  /** A cursor over an array's elements. Copies of an iterator share one
      cursor, so it is an object. */
  class Iterator {
    const doc: Doc
    const path: Path
    var pos: nat

    constructor (doc: Doc, path: Path, pos: nat)
      ensures this.doc == doc && this.path == path && this.pos == pos
    {
      this.doc := doc;
      this.path := path;
      this.pos := pos;
    }

    /** The container is still an array and the cursor is on an element or
        one past the last. */
    predicate Valid()
      reads this, doc
    {
      At(doc.root, path).Some? && At(doc.root, path).value.Arr? &&
      pos <= |At(doc.root, path).value.elems|
    }

    /** The elements of the array being traversed. */
    function Elems(): seq<Json>
      reads this, doc
      requires Valid()
    {
      At(doc.root, path).value.elems
    }

    /** `++`, prefix and postfix alike: advances the shared cursor and returns
        this same iterator. Advancing from the last element reaches the end. */
    method Next() returns (self: Iterator)
      requires Valid() && pos < |Elems()|
      modifies this
      ensures self == this && pos == old(pos) + 1 && Valid()
    {
      pos := pos + 1;
      self := this;
    }

    /** `--`, prefix and postfix alike: steps the shared cursor back. */
    method Prev() returns (self: Iterator)
      requires Valid() && 0 < pos
      modifies this
      ensures self == this && pos == old(pos) - 1 && Valid()
    {
      pos := pos - 1;
      self := this;
    }

    /** `operator*`: a handle aliasing the current element. */
    method Deref() returns (v: Value)
      requires Valid() && pos < |Elems()|
      ensures v == Value(doc, path + [Idx(pos)])
      ensures v.Valid() && v.Node() == Elems()[pos]
    {
      v := Value(doc, path + [Idx(pos)]);
      AtAppend(doc.root, path, [Idx(pos)]);
    }

    /** `==` (and `!=` as its negation): the two cursors point at the same
        element slot, so on an element they dereference to the same node. */
    function Equals(other: Iterator): (r: bool)
      reads this, other, doc, other.doc
      ensures r && Valid() && pos < |Elems()| ==>
        other.Valid() && other.pos < |other.Elems()| && other.Elems()[other.pos] == Elems()[pos]
    {
      doc == other.doc && path == other.path && pos == other.pos
    }
  }

  /** `Reader::parse`: parses the text up to its first NUL with the engine's
      parser; on success the receiver's node becomes a copy of the parsed
      root (through a temporary handle on the parsed document), on failure
      it is left untouched. */
  method Parse(parser: string -> Option<Json>, data: string, node: Value) returns (ok: bool)
    requires node.Valid()
    modifies node.doc
    ensures ok <==> parser(CString(data)).Some?
    ensures ok ==> node.doc.root == Put(old(node.doc.root), node.path, parser(CString(data)).value)
    ensures !ok ==> node.doc.root == old(node.doc.root)
    ensures node.Valid()
  {
    var parsed := parser(CString(data));
    if parsed.Some? {
      var document := new Doc(parsed.value);
      node.Assign(Value(document, []));
      ok := true;
    } else {
      ok := false;
    }
  }
}
