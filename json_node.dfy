/** What the value handle's operations do to the single node a handle names:
    the member lookup's auto-vivification, append, clear, and the read-only
    queries (size, empty, the variant predicates and the strict accessors). */
module NodeOps {
  import opened JsonTree

  /** The members of an object node; no members for any other variant. */
  function MembersOf(n: Json): seq<(string, Json)> {
    if n.Obj? then n.members else []
  }

  /** The node after the mutating member lookup of `k` (ValueImpl::getMemberByName):
      a Null node becomes an empty object first, and a name it does not have
      is added at the end, bound to Null. */
  function WithMember(n: Json, k: string): (r: Json)
    requires n.Null? || n.Obj?
    ensures r.Obj?
    ensures Child(n, Key(k)).Some? ==> r == n
    ensures Child(n, Key(k)).None? ==> r.members == MembersOf(n) + [(k, Null)]
    ensures Child(r, Key(k)) == if Child(n, Key(k)).Some? then Child(n, Key(k)) else Some(Null)
    ensures forall k' :: k' != k ==> Child(r, Key(k')) == Child(n, Key(k'))
    ensures UniqueKeys(MembersOf(n)) ==> UniqueKeys(r.members)
  {
    var ms := MembersOf(n);
    forall k' ensures FindKey(ms + [(k, Null)], k') ==
      if FindKey(ms, k').Some? then FindKey(ms, k') else if k == k' then Some(|ms|) else None
    {
      FindKeyAppend(ms, (k, Null), k');
    }
    if FindKey(ms, k).Some? then Obj(ms) else Obj(ms + [(k, Null)])
  }

  /** Member lookup keeps a well-formed node well-formed. */
  lemma WithMemberWellFormed(n: Json, k: string)
    requires n.Null? || n.Obj?
    requires WellFormed(n)
    ensures WellFormed(WithMember(n, k))
  {
    var r := WithMember(n, k);
    var ms := MembersOf(n);
    if Child(n, Key(k)).None? {
      assert forall i :: 0 <= i < |ms| ==> r.members[i] == ms[i];
      assert r.members[|ms|].1 == Null;
    }
  }

  /** The elements of an array node; none for any other variant. */
  function ElemsOf(n: Json): seq<Json> {
    if n.Arr? then n.elems else []
  }

  /** What `append` first turns the receiver into: arrays stay, anything else
      becomes an empty array. */
  function ArrayReset(n: Json): Json {
    if n.Arr? then n else Arr([])
  }

  /** The node after `append(x)`: the old elements (none when the node was not
      an array) followed by `x`. */
  function Appended(n: Json, x: Json): (r: Json)
    ensures r.Arr? && Size(r) == Size(n) + 1
    ensures r.elems[..Size(n)] == ElemsOf(n) && r.elems[Size(n)] == x
  {
    Arr(ElemsOf(n) + [x])
  }

  lemma AppendedWellFormed(n: Json, x: Json)
    requires WellFormed(n) && WellFormed(x)
    ensures WellFormed(Appended(n, x))
  {
    var es := ElemsOf(n) + [x];
    assert forall i :: 0 <= i < |ElemsOf(n)| ==> es[i] == ElemsOf(n)[i];
  }

  /** The corrected index write: a non-array becomes an empty array, which is
      then padded with Nulls so that `index` is in range. */
  function Grown(n: Json, index: nat): (r: Json)
    ensures r.Arr? && index < Size(r)
    ensures Size(r) == if index < Size(n) then Size(n) else index + 1
    ensures r.elems[..Size(n)] == ElemsOf(n)
    ensures forall k :: Size(n) <= k < Size(r) ==> r.elems[k] == Null
  {
    var es := ElemsOf(n);
    if index < |es| then Arr(es) else Arr(es + seq(index + 1 - |es|, _ => Null))
  }

  /** `size`: the element count of an array, 0 for every other variant, so
      an object's members are never counted. */
  function Size(n: Json): (r: nat)
    ensures !n.Arr? ==> r == 0
    ensures r > 0 ==> n.Arr?
  {
    if n.Arr? then |n.elems| else 0
  }

  /** `isNull`: exactly the nodes that are empty without being containers. */
  function IsNull(n: Json): (r: bool)
    ensures r <==> Empty(n) && !n.Arr? && !n.Obj?
    ensures r ==> Size(n) == 0
  {
    n.Null?
  }

  /** `isObject`: an object, whose size reads 0 however many members it has. */
  function IsObject(n: Json): (r: bool)
    ensures r ==> Size(n) == 0 && (Empty(n) <==> |MembersOf(n)| == 0)
    ensures r <==> n == Obj(MembersOf(n))
  {
    n.Obj?
  }

  /** `isArray`: an array, for which `size` and `empty` agree. */
  function IsArray(n: Json): (r: bool)
    ensures r <==> n == Arr(ElemsOf(n))
    ensures r ==> (Empty(n) <==> Size(n) == 0)
  {
    n.Arr?
  }

  /** `isString`: a string, which is never `empty`, not even "". */
  function IsString(n: Json): (r: bool)
    ensures r ==> !Empty(n) && Size(n) == 0
  {
    n.Str?
  }

  /** `isInt`: the node is exactly what `asInt` reads back. */
  function IsInt(n: Json): (r: bool)
    ensures r <==> n == Int(AsInt(n))
    ensures r ==> IsNumeric(n)
  {
    n.Int?
  }

  /** `isNumeric`: the node is exactly what one of the number accessors reads
      back. */
  function IsNumeric(n: Json): (r: bool)
    ensures r <==> n == Int(AsInt(n)) || n == Uint(AsUInt(n)) || n == Int64(AsLargestInt(n)) ||
                   n == Float(AsFloat(n)) || n == Double(AsDouble(n))
    ensures r ==> !Empty(n) && Size(n) == 0
  {
    n.Int? || n.Uint? || n.Int64? || n.Float? || n.Double?
  }

  /** `empty`: no elements for an array, no members for an object, and
      otherwise the same as `isNull`; so exactly three nodes are empty, and
      a scalar such as the number 0 is not one of them. */
  function Empty(n: Json): (r: bool)
    ensures r <==> n == Null || n == Arr([]) || n == Obj([])
  {
    if n.Arr? then |n.elems| == 0
    else if n.Obj? then |n.members| == 0
    else n.Null?
  }

  /** `size` only sees arrays: a non-empty object still has size 0. */
  lemma SizeAndEmpty(n: Json)
    ensures n.Arr? ==> (Size(n) == 0 <==> Empty(n))
    ensures !n.Arr? ==> Size(n) == 0
    ensures Size(n) > 0 ==> !Empty(n)
  {
  }

  /** `isMember`: the receiver has a member of that name. The engine's member
      search asserts an object receiver. */
  function HasMember(n: Json, name: string): (r: bool)
    requires n.Obj?
    ensures r <==> exists i :: 0 <= i < |n.members| && n.members[i].0 == CString(name)
  {
    FindKey(n.members, CString(name)).Some?
  }

  /** `asCString`: the C string of a string node, no pointer otherwise. */
  function AsCString(n: Json): (r: Option<string>)
    ensures r.Some? <==> IsString(n)
    ensures r.Some? ==> r.value == CString(n.chars) && '\0' !in r.value
  {
    if n.Str? then Some(CString(n.chars)) else None
  }

  /** `asString`: built from `asCString`, so "" when the node is not a string. */
  function AsString(n: Json): (r: string)
    ensures r == (if AsCString(n).Some? then AsCString(n).value else "")
    ensures r != "" ==> IsString(n) && r <= n.chars
  {
    match AsCString(n)
    case Some(s) => s
    case None => ""
  }

  /** `asInt`: the payload of an int node; any other node reads 0, so a
      non-zero result means an int node holding it. */
  function AsInt(n: Json): (r: int32)
    ensures r != 0 ==> n == Int(r)
    ensures n.Int? ==> n == Int(r)
  {
    if n.Int? then n.i else 0
  }

  /** `asUInt`: the payload of an unsigned node, 0 for any other. */
  function AsUInt(n: Json): (r: uint32)
    ensures r != 0 ==> n == Uint(r)
    ensures n.Uint? ==> n == Uint(r)
  {
    if n.Uint? then n.u else 0
  }

  /** `asLargestInt`: the payload of a 64-bit node, 0 for any other. */
  function AsLargestInt(n: Json): (r: int64)
    ensures r != 0 ==> n == Int64(r)
    ensures n.Int64? ==> n == Int64(r)
  {
    if n.Int64? then n.l else 0
  }

  /** `asBool`: the payload of a bool node, false for any other; so true
      only for the node `true`. */
  function AsBool(n: Json): (r: bool)
    ensures r ==> n == Bool(true)
    ensures n.Bool? ==> n == Bool(r)
  {
    if n.Bool? then n.b else false
  }

  /** `asFloat`: the payload of a float node, 0 for any other. */
  function AsFloat(n: Json): (r: bv32)
    ensures r != 0 ==> n == Float(r)
    ensures n.Float? ==> n == Float(r)
  {
    if n.Float? then n.fbits else 0
  }

  /** `asDouble`: the payload of a double node, 0 for any other. */
  function AsDouble(n: Json): (r: bv64)
    ensures r != 0 ==> n == Double(r)
    ensures n.Double? ==> n == Double(r)
  {
    if n.Double? then n.dbits else 0
  }

  /** What each setter stores is read back by its own accessor. In this model
      each setter makes its own variant, so the other accessors read their
      default; rapidjson's overlapping number flags are not modelled. */
  lemma SetThenGet(x: int32, y: uint32, z: int64, b: bool, f: bv32, d: bv64)
    ensures AsInt(Int(x)) == x && AsUInt(Int(x)) == 0 && AsLargestInt(Int(x)) == 0
    ensures AsUInt(Uint(y)) == y && AsInt(Uint(y)) == 0 && AsLargestInt(Uint(y)) == 0
    ensures AsLargestInt(Int64(z)) == z && AsInt(Int64(z)) == 0 && AsUInt(Int64(z)) == 0
    ensures AsBool(Bool(b)) == b && IsNumeric(Int(x)) && !IsNumeric(Bool(b))
    ensures AsFloat(Float(f)) == f && AsDouble(Float(f)) == 0
    ensures AsDouble(Double(d)) == d && AsFloat(Double(d)) == 0
  {
  }

  /** `clear`: arrays and objects lose all their children and keep their
      variant; every other node is left as it is. */
  function Cleared(n: Json): (r: Json)
    ensures n.Arr? || n.Obj? ==> Empty(r) && r.Arr? == n.Arr? && r.Obj? == n.Obj?
    ensures !n.Arr? && !n.Obj? ==> r == n
    ensures Size(r) == 0
    ensures WellFormed(n) ==> WellFormed(r)
  {
    if n.Arr? then Arr([]) else if n.Obj? then Obj([]) else n
  }

  /** After `clear`, `empty` holds exactly when the node was a container or null. */
  lemma ClearedEmpty(n: Json)
    ensures Empty(Cleared(n)) <==> n.Arr? || n.Obj? || n.Null?
    ensures Cleared(Cleared(n)) == Cleared(n)
  {
  }
}
