/** Client code that uses the handle the way the repository's tests do. Each
    scenario replays one test and its postcondition states what the test
    asserts, so the laws "navigation aliases, assignment copies" are proved
    on concrete uses. The helpers first package the idioms the tests repeat:
    `v[name] = x`, `v[name]` on a present name, and `v[name].append(x)`. */
module Scenarios {
  import opened JsonTree
  import opened NodeOps
  import opened Handles

  /** The node `v[k] = x` leaves at v, for a Null or object node `n`: the
      lookup adds `k` when it is missing, then the write replaces its value. */
  function SetKey(n: Json, k: string, x: Json): (r: Json)
    requires n.Null? || n.Obj?
    ensures r.Obj?
  {
    var w := WithMember(n, k);
    FindKeyAppend(MembersOf(n), (k, Null), k);
    WithChild(w, Key(k), x)
  }

  /** The members SetKey leaves: `k` appended when it was missing, its value
      replaced in place otherwise. */
  lemma SetKeyMembers(n: Json, k: string, x: Json)
    requires n.Null? || n.Obj?
    ensures Child(SetKey(n, k, x), Key(k)) == Some(x)
    ensures forall k' :: k' != k ==> Child(SetKey(n, k, x), Key(k')) == Child(n, Key(k'))
    ensures Child(n, Key(k)).None? ==> SetKey(n, k, x) == Obj(MembersOf(n) + [(k, x)])
    ensures Child(n, Key(k)).Some? ==>
      SetKey(n, k, x) == Obj(n.members[FindKey(n.members, k).value := (k, x)])
  {
    var ms := MembersOf(n);
    FindKeyAppend(ms, (k, Null), k);
    if Child(n, Key(k)).None? {
      assert (ms + [(k, Null)])[|ms| := (k, x)] == ms + [(k, x)];
    }
  }

  /** The names an object's members carry, in order. */
  function Names(ms: seq<(string, Json)>): seq<string> {
    seq(|ms|, i requires 0 <= i < |ms| => ms[i].0)
  }

  /** Appending a member appends its name. */
  lemma NamesAppend(ms: seq<(string, Json)>, m: (string, Json))
    ensures Names(ms + [m]) == Names(ms) + [m.0]
  {
    assert forall i :: 0 <= i < |ms| ==> (ms + [m])[i] == ms[i];
  }

  /** A name is found exactly when it is among the names. */
  lemma NamesFindKey(ms: seq<(string, Json)>, k: string)
    ensures k !in Names(ms) <==> FindKey(ms, k).None?
  {
    if FindKey(ms, k).Some? {
      assert Names(ms)[FindKey(ms, k).value] == k;
    }
  }

  /** `isMember` of a name without NUL: the name is among the object's names. */
  lemma HasMemberNames(n: Json, name: string)
    requires n.Obj? && '\0' !in name
    ensures HasMember(n, name) <==> name in Names(n.members)
  {
    NamesFindKey(n.members, name);
  }

  /** Member `i` is the first with its name: FindKey finds it. */
  lemma FirstIndex(ms: seq<(string, Json)>, k: string, i: nat)
    requires i < |ms| && ms[i].0 == k && k !in Names(ms)[..i]
    ensures FindKey(ms, k) == Some(i)
  {
    forall j | 0 <= j < i ensures ms[j].0 != k {
      assert Names(ms)[..i][j] == ms[j].0;
    }
  }

  /** Looking `k` up below `p` and then writing `x` through the resulting
      handle is one write of `SetKey` at `p`. */
  lemma MemberWrite(r0: Json, p: Path, k: string, x: Json)
    requires At(r0, p).Some? && (At(r0, p).value.Null? || At(r0, p).value.Obj?)
    ensures At(Put(r0, p, WithMember(At(r0, p).value, k)), p + [Key(k)]).Some?
    ensures Put(Put(r0, p, WithMember(At(r0, p).value, k)), p + [Key(k)], x)
            == Put(r0, p, SetKey(At(r0, p).value, k, x))
    ensures At(Put(r0, p, SetKey(At(r0, p).value, k, x)), p) == Some(SetKey(At(r0, p).value, k, x))
  {
    var w := WithMember(At(r0, p).value, k);
    var r1 := Put(r0, p, w);
    AtPut(r0, p, w);
    AtPutBelow(r0, p, [Key(k)], w);
    PutAppend(r1, p, [Key(k)], x);
    assert [Key(k)][1..] == [];
    var n2 := Put(w, [Key(k)], x);
    assert n2 == SetKey(At(r0, p).value, k, x);
    PutPut(r0, p, w, n2);
    AtPut(r0, p, n2);
  }

  /** A node one of the scalar setters stores: no container, and no NUL in a
      string (the setter takes a C string). */
  predicate Scalar(x: Json) {
    !x.Arr? && !x.Obj? && (x.Str? ==> '\0' !in x.chars)
  }

  /** Stores a scalar through the setter for its variant. */
  method Store(h: Value, x: Json)
    requires h.Valid() && Scalar(x)
    modifies h.doc
    ensures h.doc.root == Put(old(h.doc.root), h.path, x)
    ensures h.Valid() && h.Node() == x
  {
    match x
    case Null => h.AssignType(NullValue);
    case Bool(b) => h.AssignBool(b);
    case Int(i) => h.AssignInt(i);
    case Uint(u) => h.AssignUInt(u);
    case Int64(l) => h.AssignInt64(l);
    case Float(f) => h.AssignFloat(f);
    case Double(d) => h.AssignDouble(d);
    case Str(s) => h.AssignCString(Some(s));
  }

  /** `v[name] = x` with a scalar `x` and a name v does not have yet: the
      member is added at the end. */
  method AddMember(v: Value, name: string, x: Json)
    requires v.Valid() && (v.Node().Null? || v.Node().Obj?) && name !in Names(MembersOf(v.Node()))
    requires '\0' !in name && Scalar(x)
    modifies v.doc
    ensures v.Valid() && v.doc.root == Put(old(v.doc.root), v.path, v.Node())
    ensures v.Node() == Obj(old(MembersOf(v.Node())) + [(name, x)])
    ensures Names(v.Node().members) == old(Names(MembersOf(v.Node()))) + [name]
  {
    ghost var n, r0 := v.Node(), v.doc.root;
    NamesFindKey(MembersOf(n), name);
    NamesAppend(MembersOf(n), (name, x));
    MemberWrite(r0, v.path, name, x);
    SetKeyMembers(n, name, x);
    var h := v.Member(name);
    Store(h, x);
    assert v.doc.root == Put(r0, v.path, SetKey(n, name, x));
  }

  /** `v[name] = x` with a scalar `x`, where member `i` is the first one
      with that name: its value is replaced in place. */
  method OverwriteMember(v: Value, name: string, ghost i: nat, x: Json)
    requires v.Valid() && v.Node().Obj? && '\0' !in name && Scalar(x)
    requires i < |v.Node().members| && v.Node().members[i].0 == name
    requires name !in Names(v.Node().members)[..i]
    modifies v.doc
    ensures v.Valid() && v.doc.root == Put(old(v.doc.root), v.path, v.Node())
    ensures v.Node() == Obj(old(v.Node().members[i := (name, x)]))
    ensures Names(v.Node().members) == old(Names(v.Node().members))
  {
    ghost var ms := v.Node().members;
    FirstIndex(ms, name, i);
    ghost var n, r0 := v.Node(), v.doc.root;
    MemberWrite(r0, v.path, name, x);
    SetKeyMembers(n, name, x);
    var h := v.Member(name);
    Store(h, x);
    assert v.doc.root == Put(r0, v.path, SetKey(n, name, x));
    assert Names(v.Node().members) == Names(ms);
  }

  /** `v[name] = src` for a name v does not have yet and a handle into
      another document: the member is added holding a copy of src's node. */
  method CopyNewMember(v: Value, name: string, src: Value)
    requires v.Valid() && (v.Node().Null? || v.Node().Obj?)
    requires name !in Names(MembersOf(v.Node()))
    requires '\0' !in name && src.Valid() && src.doc != v.doc
    modifies v.doc
    ensures v.Valid() && v.doc.root == Put(old(v.doc.root), v.path, v.Node())
    ensures v.Node() == Obj(old(MembersOf(v.Node())) + [(name, src.Node())])
    ensures Names(v.Node().members) == old(Names(MembersOf(v.Node()))) + [name]
    ensures src.Valid() && src.Node() == old(src.Node())
  {
    ghost var n, r0 := v.Node(), v.doc.root;
    NamesFindKey(MembersOf(n), name);
    NamesAppend(MembersOf(n), (name, src.Node()));
    MemberWrite(r0, v.path, name, src.Node());
    SetKeyMembers(n, name, src.Node());
    var h := v.Member(name);
    h.Assign(src);
    assert v.doc.root == Put(r0, v.path, SetKey(n, name, src.Node()));
  }

  /** `v[name].append(item)` for a name v does not have yet and an item in
      another document: the member is added, holding a one-element array. */
  method AppendNewMember(v: Value, name: string, item: Value)
    requires v.Valid() && (v.Node().Null? || v.Node().Obj?) && name !in Names(MembersOf(v.Node()))
    requires '\0' !in name && item.Valid() && item.doc != v.doc
    modifies v.doc
    ensures v.Valid() && v.doc.root == Put(old(v.doc.root), v.path, v.Node())
    ensures v.Node() == Obj(old(MembersOf(v.Node())) + [(name, Arr([item.Node()]))])
    ensures Names(v.Node().members) == old(Names(MembersOf(v.Node()))) + [name]
    ensures item.Valid() && item.Node() == old(item.Node())
  {
    ghost var n, r0 := v.Node(), v.doc.root;
    NamesFindKey(MembersOf(n), name);
    NamesAppend(MembersOf(n), (name, Arr([item.Node()])));
    var x := Appended(Null, item.Node());
    assert x == Arr([item.Node()]);
    MemberWrite(r0, v.path, name, x);
    SetKeyMembers(n, name, x);
    var h := v.Member(name);
    assert h.Node() == Null;
    var self := h.Append(item);
    assert v.doc.root == Put(r0, v.path, SetKey(n, name, x));
  }

  /** `v[name].append(item)` where member `i` is the first one with that name
      and the item lives in another document: that member's value becomes an
      array with the item at its end, in place. */
  method AppendToMember(v: Value, name: string, ghost i: nat, item: Value)
    requires v.Valid() && v.Node().Obj? && '\0' !in name
    requires i < |v.Node().members| && v.Node().members[i].0 == name
    requires name !in Names(v.Node().members)[..i]
    requires item.Valid() && item.doc != v.doc
    modifies v.doc
    ensures v.Valid() && v.doc.root == Put(old(v.doc.root), v.path, v.Node())
    ensures v.Node() == Obj(old(v.Node().members[i := (name, Appended(v.Node().members[i].1, item.Node()))]))
    ensures Names(v.Node().members) == old(Names(v.Node().members))
    ensures item.Valid() && item.Node() == old(item.Node())
  {
    ghost var ms := v.Node().members;
    FirstIndex(ms, name, i);
    var x := Appended(ms[i].1, item.Node());
    ghost var n, r0 := v.Node(), v.doc.root;
    MemberWrite(r0, v.path, name, x);
    SetKeyMembers(n, name, x);
    var h := v.Member(name);
    assert h.Node() == ms[i].1;
    var self := h.Append(item);
    assert v.doc.root == Put(r0, v.path, SetKey(n, name, x));
    assert Names(v.Node().members) == Names(ms);
  }

  /** `v[name]` where member `i` is the first one with that name: an alias
      of that member, and the document is left as it was. */
  method Get(v: Value, name: string, ghost i: nat) returns (m: Value)
    requires v.Valid() && v.Node().Obj? && '\0' !in name
    requires i < |v.Node().members| && v.Node().members[i].0 == name
    requires name !in Names(v.Node().members)[..i]
    modifies v.doc
    ensures v.doc.root == old(v.doc.root)
    ensures m == Value(v.doc, v.path + [Key(name)])
    ensures m.Valid() && m.Node() == v.Node().members[i].1
  {
    PutAt(v.doc.root, v.path);
    FirstIndex(v.Node().members, name, i);
    m := v.Member(name);
  }

  /** HandleLargestInt (test/test_njson.cpp:285-296): both 64-bit integers,
      one beyond 32 bits and one within, are read back by asLargestInt. */
  method HandleLargestInt() returns (largest: int64, castLargest: int64)
    ensures largest == 21474836470 && castLargest == 2147483640
  {
    var jvalue := NewValue();
    AddMember(jvalue, "largest_int", Int64(21474836470));
    AddMember(jvalue, "casting_largest_int", Int64(2147483640));
    var h := Get(jvalue, "largest_int", 0);
    largest := AsLargestInt(h.Node());
    h := Get(jvalue, "casting_largest_int", 1);
    castLargest := AsLargestInt(h.Node());
  }

  /** The object MakeSimpleObject builds; 0.1 and 3.14f as their bit patterns. */
  function SimpleObject(): Json {
    Obj([("string", Str("text")), ("number", Int(10)), ("boolean", Bool(false)),
         ("double", Double(0x3FB9_9999_9999_999A)), ("u_int", Uint(400)), ("float", Float(0x4048_F5C3))])
  }

  /** The first three writes of MakeSimpleObject: string, int and bool. */
  method BuildSimpleObjectStart() returns (jvalue: Value)
    ensures fresh(jvalue.doc) && jvalue.Valid() && jvalue.Node() == Obj(SimpleObject().members[..3])
  {
    jvalue := NewValue();
    AddMember(jvalue, "string", Str("text"));
    AddMember(jvalue, "number", Int(10));
    AddMember(jvalue, "boolean", Bool(false));
  }

  /** The six writes of MakeSimpleObject, one new name each. */
  method BuildSimpleObject() returns (jvalue: Value)
    ensures fresh(jvalue.doc) && jvalue.Valid() && jvalue.Node() == SimpleObject()
  {
    jvalue := BuildSimpleObjectStart();
    assert Names(jvalue.Node().members) == ["string", "number", "boolean"];
    AddMember(jvalue, "double", Double(0x3FB9_9999_9999_999A));
    AddMember(jvalue, "u_int", Uint(400));
    assert Names(jvalue.Node().members) == ["string", "number", "boolean", "double", "u_int"];
    AddMember(jvalue, "float", Float(0x4048_F5C3));
  }

  /** The string member of the simple object, read as the test reads it. */
  method ReadSimpleString(jvalue: Value) returns (str: string, isString: bool, cstr: Option<string>, numeric: bool)
    requires jvalue.Valid() && jvalue.Node() == SimpleObject()
    modifies jvalue.doc
    ensures jvalue.doc.root == old(jvalue.doc.root)
    ensures str == "text" && isString && cstr == Some("text") && !numeric
  {
    var h := Get(jvalue, "string", 0);
    str, isString, cstr, numeric := AsString(h.Node()), IsString(h.Node()), AsCString(h.Node()), IsNumeric(h.Node());
  }

  /** The int, bool and double members of the simple object. */
  method ReadSimpleScalars(jvalue: Value) returns (number: int32, numberNumeric: bool, boolean: bool,
                                                  boolNumeric: bool, dbl: bv64, doubleNumeric: bool)
    requires jvalue.Valid() && jvalue.Node() == SimpleObject()
    modifies jvalue.doc
    ensures jvalue.doc.root == old(jvalue.doc.root)
    ensures number == 10 && numberNumeric && !boolean && !boolNumeric
    ensures dbl == 0x3FB9_9999_9999_999A && doubleNumeric
  {
    assert Names(jvalue.Node().members) == ["string", "number", "boolean", "double", "u_int", "float"];
    var h := Get(jvalue, "number", 1);
    number, numberNumeric := AsInt(h.Node()), IsNumeric(h.Node());
    h := Get(jvalue, "boolean", 2);
    boolean, boolNumeric := AsBool(h.Node()), IsNumeric(h.Node());
    h := Get(jvalue, "double", 3);
    dbl, doubleNumeric := AsDouble(h.Node()), IsNumeric(h.Node());
  }

  /** The unsigned and float members of the simple object. */
  method ReadSimpleWidths(jvalue: Value) returns (uint: uint32, flt: bv32)
    requires jvalue.Valid() && jvalue.Node() == SimpleObject()
    modifies jvalue.doc
    ensures jvalue.doc.root == old(jvalue.doc.root)
    ensures uint == 400 && flt == 0x4048_F5C3
  {
    assert Names(jvalue.Node().members) == ["string", "number", "boolean", "double", "u_int", "float"];
    var h := Get(jvalue, "u_int", 4);
    uint := AsUInt(h.Node());
    h := Get(jvalue, "float", 5);
    flt := AsFloat(h.Node());
  }

  /** MakeSimpleObject (test/test_njson.cpp:37-66): every member of the
      six-member object reads back through its own accessor; the string is a
      string with the same C string and is not numeric, the bool is not
      numeric, the int and the double are. */
  method MakeSimpleObject()
    returns (str: string, number: int32, boolean: bool, dbl: bv64, uint: uint32, flt: bv32,
             isString: bool, cstr: Option<string>, strNumeric: bool, boolNumeric: bool,
             numberNumeric: bool, doubleNumeric: bool)
    ensures str == "text" && number == 10 && !boolean && dbl == 0x3FB9_9999_9999_999A
    ensures uint == 400 && flt == 0x4048_F5C3
    ensures isString && cstr == Some("text")
    ensures !strNumeric && !boolNumeric && numberNumeric && doubleNumeric
  {
    var jvalue := BuildSimpleObject();
    str, isString, cstr, strNumeric := ReadSimpleString(jvalue);
    number, numberNumeric, boolean, boolNumeric, dbl, doubleNumeric := ReadSimpleScalars(jvalue);
    uint, flt := ReadSimpleWidths(jvalue);
  }

  /** OverrideObjectValue (test/test_njson.cpp:229-238): a second write through
      the same name replaces the first. */
  method OverrideObjectValue() returns (first: string, second: string)
    ensures first == "org" && second == "mod"
  {
    var jvalue := NewValue();
    AddMember(jvalue, "string", Str("org"));
    var h := Get(jvalue, "string", 0);
    first := AsString(h.Node());
    OverwriteMember(jvalue, "string", 0, Str("mod"));
    h := Get(jvalue, "string", 0);
    second := AsString(h.Node());
  }

  /** AssignNullValue (test/test_njson.cpp:298-306): assigning nullValue
      leaves a member that is null and empty. */
  method AssignNullValue() returns (isNull: bool, isEmpty: bool)
    ensures isNull && isEmpty
  {
    var jvalue := NewValue();
    AddMember(jvalue, "null", Null);
    var h := Get(jvalue, "null", 0);
    isNull := IsNull(h.Node());
    isEmpty := Empty(h.Node());
  }

  /** MakeMultipleObject (test/test_njson.cpp:112-123): an object assigned to
      a member is copied in whole, and read back through two lookups. */
  method MakeMultipleObject() returns (id: string, name: string)
    ensures id == "id" && name == "jean"
  {
    var jvalue := NewValue();
    var jobject := NewValue();
    AddMember(jobject, "id", Str("id"));
    AddMember(jobject, "name", Str("jean"));
    CopyNewMember(jvalue, "person", jobject);
    var person := Get(jvalue, "person", 0);
    var h := Get(person, "id", 0);
    id := AsString(h.Node());
    h := Get(person, "name", 1);
    name := AsString(h.Node());
  }

  /** The tree of the tests' DEFAULT_JSON_STRING,
      {"count":2,"people":[{"name":"jean"},{"name":"kim"}]}. */
  function DefaultTree(): Json {
    Obj([("count", Int(2)), ("people", Arr([Obj([("name", Str("jean"))]), Obj([("name", Str("kim"))])]))])
  }

  /** The member AppendObjectToJson adds last. */
  function Leader(): (string, Json) {
    ("leader", Obj([("name", Str("jean"))]))
  }

  /** The test's final step, `value["leader"] = leader` with a fresh
      one-member object: on the default tree it becomes the last member. */
  method AddLeader(v: Value)
    requires v.Valid() && v.Node() == DefaultTree()
    modifies v.doc
    ensures v.Valid() && v.Node() == Obj(DefaultTree().members + [Leader()])
  {
    var leader := NewValue();
    AddMember(leader, "name", Str("jean"));
    assert leader.Node() == Leader().1;
    assert Names(v.Node().members) == ["count", "people"];
    CopyNewMember(v, "leader", leader);
  }

  /** The default document after its first append: the count and a
      one-element "people" array. */
  method CountAndFirstPerson() returns (v: Value)
    ensures fresh(v.doc) && v.Valid()
    ensures v.Node() == Obj([("count", Int(2)), ("people", Arr([Obj([("name", Str("jean"))])]))])
  {
    v := NewValue();
    var person1 := NewValue();
    AddMember(v, "count", Int(2));
    AddMember(person1, "name", Str("jean"));
    assert v.Node() == Obj([("count", Int(2))]);
    assert person1.Node() == Obj([("name", Str("jean"))]);
    AppendNewMember(v, "people", person1);
  }

  /** AppendObjectToJson (test/test_njson.cpp:240-254, 259-264): building the
      default document by member writes and appends gives its tree, members
      in insertion order, and a member added afterwards comes last. */
  method AppendObjectToJson() returns (built: Json, extended: Json)
    ensures built == DefaultTree()
    ensures extended == Obj(DefaultTree().members + [Leader()])
  {
    var builder := CountAndFirstPerson();
    assert Names(builder.Node().members) == ["count", "people"];
    var person2 := NewValue();
    AddMember(person2, "name", Str("kim"));
    assert person2.Node() == Obj([("name", Str("kim"))]);
    AppendToMember(builder, "people", 1, person2);
    assert Appended(Arr([Obj([("name", Str("jean"))])]), Obj([("name", Str("kim"))])).elems
        == [Obj([("name", Str("jean"))]), Obj([("name", Str("kim"))])];
    built := builder.Node();
    AddLeader(builder);
    extended := builder.Node();
  }

  /** AppendObjectToJson (test/test_njson.cpp:256-257, 266-268): the parsed
      default document takes the same member at its end. `text` is any text
      the engine parses to the default tree. */
  method AppendObjectToParsed(parser: string -> Option<Json>, text: string) returns (ok: bool, extended: Json)
    requires parser(CString(text)) == Some(DefaultTree())
    ensures ok && extended == Obj(DefaultTree().members + [Leader()])
  {
    var root := NewValue();
    ok := Parse(parser, text, root);
    assert root.Node() == DefaultTree();
    AddLeader(root);
    extended := root.Node();
  }

  /** The tree SwapValue builds, {"name":"Kim","car":["benz","bmw"]}. */
  function CarTree(): Json {
    Obj([("name", Str("Kim")), ("car", Arr([Str("benz"), Str("bmw")]))])
  }

  /** SwapValue's source after its first append: a name and a one-element
      "car" array. */
  method NameAndFirstCar() returns (v: Value)
    ensures fresh(v.doc) && v.Valid()
    ensures v.Node() == Obj([("name", Str("Kim")), ("car", Arr([Str("benz")]))])
  {
    v := NewValue();
    AddMember(v, "name", Str("Kim"));
    var benz := NewFromString("benz");
    AppendNewMember(v, "car", benz);
  }

  /** SwapValue's source: a name, then two strings appended under "car". */
  method BuildCars() returns (v: Value)
    ensures fresh(v.doc) && v.Valid() && v.Node() == CarTree()
  {
    v := NameAndFirstCar();
    assert Names(v.Node().members) == ["name", "car"];
    var bmw := NewFromString("bmw");
    AppendToMember(v, "car", 1, bmw);
    assert Appended(Arr([Str("benz")]), Str("bmw")).elems == [Str("benz"), Str("bmw")];
  }

  /** SwapValue (test/test_njson.cpp:366-385): swapping with an empty value
      moves the whole tree over and leaves the source null, hence empty. */
  method SwapValue() returns (destBefore: Json, dest: Json, src: Json)
    ensures Empty(destBefore) && dest == CarTree() && src == Null && Empty(src)
  {
    var s := BuildCars();
    var d := NewValue();
    destBefore := d.Node();
    d.Swap(s);
    dest := d.Node();
    src := s.Node();
  }

  /** The array ConstructValue builds, [{"item":"array_1"},{"item":"array_2"}]. */
  function ItemsArray(): Json {
    Arr([Obj([("item", Str("array_1"))]), Obj([("item", Str("array_2"))])])
  }

  /** `v.append(item)` on an array with an item in another document: the
      item's node is copied to the end and the item is left as it was. */
  method AppendCopy(v: Value, item: Value) returns (self: Value)
    requires v.Valid() && v.Node().Arr? && item.Valid() && item.doc != v.doc
    modifies v.doc
    ensures self == v && v.Valid() && v.Node() == Arr(old(v.Node().elems) + [item.Node()])
    ensures item.Valid() && item.Node() == old(item.Node())
  {
    ghost var es := v.Node().elems;
    self := v.Append(item);
    assert v.Node().elems == es + [item.Node()];
  }

  /** A value of array type takes two appended objects, chained. */
  method BuildItems() returns (v: Value, initial: Json)
    ensures fresh(v.doc) && v.Valid() && v.Node() == ItemsArray()
    ensures initial == Arr([])
  {
    v := NewFromType(ArrayValue);
    initial := v.Node();
    var item1 := NewValue();
    AddMember(item1, "item", Str("array_1"));
    var item2 := NewValue();
    AddMember(item2, "item", Str("array_2"));
    assert item1.Node() == Obj([("item", Str("array_1"))]);
    assert item2.Node() == Obj([("item", Str("array_2"))]);
    var self := AppendCopy(v, item1);
    self := AppendCopy(self, item2);
  }

  /** ConstructValue (test/test_njson.cpp:336-364): the string constructor
      holds its text, the array constructor an empty array; after two
      appends the array has size 2, and a copy taken before `clear` keeps
      both elements while the original becomes empty. */
  method ConstructValue() returns (str: string, initial: Json, built: Json, cleared: Json, copied: Json)
    ensures str == "DATA_VALUE" && initial == Arr([])
    ensures built == ItemsArray() && IsArray(built) && !Empty(built) && Size(built) == 2
    ensures cleared == Arr([]) && Empty(cleared)
    ensures copied == built && Size(copied) == 2
  {
    var strValue := NewFromString("DATA_VALUE");
    str := AsString(strValue.Node());
    var arrayValue;
    arrayValue, initial := BuildItems();
    built := arrayValue.Node();
    var copy := CopyOf(arrayValue);
    arrayValue.Clear();
    cleared := arrayValue.Node();
    copied := copy.Node();
  }

  /** The first `n` objects MakeSimpleArray appends: {"index": k} for each k < n. */
  function IndexItems(n: nat): (r: seq<Json>)
    requires n <= 10
    ensures |r| == n && forall k :: 0 <= k < n ==> r[k] == Obj([("index", Int(k as int32))])
  {
    seq(n, k requires 0 <= k < n => Obj([("index", Int(k as int32))]))
  }

  /** The append loop of MakeSimpleArray: ten objects {"index": i}, each
      appended in turn under "array", which the first append creates. */
  method BuildIndexArray() returns (v: Value)
    ensures fresh(v.doc) && v.Valid() && v.Node() == Obj([("array", Arr(IndexItems(10)))])
  {
    v := NewValue();
    var i := 0;
    while i < 10
      invariant 0 <= i <= 10 && fresh(v.doc) && v.Valid()
      invariant i == 0 ==> v.Node() == Null
      invariant i > 0 ==> v.Node() == Obj([("array", Arr(IndexItems(i)))])
    {
      var item := NewValue();
      AddMember(item, "index", Int(i as int32));
      assert item.Node() == Obj([("index", Int(i as int32))]);
      if i == 0 {
        AppendNewMember(v, "array", item);
        assert [item.Node()] == IndexItems(1);
      } else {
        assert Names(v.Node().members) == ["array"];
        AppendToMember(v, "array", 0, item);
        assert IndexItems(i) + [item.Node()] == IndexItems(i + 1);
      }
      i := i + 1;
    }
  }

  /** MakeSimpleArray (test/test_njson.cpp:68-88): the array copied out of
      the built value has size 10, and element i reads back index i through
      the const member lookup. */
  method MakeSimpleArray() returns (size: nat, allMatch: bool)
    ensures size == 10 && allMatch
  {
    var jvalue := BuildIndexArray();
    var jarray := NewValue();
    var h := Get(jvalue, "array", 0);
    jarray.Assign(h);
    size := Size(jarray.Node());
    allMatch := true;
    var i := 0;
    while i < size
      invariant 0 <= i <= size && allMatch
      invariant jarray.Valid() && jarray.Node() == Arr(IndexItems(10))
    {
      var item := jarray.Index(i as uint32);
      PutAt(jarray.doc.root, item.path);
      var index := item.ConstMember("index");
      allMatch := allMatch && AsInt(index.Node()) == i as int32;
      i := i + 1;
    }
  }

  /** Every element is an object that has both names as members. */
  predicate EachHasMembers(es: seq<Json>, a: string, b: string) {
    forall k :: 0 <= k < |es| ==> es[k].Obj? && HasMember(es[k], a) && HasMember(es[k], b)
  }

  /** The iterator loop of ParsingAndCheckMember: walks `begin()` to `end()`
      and asks each element for both members. */
  method CheckEachByIterator(arr: Value, a: string, b: string) returns (all: bool)
    requires arr.Valid() && arr.Node().Arr?
    requires forall k :: 0 <= k < |arr.Node().elems| ==> arr.Node().elems[k].Obj?
    ensures all <==> EachHasMembers(arr.Node().elems, a, b)
  {
    ghost var es := arr.Node().elems;
    var it := arr.Begin();
    var end := arr.End();
    all := true;
    while !it.Equals(end)
      invariant fresh(it) && it != end && it.Valid() && it.doc == arr.doc && it.path == arr.path
      invariant it.Elems() == es && end.doc == arr.doc && end.path == arr.path && end.pos == |es|
      invariant all <==> forall k :: 0 <= k < it.pos ==> HasMember(es[k], a) && HasMember(es[k], b)
      decreases |es| - it.pos
    {
      var company := it.Deref();
      all := all && HasMember(company.Node(), a) && HasMember(company.Node(), b);
      it := it.Next();
    }
  }

  /** The index loop of ParsingAndCheckMember: reads `size()` and asks the
      element at each index for both members. */
  method CheckEachByIndex(arr: Value, a: string, b: string) returns (all: bool)
    requires arr.Valid() && arr.Node().Arr?
    requires forall k :: 0 <= k < |arr.Node().elems| ==> arr.Node().elems[k].Obj?
    requires |arr.Node().elems| < 0x1_0000_0000
    ensures all <==> EachHasMembers(arr.Node().elems, a, b)
  {
    ghost var es := arr.Node().elems;
    all := true;
    var i := 0;
    while i < Size(arr.Node())
      invariant 0 <= i <= |es|
      invariant all <==> forall k :: 0 <= k < i ==> HasMember(es[k], a) && HasMember(es[k], b)
    {
      var company := arr.Index(i as uint32);
      all := all && HasMember(company.Node(), a) && HasMember(company.Node(), b);
      i := i + 1;
    }
  }

  /** The tests' MEMBER_JSON_STRING, {"company":"skt","building":[{"location":
      "seoul","hq":true},{"location":"busan","hq":false}]}. */
  function MemberTree(): Json {
    Obj([("company", Str("skt")), ("building", Buildings())])
  }

  /** The "building" array of MEMBER_JSON_STRING. */
  function Buildings(): Json {
    Arr([Obj([("location", Str("seoul")), ("hq", Bool(true))]),
         Obj([("location", Str("busan")), ("hq", Bool(false))])])
  }

  /** Both buildings are objects with a "location" and an "hq". */
  lemma BuildingsHaveMembers()
    ensures forall k :: 0 <= k < |Buildings().elems| ==> Buildings().elems[k].Obj?
    ensures EachHasMembers(Buildings().elems, "location", "hq")
  {
    var es := Buildings().elems;
    assert Names(es[0].members) == ["location", "hq"] && Names(es[1].members) == ["location", "hq"];
    HasMemberNames(es[0], "location");
    HasMemberNames(es[0], "hq");
    HasMemberNames(es[1], "location");
    HasMemberNames(es[1], "hq");
  }

  /** The engine's parse of any text that reads as MEMBER_JSON_STRING. */
  method ParseMemberTree(parser: string -> Option<Json>, text: string) returns (ok: bool, root: Value)
    requires parser(CString(text)) == Some(MemberTree())
    ensures ok && fresh(root.doc) && root.Valid() && root.Node() == MemberTree()
  {
    root := NewValue();
    ok := Parse(parser, text, root);
  }

  /** ParsingAndCheckMember (test/test_njson.cpp:141-144): `isMember` finds
      the top-level names and not the names nested in the array. */
  method ParsingAndCheckMember(parser: string -> Option<Json>, text: string)
    returns (ok: bool, company: bool, building: bool, location: bool, hq: bool)
    requires parser(CString(text)) == Some(MemberTree())
    ensures ok && company && building && !location && !hq
  {
    var root;
    ok, root := ParseMemberTree(parser, text);
    ghost var names := Names(root.Node().members);
    assert names == ["company", "building"];
    HasMemberNames(root.Node(), "company");
    HasMemberNames(root.Node(), "building");
    HasMemberNames(root.Node(), "location");
    HasMemberNames(root.Node(), "hq");
    company := HasMember(root.Node(), "company");
    building := HasMember(root.Node(), "building");
    location := HasMember(root.Node(), "location");
    hq := HasMember(root.Node(), "hq");
  }

  /** ParsingAndCheckMember (test/test_njson.cpp:146-170): every building
      has both members, found by the iterator loop and by the index loop. */
  method ParsingAndCheckBuildings(parser: string -> Option<Json>, text: string)
    returns (ok: bool, byIterator: bool, byIndex: bool)
    requires parser(CString(text)) == Some(MemberTree())
    ensures ok && byIterator && byIndex
  {
    var root;
    ok, root := ParseMemberTree(parser, text);
    var b := Get(root, "building", 1);
    BuildingsHaveMembers();
    byIterator := CheckEachByIterator(b, "location", "hq");
    byIndex := CheckEachByIndex(b, "location", "hq");
  }

  /** ParsingNoExistNode (test/test_njson.cpp:173-188): looking up a name
      the parsed empty object lacks yields a Null member whose size and
      scalar accessors all read as defaults, and the mutating lookup has
      added that member to the document. `text` is any text the engine
      parses to the empty object. */
  method ParsingNoExistNode(parser: string -> Option<Json>, text: string)
    returns (ok: bool, size: nat, asInt: int32, isObject: bool, isArray: bool,
             asString: string, asDouble: bv64, asBool: bool, after: Json)
    requires parser(CString(text)) == Some(Obj([]))
    ensures ok && size == 0 && asInt == 0 && !isObject && !isArray
    ensures asString == "" && asDouble == 0 && !asBool
    ensures after == Obj([("none", Null)])
  {
    var root := NewValue();
    ok := Parse(parser, text, root);
    var none := root.Member("none");
    size := Size(none.Node());
    none := Get(root, "none", 0);
    asInt := AsInt(none.Node());
    isObject := IsObject(none.Node());
    isArray := IsArray(none.Node());
    asString := AsString(none.Node());
    asDouble := AsDouble(none.Node());
    asBool := AsBool(none.Node());
    after := root.Node();
  }

  /** The same lookup through a const handle, as the const `operator[]` is
      written: the result is a detached Null and the document keeps no new
      member. */
  method ConstLookupOfMissing(parser: string -> Option<Json>, text: string)
    returns (ok: bool, found: Json, after: Json)
    requires parser(CString(text)) == Some(Obj([]))
    ensures ok && found == Null && after == Obj([])
  {
    var root := NewValue();
    ok := Parse(parser, text, root);
    var none := root.ConstMember("none");
    found := none.Node();
    after := root.Node();
  }

  /** The engine's parse of any text that reads as DEFAULT_JSON_STRING. */
  method ParseDefault(parser: string -> Option<Json>, text: string) returns (ok: bool, root: Value)
    requires parser(CString(text)) == Some(DefaultTree())
    ensures ok && fresh(root.doc) && root.Valid() && root.Node() == DefaultTree()
  {
    root := NewValue();
    ok := Parse(parser, text, root);
  }

  /** DefaultParsing and CheckKeyAndGetValue (test/test_njson.cpp:130-133,
      203-214): the parsed "count" is a non-empty int reading 2, and
      "people" a non-empty array of size 2. */
  method CheckKeyAndGetValue(parser: string -> Option<Json>, text: string)
    returns (ok: bool, countEmpty: bool, countIsInt: bool, count: int32,
             peopleEmpty: bool, peopleIsArray: bool, people: nat)
    requires parser(CString(text)) == Some(DefaultTree())
    ensures ok && !countEmpty && countIsInt && count == 2
    ensures !peopleEmpty && peopleIsArray && people == 2
  {
    var root;
    ok, root := ParseDefault(parser, text);
    assert Names(root.Node().members) == ["count", "people"];
    var h := Get(root, "count", 0);
    countEmpty := Empty(h.Node());
    countIsInt := IsInt(h.Node());
    count := AsInt(h.Node());
    h := Get(root, "people", 1);
    peopleEmpty := Empty(h.Node());
    peopleIsArray := IsArray(h.Node());
    people := Size(h.Node());
  }

  /** The "name" of element `i` of a value's "people" array, after assigning
      that element to a fresh value as the test does. */
  method PersonName(root: Value, i: uint32) returns (isEmpty: bool, name: string)
    requires root.Valid() && root.Node() == DefaultTree() && i < 2
    modifies root.doc
    ensures root.Valid() && root.Node() == DefaultTree()
    ensures !isEmpty && name == (if i == 0 then "jean" else "kim")
  {
    assert Names(root.Node().members) == ["count", "people"];
    var people := Get(root, "people", 1);
    var element := people.Index(i);
    var person := NewValue();
    person.Assign(element);
    var h := Get(person, "name", 0);
    isEmpty := Empty(h.Node());
    name := AsString(h.Node());
  }

  /** CheckKeyAndGetValue (test/test_njson.cpp:216-226): each person,
      assigned out of the parsed array, has a non-empty name. */
  method CheckKeyAndGetPeople(parser: string -> Option<Json>, text: string)
    returns (ok: bool, jeanEmpty: bool, jean: string, kimEmpty: bool, kim: string)
    requires parser(CString(text)) == Some(DefaultTree())
    ensures ok && !jeanEmpty && jean == "jean" && !kimEmpty && kim == "kim"
  {
    var root;
    ok, root := ParseDefault(parser, text);
    jeanEmpty, jean := PersonName(root, 0);
    kimEmpty, kim := PersonName(root, 1);
  }

  /** CopyParsedValue (test/test_njson.cpp:320-334): assignment copies the
      parsed array into the receiver's own document, so the names read back
      from the copy without the parsed document. */
  method CopyParsedValue(parser: string -> Option<Json>, text: string)
    returns (ok: bool, separate: bool, first: string, second: string)
    requires parser(CString(text)) == Some(DefaultTree())
    ensures ok && separate && first == "jean" && second == "kim"
  {
    var root;
    ok, root := ParseDefault(parser, text);
    var value := NewValue();
    assert Names(root.Node().members) == ["count", "people"];
    var people := Get(root, "people", 1);
    value.Assign(people);
    separate := value.doc != root.doc;
    var e := value.Index(0);
    var h := Get(e, "name", 0);
    first := AsString(h.Node());
    e := value.Index(1);
    h := Get(e, "name", 0);
    second := AsString(h.Node());
  }

  /** ClearValue (test/test_njson.cpp:387-403): whatever object or array
      the text parses to, `clear` leaves it empty. */
  method ClearValue(parser: string -> Option<Json>, text: string) returns (ok: bool, empty: bool)
    requires parser(CString(text)).Some?
    requires parser(CString(text)).value.Obj? || parser(CString(text)).value.Arr?
    ensures ok && empty
  {
    var value := NewValue();
    ok := Parse(parser, text, value);
    value.Clear();
    empty := Empty(value.Node());
  }

  /** What the mutating lookup of `name` yields on a Null or object node:
      the member's value, or the Null it adds. */
  function MemberOrNull(n: Json, name: string): Json {
    if Child(n, Key(name)).Some? then Child(n, Key(name)).value else Null
  }

  /** The array an index write through the growing index operator leaves:
      `m`'s elements, padded with Nulls to reach `index`, with `y` there. */
  function GrownWith(m: Json, index: nat, y: Json): (r: Json)
    ensures r.Arr? && index < |r.elems| && r.elems[index] == y
    ensures |r.elems| == if index < Size(m) then Size(m) else index + 1
    ensures forall k :: 0 <= k < |r.elems| && k != index ==>
      r.elems[k] == if k < Size(m) then m.elems[k] else Null
  {
    Arr(Grown(m, index).elems[index := y])
  }

  /** Member lookup, the growing index write and a write of `y` at the
      element, done one after the other below `p`, are one write at `p` of
      the object with that member replaced by GrownWith. */
  lemma GrowWrite(r0: Json, p: Path, name: string, index: nat, y: Json)
    requires At(r0, p).Some? && (At(r0, p).value.Null? || At(r0, p).value.Obj?)
    ensures At(Put(r0, p, WithMember(At(r0, p).value, name)), p + [Key(name)])
            == Some(MemberOrNull(At(r0, p).value, name))
    ensures At(Put(Put(r0, p, WithMember(At(r0, p).value, name)), p + [Key(name)],
                   Grown(MemberOrNull(At(r0, p).value, name), index)),
               p + [Key(name)] + [Idx(index)]).Some?
    ensures Put(Put(Put(r0, p, WithMember(At(r0, p).value, name)), p + [Key(name)],
                    Grown(MemberOrNull(At(r0, p).value, name), index)),
                p + [Key(name)] + [Idx(index)], y)
            == Put(r0, p, SetKey(At(r0, p).value, name, GrownWith(MemberOrNull(At(r0, p).value, name), index, y)))
  {
    var n := At(r0, p).value;
    var m := MemberOrNull(n, name);
    var w := WithMember(n, name);
    var q := p + [Key(name)];
    var g := Grown(m, index);
    var r1 := Put(r0, p, w);
    AtPutBelow(r0, p, [Key(name)], w);
    var r2 := Put(r1, q, g);
    AtPut(r1, q, g);
    AtPutBelow(r1, q, [Idx(index)], g);
    PutAppend(r2, q, [Idx(index)], y);
    assert [Idx(index)][1..] == [];
    var g2 := Put(g, [Idx(index)], y);
    assert g2 == GrownWith(m, index, y);
    PutPut(r1, q, g, g2);
    MemberWrite(r0, p, name, g2);
  }

  /** `v[name][index]` through the growing index operator: the member is
      looked up (added when missing), grown to reach `index`, and the result
      aliases that element. */
  method GrowAt(v: Value, name: string, index: uint32) returns (e: Value)
    requires v.Valid() && (v.Node().Null? || v.Node().Obj?) && '\0' !in name
    modifies v.doc
    ensures At(Put(old(v.doc.root), v.path, WithMember(old(v.Node()), name)), v.path + [Key(name)]).Some?
    ensures v.doc.root == Put(Put(old(v.doc.root), v.path, WithMember(old(v.Node()), name)),
                              v.path + [Key(name)], Grown(MemberOrNull(old(v.Node()), name), index))
    ensures e == Value(v.doc, v.path + [Key(name)] + [Idx(index)]) && e.Valid()
    ensures e.Node() == if index as nat < Size(MemberOrNull(old(v.Node()), name))
                        then MemberOrNull(old(v.Node()), name).elems[index] else Null
  {
    var h := v.Member(name);
    e := h.IndexOrGrow(index);
  }

  /** `v[name][index] = x` with a scalar `x`, through an index operator that
      grows the array as the test expects. */
  method StoreAtIndex(v: Value, name: string, index: uint32, x: Json)
    requires v.Valid() && (v.Node().Null? || v.Node().Obj?) && '\0' !in name && Scalar(x)
    modifies v.doc
    ensures v.Valid()
    ensures v.Node() == SetKey(old(v.Node()), name, GrownWith(MemberOrNull(old(v.Node()), name), index, x))
  {
    ghost var r0 := v.doc.root;
    ghost var n := v.Node();
    GrowWrite(r0, v.path, name, index, x);
    var e := GrowAt(v, name, index);
    Store(e, x);
    AtPut(r0, v.path, SetKey(n, name, GrownWith(MemberOrNull(n, name), index, x)));
  }

  /** `v[name][index][key] = x` where the index lies past the member's
      current elements, so the element is a new Null that becomes an object. */
  method AddMemberAtIndex(v: Value, name: string, index: uint32, key: string, x: Json)
    requires v.Valid() && (v.Node().Null? || v.Node().Obj?) && '\0' !in name
    requires Size(MemberOrNull(v.Node(), name)) <= index as nat && '\0' !in key && Scalar(x)
    modifies v.doc
    ensures v.Valid()
    ensures v.Node() == SetKey(old(v.Node()), name, GrownWith(MemberOrNull(old(v.Node()), name), index, Obj([(key, x)])))
  {
    ghost var r0 := v.doc.root;
    ghost var n := v.Node();
    GrowWrite(r0, v.path, name, index, Obj([(key, x)]));
    var e := GrowAt(v, name, index);
    AddMember(e, key, x);
    assert e.Node() == Obj([(key, x)]);
    AtPut(r0, v.path, SetKey(n, name, GrownWith(MemberOrNull(n, name), index, Obj([(key, x)]))));
  }

  /** Writing at the index one past the last element is an append. */
  lemma GrownWithAtEnd(m: Json, y: Json)
    ensures GrownWith(m, Size(m), y) == Arr(ElemsOf(m) + [y])
  {
    var r := GrownWith(m, Size(m), y);
    assert r.elems == ElemsOf(m) + [y];
  }

  /** `v[name][0] = x` for a name v does not have yet: the member is added,
      holding a one-element array. */
  method NewByIndex(v: Value, name: string, x: Json)
    requires v.Valid() && (v.Node().Null? || v.Node().Obj?) && name !in Names(MembersOf(v.Node()))
    requires '\0' !in name && Scalar(x)
    modifies v.doc
    ensures v.Valid() && v.Node() == Obj(old(MembersOf(v.Node())) + [(name, Arr([x]))])
    ensures Names(v.Node().members) == old(Names(MembersOf(v.Node()))) + [name]
  {
    NamesFindKey(MembersOf(v.Node()), name);
    assert MemberOrNull(v.Node(), name) == Null;
    GrownWithAtEnd(Null, x);
    assert GrownWith(Null, 0, x) == Arr([x]);
    SetKeyMembers(v.Node(), name, Arr([x]));
    StoreAtIndex(v, name, 0, x);
  }

  /** `v[name][index] = x` where member `i` is the first one with that name
      and holds an array of `index` elements: the array gains `x` at its end. */
  method PushByIndex(v: Value, name: string, ghost i: nat, index: uint32, x: Json)
    requires v.Valid() && v.Node().Obj? && '\0' !in name && Scalar(x)
    requires i < |v.Node().members| && v.Node().members[i].0 == name
    requires name !in Names(v.Node().members)[..i]
    requires v.Node().members[i].1.Arr? && |v.Node().members[i].1.elems| == index as nat
    modifies v.doc
    ensures v.Valid()
    ensures v.Node() == Obj(old(v.Node().members[i := (name, Arr(v.Node().members[i].1.elems + [x]))]))
    ensures Names(v.Node().members) == old(Names(v.Node().members))
  {
    ghost var ms := v.Node().members;
    FirstIndex(ms, name, i);
    ghost var m := v.Node().members[i].1;
    GrownWithAtEnd(m, x);
    SetKeyMembers(v.Node(), name, Arr(m.elems + [x]));
    StoreAtIndex(v, name, index, x);
    assert Names(v.Node().members) == Names(ms);
  }

  /** `v[name][0][key] = x` for a name v does not have yet: the member is
      added, holding an array whose one element is the object {key: x}. */
  method NewObjectByIndex(v: Value, name: string, key: string, x: Json)
    requires v.Valid() && (v.Node().Null? || v.Node().Obj?) && name !in Names(MembersOf(v.Node()))
    requires '\0' !in name && '\0' !in key && Scalar(x)
    modifies v.doc
    ensures v.Valid() && v.Node() == Obj(old(MembersOf(v.Node())) + [(name, Arr([Obj([(key, x)])]))])
  {
    NamesFindKey(MembersOf(v.Node()), name);
    assert MemberOrNull(v.Node(), name) == Null;
    GrownWithAtEnd(Null, Obj([(key, x)]));
    assert GrownWith(Null, 0, Obj([(key, x)])) == Arr([Obj([(key, x)])]);
    SetKeyMembers(v.Node(), name, Arr([Obj([(key, x)])]));
    AddMemberAtIndex(v, name, 0, key, x);
  }

  /** The document MakeArrayByIndex builds by index writes. */
  function ByIndexTree(): Json {
    Obj([("items", Arr([Str("item_1"), Str("item_2"), Str("item_3")])),
         ("orders", Arr([Str("first"), Str("second")])),
         ("internals", Arr([Obj([("type", Str("basic"))])]))])
  }

  /** The three writes to "items", each one index past the last. */
  method ItemsByIndex() returns (value: Value)
    ensures fresh(value.doc) && value.Valid()
    ensures value.Node() == Obj([ByIndexTree().members[0]])
  {
    value := NewValue();
    NewByIndex(value, "items", Str("item_1"));
    assert value.Node() == Obj([("items", Arr([Str("item_1")]))]);
    PushByIndex(value, "items", 0, 1, Str("item_2"));
    assert [Str("item_1")] + [Str("item_2")] == [Str("item_1"), Str("item_2")];
    PushByIndex(value, "items", 0, 2, Str("item_3"));
    assert [Str("item_1"), Str("item_2")] + [Str("item_3")] == [Str("item_1"), Str("item_2"), Str("item_3")];
  }

  /** The writes to "orders" and to "internals"[0]["type"] after the items. */
  method OrdersAndInternals() returns (value: Value)
    ensures fresh(value.doc) && value.Valid() && value.Node() == ByIndexTree()
  {
    value := ItemsByIndex();
    NewByIndex(value, "orders", Str("first"));
    assert Names(value.Node().members) == ["items", "orders"];
    PushByIndex(value, "orders", 1, 1, Str("second"));
    assert [Str("first")] + [Str("second")] == [Str("first"), Str("second")];
    assert Names(value.Node().members) == ["items", "orders"];
    NewObjectByIndex(value, "internals", "type", Str("basic"));
  }

  /** MakeArrayByIndex (test/test_njson.cpp:90-106), with the index operator
      growing the array: the writes give sizes 3 and 2 and read back. */
  method MakeArrayByIndex() returns (itemsSize: nat, ordersSize: nat, item0: string, order1: string)
    ensures itemsSize == 3 && ordersSize == 2 && item0 == "item_1" && order1 == "second"
  {
    var value := OrdersAndInternals();
    assert Names(value.Node().members) == ["items", "orders", "internals"];
    var items := Get(value, "items", 0);
    itemsSize := Size(items.Node());
    var orders := Get(value, "orders", 1);
    ordersSize := Size(orders.Node());
    var e := items.Index(0);
    item0 := AsString(e.Node());
    e := orders.Index(1);
    order1 := AsString(e.Node());
  }

  /** MakeArrayByIndex (test/test_njson.cpp:107-110): the nested member
      reads back through the chained lookup, and again through `sub_value`,
      which copy elision makes the very handle on the element rather than a
      copy of it. */
  method MakeArrayByIndexNested() returns (internalType: string, subType: string, aliased: bool)
    ensures internalType == "basic" && subType == "basic" && aliased
  {
    var value := OrdersAndInternals();
    assert Names(value.Node().members) == ["items", "orders", "internals"];
    var internals := Get(value, "internals", 2);
    var element := internals.Index(0);
    var t := Get(element, "type", 0);
    internalType := AsString(t.Node());
    var holder := Get(value, "internals", 2);
    var sub := holder.Index(0);
    aliased := sub == element && sub.path == value.path + [Key("internals"), Idx(0)];
    t := Get(sub, "type", 0);
    subType := AsString(t.Node());
  }

  /** MakeArrayByIndex as the index operator is written: the first write's
      receiver, `value["items"]`, is the Null the member lookup adds, which
      is no array and has no element 0, so the engine's array assertion
      fails on `[0]` instead of growing anything. */
  method MakeArrayByIndexAsWritten() returns (itemsIsArray: bool, itemsSize: nat)
    ensures !itemsIsArray && itemsSize == 0
  {
    var value := NewValue();
    var items := value.Member("items");
    itemsIsArray := IsArray(items.Node());
    itemsSize := Size(items.Node());
  }

  /** `Value(nullValue)` as written: the tag is ignored and the value holds an
      empty array, so it is not null. */
  method NullTypeConstructorAsWritten() returns (isNull: bool, isArray: bool)
    ensures !isNull && isArray
  {
    var v := NewFromType(NullValue);
    isNull := IsNull(v.Node());
    isArray := IsArray(v.Node());
  }

  /** `Value(nullValue)` once the constructor honours its tag, as
      `operator=(ValueType)` does: the value is null. */
  method NullTypeConstructor() returns (isNull: bool, isEmpty: bool)
    ensures isNull && isEmpty
  {
    var v := NewFromTypeIntended(NullValue);
    isNull := IsNull(v.Node());
    isEmpty := Empty(v.Node());
  }

  /** Swapping the same two handles twice restores both documents. */
  method SwapTwice(a: Value, b: Value)
    requires a.Valid() && b.Valid()
    requires b.doc == a.doc ==> a.path == b.path || Disjoint(a.path, b.path)
    modifies a.doc, b.doc
    ensures a.doc.root == old(a.doc.root) && b.doc.root == old(b.doc.root)
  {
    ghost var ra, rb := a.doc.root, b.doc.root;
    ghost var na, nb := a.Node(), b.Node();
    a.Swap(b);
    a.Swap(b);
    if b.doc != a.doc {
      PutRestore(ra, a.path, nb);
      PutRestore(rb, b.path, na);
    } else if a.path != b.path {
      SwapAtTwice(ra, a.path, b.path);
    }
  }

  /** Two mutating lookups of one name give the same handle, so a write
      through the first is seen through the second. */
  method WriteThroughAlias(v: Value, name: string, x: int32) returns (first: Value, second: Value, seen: Json)
    requires v.Valid() && (v.Node().Null? || v.Node().Obj?)
    modifies v.doc
    ensures first == second && seen == Int(x)
  {
    first := v.Member(name);
    second := v.Member(name);
    first.AssignInt(x);
    seen := second.Node();
  }

  /** MakeAndParseValue (test/test_njson.cpp:271-283): a string, an int and a
      bool written through fresh names are read back by their accessors. */
  method MakeAndParseValue() returns (str: string, number: int32, boolean: bool)
    ensures str == "text" && number == 10 && boolean
  {
    var jvalue := NewValue();
    AddMember(jvalue, "string", Str("text"));
    AddMember(jvalue, "number", Int(10));
    AddMember(jvalue, "bool", Bool(true));
    var h := Get(jvalue, "string", 0);
    str := AsString(h.Node());
    h := Get(jvalue, "number", 1);
    number := AsInt(h.Node());
    h := Get(jvalue, "bool", 2);
    boolean := AsBool(h.Node());
  }

  /** Iterator `==` and `!=` on an array: `begin()` equals `end()` exactly
      when the array has no elements, so a loop from `begin()` to `end()`
      runs at least once exactly on a non-empty array. */
  method BeginMeetsEnd(v: Value) returns (same: bool)
    requires v.Valid() && v.Node().Arr?
    ensures same <==> Size(v.Node()) == 0
  {
    var first := v.Begin();
    var last := v.End();
    same := first.Equals(last);
  }

  /** `v.append(v["x"])` on an object: the reset turns v into an empty array,
      and the member it appends is the one read from the old storage. */
  method AppendOwnMember(x: Json) returns (v: Value)
    ensures v.Valid() && v.Node() == Arr([x])
  {
    var d := new Doc(Obj([("x", x)]));
    v := Value(d, []);
    var m := v.Member("x");
    v := v.Append(m);
  }
}
