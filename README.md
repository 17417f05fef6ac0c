# njson value handle, modelled in Dafny

njson is a small C++ JSON library. Its `NJson::Value` is a jsoncpp-style handle
over a rapidjson tree. This project models the library's core, `src/njson.cpp`:
the value handle, its iterator and `Reader::parse`. It also replays the
library's own test scenarios (`test/test_njson.cpp`) against that model.

A `Value` is a pointer to one rapidjson node plus the allocator of the
document that owns it. The model states this as:

- `JsonTree` (json_tree.dfy) holds the tree.
  - `Json` is a node with one active variant: null, bool, the three integer
    widths, float, double, string, array, or object with its members in
    insertion order.
  - A `Path` of `Key`/`Idx` steps names a node inside a tree.
  - `At` reads the node at a path and `Put` replaces it.
  - The path lemmas are the aliasing laws every handle operation relies on.
- `NodeOps` (json_node.dfy) gives what each operation does to the one node a
  handle names. This covers the auto-vivifying member lookup, `append`,
  `clear`, the index write and the read-only queries.
- `Handles` (json_value.dfy) holds the imperative part.
  - `Doc` is a class whose `root` field is the tree one document owns.
  - A `Value` is a datatype of a document and a path. Two handles alias
    exactly when both fields agree.
  - Navigation (`Member`, `Index`, `Deref`, and `ConstMember` for a present
    name) returns handles into the same document. `ConstMember` for an
    absent name returns a handle on a fresh document holding null.
  - Assignment, `append` and `parse` copy content into the receiver's place
    and never alias it.
  - `Iterator` is a class whose shared cursor `pos` is advanced in place.
- `Scenarios` (scenarios.dfy) replays the test cases.
  - It has small typed helpers for `v["k"] = x`, `v["k"].append(y)` and
    `v["k"][i] = x`.
  - It has the two loops the tests use to visit an array: by iterator and by
    index.
  - Each replay proves the values the test asserts.

Text reaches the library through `c_str()`, so names and strings are cut at
the first NUL (`JsonTree.CString`). The JSON text parser is rapidjson's own and
is not modelled. `Parse` takes it as a function parameter from text to an
optional tree, and the scenarios that parse state what that function returns
for their input.

## Model

| member | source | states |
|---|---|---|
| JsonTree.CString | src/njson.cpp:241-247 | the text a `const char*` denotes is a prefix of the string, holds no NUL and ends exactly at the first NUL; a string without NUL passes whole |
| JsonTree.FindKey | src/njson.cpp:102-115 | the member search finds the first member of that name, and finds none exactly when no member has it |
| JsonTree.FindKeyAppend | src/njson.cpp:102-115 | adding a member at the end keeps every name that was found where it was; the new name is found at the end exactly when it was absent |
| JsonTree.FindKeySameKeys | src/njson.cpp:220-225 | replacing member values without renaming leaves every name lookup unchanged |
| JsonTree.WithChild | src/njson.cpp:96-100 | replacing one child makes that child read back the new node and leaves every other child as it was |
| JsonTree.AtAppend | src/njson.cpp:96-100 | a handle taken from a handle names the node at the joined path |
| JsonTree.AtPut | src/njson.cpp:220-225 | a write through a handle is read back through that handle |
| JsonTree.AtPutDisjoint | src/njson.cpp:220-225 | a write through one handle cannot be seen through a handle on a disjoint place |
| JsonTree.AtPutBelow | src/njson.cpp:96-100 | a handle below the written place sees the corresponding part of the new content |
| JsonTree.AtPutAbove | src/njson.cpp:96-100 | a write below a handle's place shows through that handle as the same write inside its node |
| JsonTree.PutAppend | src/njson.cpp:96-100 | writing at a joined path is writing the inner update at the outer place |
| JsonTree.PutAt | src/njson.cpp:220-225 | writing back the node that is already there changes nothing |
| JsonTree.PutPut | src/njson.cpp:220-225 | of two writes to one place, the second wins |
| JsonTree.PutCommute | src/njson.cpp:220-225 | writes to disjoint places commute |
| JsonTree.DisjointSymmetric | src/njson.cpp:428-431 | disjointness of two places does not depend on their order |
| JsonTree.SwapAt | src/njson.cpp:428-431 | after an in-document swap each place holds what the other held |
| JsonTree.SwapAtTwice | src/njson.cpp:428-431 | swapping the same two places twice restores the tree |
| JsonTree.PutRestore | src/njson.cpp:220-225 | overwriting a place and then writing its old node back restores the tree |
| JsonTree.AtWellFormed | src/njson.cpp:102-115 | every node inside a tree with unique member names has unique member names |
| JsonTree.PutWellFormed | src/njson.cpp:102-115 | writing a node with unique member names keeps the whole tree's member names unique |
| NodeOps.WithMember | src/njson.cpp:102-115 | member lookup makes the node an object; a present name is left as it is, an absent one is added at the end bound to null; every other name keeps its child; unique names stay unique |
| NodeOps.WithMemberWellFormed | src/njson.cpp:102-115 | member lookup keeps a node with unique member names at every level in that state |
| NodeOps.Appended | src/njson.cpp:291-299 | `append` leaves an array one longer: the old elements (none for a non-array) followed by the appended node |
| NodeOps.AppendedWellFormed | src/njson.cpp:291-299 | appending a well-formed node to a well-formed node gives a well-formed array |
| NodeOps.Grown | test/test_njson.cpp:90-110 | the intended index write makes the node an array with the index in range; it keeps the old elements, pads with nulls, and grows only as far as needed |
| NodeOps.Size | src/njson.cpp:301-307 | `size` is the number of array elements, and 0 for every other node; a positive size means an array |
| NodeOps.Empty | src/njson.cpp:309-317 | `empty` holds for exactly null, the empty array and the empty object |
| NodeOps.IsNull | src/njson.cpp:319-322 | `isNull` holds exactly for the nodes that are empty without being an array or object; a null node has size 0 |
| NodeOps.IsObject | src/njson.cpp:329-332 | `isObject` holds exactly for objects; an object has size 0 and is empty exactly when it has no members |
| NodeOps.IsArray | src/njson.cpp:334-337 | `isArray` holds exactly for arrays, and for them `empty` and size 0 agree |
| NodeOps.IsString | src/njson.cpp:339-342 | a string node, even "", is never empty and has size 0 |
| NodeOps.IsInt | src/njson.cpp:344-347 | `isInt` holds exactly when the node is the int `asInt` reads; an int is numeric |
| NodeOps.IsNumeric | src/njson.cpp:349-352 | `isNumeric` holds exactly when the node is what one of the number accessors reads back; a number is never empty and has size 0 |
| NodeOps.HasMember | src/njson.cpp:324-327 | `isMember` holds exactly when some member's name equals the name up to its first NUL |
| NodeOps.SizeAndEmpty | src/njson.cpp:301-317 | `size` counts only array elements; for an array, size 0 and empty agree; a positive size means not empty |
| NodeOps.AsCString | src/njson.cpp:354-360 | `asCString` gives a pointer exactly for a string node, holding its text up to the first NUL |
| NodeOps.AsString | src/njson.cpp:362-368 | `asString` is `asCString`'s text, or "" when there is none; a non-empty result comes from a string node and is a prefix of its text |
| NodeOps.AsInt | src/njson.cpp:370-376 | `asInt` reads an int node's value; a non-zero result comes only from an int node holding it |
| NodeOps.AsUInt | src/njson.cpp:378-384 | `asUInt` reads an unsigned node's value; a non-zero result comes only from an unsigned node holding it |
| NodeOps.AsLargestInt | src/njson.cpp:386-392 | `asLargestInt` reads a 64-bit node's value; a non-zero result comes only from a 64-bit node holding it |
| NodeOps.AsBool | src/njson.cpp:394-400 | `asBool` reads a bool node's value; true comes only from the node `true` |
| NodeOps.AsFloat | src/njson.cpp:402-408 | `asFloat` reads a float node's bits; non-zero bits come only from a float node holding them |
| NodeOps.AsDouble | src/njson.cpp:410-416 | `asDouble` reads a double node's bits; non-zero bits come only from a double node holding them |
| NodeOps.SetThenGet | src/njson.cpp:249-416 | in this model, where each setter makes its own variant, what a setter stores is read back by its own accessor and reads as the default through the others; numbers are numeric and a bool is not |
| NodeOps.Cleared | src/njson.cpp:433-439 | `clear` empties an array or object and keeps its variant; every other node is unchanged; the result has size 0 |
| NodeOps.ClearedEmpty | src/njson.cpp:433-439 | after `clear`, `empty` holds exactly for containers and null; clearing twice is clearing once |
| Handles.NewValue | src/njson.cpp:172-175 | the default constructor gives a handle on a fresh document holding null |
| Handles.NewFromType | src/njson.cpp:188-192 | the type constructor as written gives a fresh empty array whatever the tag |
| Handles.NewFromTypeIntended | src/njson.cpp:188-192 | the corrected type constructor gives null for `nullValue` and an empty array for `arrayValue` |
| Handles.NewFromString | src/njson.cpp:194-198 | the string constructor gives a fresh document holding the string up to its first NUL |
| Handles.CopyOf | src/njson.cpp:182-186 | the copy constructor gives a fresh document whose root equals the source node, so it does not alias the source |
| Handles.Value.Member | src/njson.cpp:200-203 | the mutating `[name]` applies the member lookup in place and returns the handle on that member, which holds its old child or null |
| Handles.Value.ConstMember | src/njson.cpp:205-208 | the const `[name]` still turns null into an empty object and adds no member; a present name gives an aliasing handle, an absent one a fresh detached null |
| Handles.Value.Index | src/njson.cpp:210-218 | `[index]` on an array with the index in range returns the handle aliasing that element and changes nothing |
| Handles.Value.IndexOrGrow | test/test_njson.cpp:90-110 | the intended index write grows the node in place and returns the handle on the element, which holds the old element or null |
| Handles.Value.Assign | src/njson.cpp:220-225 | copy assignment of another handle writes the source's old node into the receiver's place only; a source in another document or a disjoint place keeps its content |
| Handles.Value.AssignType | src/njson.cpp:227-239 | `= nullValue` gives null and `= arrayValue` an empty array, both empty; the node is null exactly for `nullValue` |
| Handles.Value.AssignCString | src/njson.cpp:241-247 | a null pointer leaves the whole document unchanged; otherwise the node becomes the string up to its first NUL |
| Handles.Value.AssignInt | src/njson.cpp:249-254 | `= int` stores a 32-bit int in the receiver's place only |
| Handles.Value.AssignUInt | src/njson.cpp:256-261 | `= unsigned` stores an unsigned 32-bit int in the receiver's place only |
| Handles.Value.AssignInt64 | src/njson.cpp:263-268 | `= long long` stores a 64-bit int in the receiver's place only |
| Handles.Value.AssignBool | src/njson.cpp:270-275 | `= bool` stores the bool in the receiver's place only |
| Handles.Value.AssignFloat | src/njson.cpp:277-282 | `= float` stores the float in the receiver's place only |
| Handles.Value.AssignDouble | src/njson.cpp:284-289 | `= double` stores the double in the receiver's place only |
| Handles.Value.Append | src/njson.cpp:291-299 | `append` resets a non-array to an empty array, then adds a copy of the source as seen after that reset, or of the source's old node when the reset removed its place; the old elements are kept in order; it returns the receiver |
| Handles.Value.Clear | src/njson.cpp:433-439 | `clear` applies the clear to the receiver's place only, leaving a former container empty |
| Handles.Value.Swap | src/njson.cpp:428-431 | `swap` exchanges the two nodes; each handle keeps its place; across documents each document changes at one place only |
| Handles.Value.Begin | src/njson.cpp:418-421 | `begin` gives a new cursor on the first element of the array |
| Handles.Value.End | src/njson.cpp:423-426 | `end` gives a new cursor one past the last element |
| Handles.Iterator.constructor | src/njson.cpp:121-124 | a cursor is built on a given array place and position |
| Handles.Iterator.Next | src/njson.cpp:136-148 | both forms of `++` advance the shared cursor by one and return the same iterator |
| Handles.Iterator.Prev | src/njson.cpp:150-162 | both forms of `--` step the shared cursor back by one and return the same iterator |
| Handles.Iterator.Deref | src/njson.cpp:164-167 | `*` gives the handle aliasing the current element |
| Handles.Iterator.Equals | src/njson.cpp:126-134 | two iterators that are `==` (not `!=`) dereference to the same node when on an element |
| Handles.Parse | src/njson.cpp:444-456 | parse reports success exactly when the parser accepts the text up to its first NUL; on success the receiver's place gets the parsed tree, on failure the document is unchanged |
| Scenarios.SetKeyMembers | src/njson.cpp:200-225 | `v[k] = x` binds k to x, leaves every other name's child, appends k when absent and overwrites in place when present |
| Scenarios.NamesFindKey | src/njson.cpp:102-115 | a name is absent from the member names exactly when the member search finds nothing |
| Scenarios.HasMemberNames | src/njson.cpp:324-327 | for a NUL-free name, `isMember` holds exactly when the name is among the object's member names |
| Scenarios.FirstIndex | src/njson.cpp:102-115 | a member whose name does not occur earlier is the one the member search finds |
| Scenarios.MemberWrite | src/njson.cpp:200-225 | a lookup followed by a write through the member handle equals one write of the updated object |
| Scenarios.Store | src/njson.cpp:249-289 | a scalar assignment writes exactly that scalar at the handle's place |
| Scenarios.AddMember | src/njson.cpp:102-115 | `v[name] = x` for a new name appends the member, keeps the earlier members and names, and touches only v's place |
| Scenarios.OverwriteMember | src/njson.cpp:102-115 | `v[name] = x` for a present name replaces that member's value where it stands and keeps the names |
| Scenarios.CopyNewMember | src/njson.cpp:220-225 | `v[name] = src` for a new name appends a copy of src and leaves src unchanged |
| Scenarios.AppendNewMember | src/njson.cpp:291-299 | `v[name].append(item)` for a new name adds a one-element array holding a copy of item |
| Scenarios.AppendToMember | src/njson.cpp:291-299 | `v[name].append(item)` for a present name appends to that member in place and keeps the names |
| Scenarios.Get | src/njson.cpp:102-115 | looking up a present name changes nothing and aliases its member |
| Scenarios.HandleLargestInt | test/test_njson.cpp:285-296 | a 64-bit value beyond 32 bits and one within are both read back by `asLargestInt` |
| Scenarios.MakeSimpleObject | test/test_njson.cpp:37-66 | after the six writes, every member reads back through its own accessor (0.1 and 3.14f as bit patterns); the string is a string with the same C string and not numeric, the bool is not numeric, the int and the double are |
| Scenarios.MakeAndParseValue | test/test_njson.cpp:271-283 | string, int and bool members read back through their accessors |
| Scenarios.OverrideObjectValue | test/test_njson.cpp:229-238 | a second write to a name replaces the first |
| Scenarios.AssignNullValue | test/test_njson.cpp:298-306 | a member assigned `nullValue` is null and empty |
| Scenarios.MakeMultipleObject | test/test_njson.cpp:112-123 | nested members written through chained lookups read back |
| Scenarios.AddLeader | test/test_njson.cpp:259-264 | `builder["leader"] = leader` appends the leader object after the existing members |
| Scenarios.CountAndFirstPerson | test/test_njson.cpp:240-254 | the first two builder steps give the count and a one-person array |
| Scenarios.AppendObjectToJson | test/test_njson.cpp:240-264 | the builder produces the default tree, and adding the leader gives the default members followed by the leader |
| Scenarios.AppendObjectToParsed | test/test_njson.cpp:256-268 | adding the leader to the parsed default tree gives the same tree as adding it to the built one |
| Scenarios.NameAndFirstCar | test/test_njson.cpp:366-385 | the first steps of the swap test build the name and a one-car array |
| Scenarios.BuildCars | test/test_njson.cpp:366-385 | the swap test's source value is the expected car tree |
| Scenarios.SwapValue | test/test_njson.cpp:366-385 | after `swap` the empty destination holds the car tree and the source is null and empty |
| Scenarios.AppendCopy | src/njson.cpp:291-299 | appending an item from another document adds its copy at the end and leaves the item unchanged |
| Scenarios.BuildItems | test/test_njson.cpp:336-364 | an array built by `Value(arrayValue)` and two appends holds the two items |
| Scenarios.ConstructValue | test/test_njson.cpp:336-364 | the string constructor reads back; the built array has size 2; `clear` empties it; a copy equals the built array |
| Scenarios.IndexItems | test/test_njson.cpp:68-80 | the k-th item is the object binding "index" to k |
| Scenarios.BuildIndexArray | test/test_njson.cpp:68-80 | ten appends of `{"index": i}` leave exactly the ten items in order (loop invariant) |
| Scenarios.MakeSimpleArray | test/test_njson.cpp:68-88 | the copied array has size 10 and every element's "index" equals its position |
| Scenarios.CheckEachByIterator | test/test_njson.cpp:154-170 | the iterator loop finds both names in every element exactly when every element has both |
| Scenarios.CheckEachByIndex | test/test_njson.cpp:154-170 | the index loop finds both names in every element exactly when every element has both |
| Scenarios.BuildingsHaveMembers | test/test_njson.cpp:141-170 | every building is an object with "location" and "hq" |
| Scenarios.ParseMemberTree | src/njson.cpp:444-456 | parsing the member text into a new value yields the member tree |
| Scenarios.ParsingAndCheckMember | test/test_njson.cpp:141-144 | `isMember` holds for "company" and "building" at the root and fails for "location" and "hq" |
| Scenarios.ParsingAndCheckBuildings | test/test_njson.cpp:146-170 | both visiting loops find "location" and "hq" in every building |
| Scenarios.ParsingNoExistNode | test/test_njson.cpp:173-188 | a missing member reads size 0, 0, "", 0.0 and false, is neither object nor array, and is added to the root as null |
| Scenarios.ConstLookupOfMissing | src/njson.cpp:205-208 | the const lookup of a missing name gives null and leaves the parsed object without that member |
| Scenarios.ParseDefault | test/test_njson.cpp:125-134 | parsing the default text yields the default tree |
| Scenarios.CheckKeyAndGetValue | test/test_njson.cpp:203-214 | "count" is a non-empty int 2 and "people" a non-empty array of size 2 |
| Scenarios.PersonName | test/test_njson.cpp:216-226 | the i-th person's name is non-empty, "jean" then "kim", and reading changes nothing |
| Scenarios.CheckKeyAndGetPeople | test/test_njson.cpp:216-226 | both people's names read back, non-empty |
| Scenarios.CopyParsedValue | test/test_njson.cpp:320-334 | the assigned copy of "people" lives in its own document, apart from the parsed one, and its names read "jean" and "kim" |
| Scenarios.ClearValue | test/test_njson.cpp:387-403 | clearing any parsed object or array leaves it empty |
| Scenarios.GrownWith | test/test_njson.cpp:90-110 | the intended `v[name][i] = y` puts y at i and keeps the old elements elsewhere, padding with nulls |
| Scenarios.GrowWrite | test/test_njson.cpp:90-110 | lookup, growth and element write equal one write of the updated object |
| Scenarios.GrowAt | test/test_njson.cpp:90-110 | `v[name][i]` grows that member in place and aliases the element |
| Scenarios.StoreAtIndex | test/test_njson.cpp:90-110 | `v[name][i] = x` binds name to the grown array with x at i |
| Scenarios.AddMemberAtIndex | test/test_njson.cpp:90-110 | `v[name][i][key] = x` past the end puts the object {key: x} at i |
| Scenarios.GrownWithAtEnd | test/test_njson.cpp:90-110 | writing at index = size is appending |
| Scenarios.NewByIndex | test/test_njson.cpp:90-110 | `v[name][0] = x` for a new name adds the one-element array [x] |
| Scenarios.PushByIndex | test/test_njson.cpp:90-110 | `v[name][size] = x` on an array member appends x and keeps the names |
| Scenarios.NewObjectByIndex | test/test_njson.cpp:90-110 | `v[name][0][key] = x` for a new name adds [{key: x}] |
| Scenarios.ItemsByIndex | test/test_njson.cpp:90-96 | three index writes build the items array |
| Scenarios.OrdersAndInternals | test/test_njson.cpp:90-101 | the six index writes build the expected tree |
| Scenarios.MakeArrayByIndex | test/test_njson.cpp:90-106 | with the intended index write, items has size 3, orders size 2, and the written strings read back |
| Scenarios.MakeArrayByIndexNested | test/test_njson.cpp:107-110 | the nested "type" reads "basic" through the chained lookup and again through `sub_value`, which is the same handle as the chained element (the element of "internals" at index 0), not a copy |
| Scenarios.MakeArrayByIndexAsWritten | src/njson.cpp:210-213 | with the index operator as written, "items" stays null with size 0 before any write |
| Scenarios.NullTypeConstructorAsWritten | src/njson.cpp:188-192 | `Value(nullValue)` as written is an array and not null |
| Scenarios.NullTypeConstructor | src/njson.cpp:188-192 | the corrected `Value(nullValue)` is null and empty |
| Scenarios.SwapTwice | src/njson.cpp:428-431 | swapping two handles twice restores both documents |
| Scenarios.WriteThroughAlias | src/njson.cpp:102-115 | two mutating lookups of one name give the same handle, so a write through one is read through the other |
| Scenarios.BeginMeetsEnd | src/njson.cpp:126-134 | `begin()` and `end()` of an array are `==` exactly when the array is empty |
| Scenarios.AppendOwnMember | src/njson.cpp:291-299 | `v.append(v["x"])` on the object {"x": x} leaves v the array [x] |

## Left out

- Text parsing and tokenising are rapidjson's `Document::Parse`, outside this source. `Handles.Parse` takes the parser as a function parameter.
- Stream input (`operator>>`, include/njson/njson.h:136) is declared but not defined in this source. The ParsingFromStream test (test/test_njson.cpp:190-201) also reads a file. Neither is modelled.
- The writers and `stringify` (src/njson.cpp:28-40, 458-466) produce text through rapidjson's writers, which are not modelled. The tests' `writer.write(...) == "..."` assertions are stated as equalities of trees instead.
- Memory is not modelled. This covers the shared pointers and allocators (src/njson.cpp:66-94), dangling handles after a document is freed, and `swap` leaving each handle with its old allocator. A `Doc` stands for a document's tree and its lifetime.
- The `ValueArgs` constructor (src/njson.cpp:177-180) only wraps a native pointer. It appears as `Value(doc, path)` built by navigation and by `Parse`.
- Float and double numbers are opaque bit patterns: no rounding and no conversion between widths. rapidjson's number flags overlap (an int that fits also reads as unsigned and 64-bit, for example). The model uses one variant per setter, so each accessor gives the default for every other variant.
- `Value(const char*)`, `Value(bool)`, `Value::operator==` and `isBool` (include/njson/njson.h:64-67, 92) are declared with no definition in this source. The test assertions that compare a `Value` with `==` (test/test_njson.cpp:109, 282) are stated on the string or bool read back instead.
- Handles.Value.Index: requires an array and an index in range. rapidjson asserts both, and beyond them the behaviour is undefined.
- Handles.Value.Member: requires a null or object node, which rapidjson's member functions assert.
- Handles.Value.ConstMember: requires a null or object node, which rapidjson's member functions assert.
- NodeOps.HasMember: requires an object, which rapidjson's `HasMember` asserts.
- Handles.Value.Begin: requires an array, which rapidjson's `Begin` asserts. Handles.Value.End has the same requirement.
- Iterators over an array that changes length while they are live (iterator invalidation) are not modelled. Iterating an object's members is not modelled either.
- Handles.Value.Swap: within one document, two nested places are excluded. rapidjson exchanges the raw contents without a check, so swapping a node with its own ancestor leaves the descendant's slot holding the storage that contains it: a cyclic structure that a finite tree cannot represent.
- `ArrayIndex` is 32 bits. Arrays longer than that are not modelled, so CheckEachByIndex requires a length below 2^32.
- The scenario helpers are narrower than the operations they chain.
  - Scenarios.AddMember, OverwriteMember, NewByIndex, PushByIndex, NewObjectByIndex and StoreAtIndex take scalar values and NUL-free names.
  - CopyNewMember, AppendNewMember, AppendToMember and AppendCopy take an item from another document.
  - This keeps their proofs small. The general cases are the `Handles` operations themselves.
- Handles share storage, not places. In the source a handle holds a pointer to a node's storage (src/njson.cpp:70, 99, 166). In the model a handle holds a path that is looked up again at each use. The two agree while no container holding the handle's node, or one above it, is replaced or grown. They part ways in two ways. First, Handles.Value.Swap, Handles.Value.Assign, the `=` setters, Handles.Value.Clear and Handles.Value.Append replace or exchange a node above a live handle. Second, Handles.Value.Member (a new member), Handles.Value.Append and Handles.Value.IndexOrGrow grow a container. When its member or element buffer is full, rapidjson moves the buffer and does not free the old one, so a live handle on a sibling is left pointing into the stale copy. In both cases the model's handle follows the place and reads the new content, while the source's handle keeps pointing at the old storage. After `a.swap(b)`, for example, a handle taken as `a["x"]` reads and writes the member that now belongs to `b`. After `Value a = v["a"]` and enough new names in `v` to move its member buffer, `a = 1` writes into the old buffer and `v["a"]` still reads null. Handles.Value.Append is the one case the model follows: a source inside a reset receiver is read from its old node.
- Handles.Value.Assign: requires the source to be a different handle from the receiver, because rapidjson's copy asserts that a node is not copied onto itself. Copying an ancestor into its own descendant (`v["x"] = v`) reads storage that the copy is overwriting. The model gives the ancestor's old node, which the source does not promise.
- The replays NameAndFirstCar, BuildCars, SwapValue and ConstructValue write `NJson::Value("benz")`, `NJson::Value("bmw")` and `NJson::Value("DATA_VALUE")` (test/test_njson.cpp:338, 375-376). For a string literal C++ chooses `Value(const char*)` (include/njson/njson.h:64), which has no definition in this source. These replays assume it behaves like `Value(const std::string&)` (src/njson.cpp:194-198), modelled by Handles.NewFromString.
- Strings are Dafny strings, sequences of Unicode characters. The source stores bytes, which need not be valid UTF-8, and this is not modelled. Only the NUL cut-off of C strings is modelled.
- C++ copy elision: in `Value c = v["k"]` the handle returned by the lookup becomes `c` itself, so `c` aliases the member. It is not a copy made by the copy constructor. The model follows the code. `Value c; c = v["k"];` is what copies, as in MakeSimpleArray.

## Findings

| source | as written | input that shows it | evidently intended | confidence | as-written member | corrected member |
|---|---|---|---|---|---|---|
| src/njson.cpp:188-192 | `Value(ValueType)` makes an array whatever the tag | `Value(nullValue)` is an array, not null | the node `operator=(ValueType)` gives: null for `nullValue`, an empty array for `arrayValue` | not executed | Scenarios.NullTypeConstructorAsWritten | Handles.NewFromTypeIntended |
| src/njson.cpp:210-213 | `operator[](index)` only indexes an existing element and never grows the array | `value["items"][0] = "item_1"` on a fresh value: "items" is null, not an array, so the index is out of range (MakeArrayByIndex, test/test_njson.cpp:90-110) | make the node an array and pad it with nulls up to the index, as the test expects | not executed | Scenarios.MakeArrayByIndexAsWritten | Handles.Value.IndexOrGrow |
