/** `RQuery.Propertize` and `RQuery.Instantiate`: a table of properties is
    applied to an instance. `Attributes` entries become attributes, `Tags`
    entries become tags, `Children` are reparented under the instance, and
    every key except `Children` is also assigned as a raw property, a write
    the host may refuse (it is then only warned about). */
module Properties {
  import opened HostTree

  /** An attribute value; three of the host's kinds stand for all of them. */
  datatype AttrValue = AttrString(text: string) | AttrNumber(number: int) | AttrBool(flag: bool)

  /** A value of the properties table. */
  datatype Value =
    | AttributeTable(entries: map<string, AttrValue>)
    | TagList(tags: seq<string>)
    | InstanceList(items: seq<Inst>)
    /** any other property value, known only by identity */
    | Opaque(code: int)

  /** An instance as `Propertize` sees it. */
  class Inst {
    const className: string
    var attributes: map<string, AttrValue>
    var tags: set<string>
    /** raw properties written by `inst[k] = v` */
    var props: map<string, Value>
    var parent: Inst?

    /** `new Instance(className)`: no attributes, tags or properties, no parent. */
    constructor (className: string)
      ensures this.className == className
      ensures attributes == map[] && tags == {} && props == map[] && parent == null
    {
      this.className := className;
      attributes, tags, props, parent := map[], {}, map[], null;
    }

    /** `SetAttribute(key, value)`. */
    method SetAttribute(key: string, value: AttrValue)
      modifies this`attributes
      ensures attributes == old(attributes)[key := value]
    {
      attributes := attributes[key := value];
    }

    /** `AddTag(tag)`: adding a tag twice is adding it once. */
    method AddTag(tag: string)
      modifies this`tags
      ensures tags == old(tags) + {tag}
    {
      tags := tags + {tag};
    }
  }

  /** The shapes the branches cast the three special keys to: the table's
      type declares those of `Children` and `Attributes`, and `Tags` gets its
      shape only from the `string[]` cast. */
  predicate WellShaped(properties: map<string, Value>) {
    ("Attributes" in properties ==> properties["Attributes"].AttributeTable?) &&
    ("Tags" in properties ==> properties["Tags"].TagList?) &&
    ("Children" in properties ==> properties["Children"].InstanceList?)
  }

  /** The attributes the table sets. */
  function AttributesOf(properties: map<string, Value>): map<string, AttrValue> {
    if "Attributes" in properties && properties["Attributes"].AttributeTable? then
      properties["Attributes"].entries
    else map[]
  }

  /** The tags the table adds. */
  function TagsOf(properties: map<string, Value>): set<string> {
    if "Tags" in properties && properties["Tags"].TagList? then set t | t in properties["Tags"].tags else {}
  }

  /** The instances the table reparents. */
  function ChildrenOf(properties: map<string, Value>): set<Inst> {
    if "Children" in properties && properties["Children"].InstanceList? then
      set c | c in properties["Children"].items
    else {}
  }

  /** The raw property writes the host accepts. */
  function RawWrites(properties: map<string, Value>, accepts: (string, Value) -> bool): map<string, Value> {
    map k | k in properties && k != "Children" && accepts(k, properties[k]) :: properties[k]
  }

  /** The keys whose raw write the host refuses; one warning each. */
  function Refused(properties: map<string, Value>, accepts: (string, Value) -> bool): set<string> {
    set k | k in properties && k != "Children" && !accepts(k, properties[k])
  }

  /** `Children` is the only key kept out of the raw assignment: every other
      key, `Attributes` and `Tags` included, is either written or warned
      about, never both. */
  lemma RawAssignmentCoversAllButChildren(properties: map<string, Value>, accepts: (string, Value) -> bool)
    ensures RawWrites(properties, accepts).Keys + Refused(properties, accepts) == properties.Keys - {"Children"}
    ensures RawWrites(properties, accepts).Keys !! Refused(properties, accepts)
    ensures forall k :: k in RawWrites(properties, accepts) ==> RawWrites(properties, accepts)[k] == properties[k]
  {
  }

  /** The `Attributes` branch: `SetAttribute` for each entry of the table. */
  method ApplyAttributes(inst: Inst, entries: map<string, AttrValue>)
    modifies inst`attributes
    ensures inst.attributes == old(inst.attributes) + entries
  {
    var pending := entries.Keys;
    while pending != {}
      invariant pending <= entries.Keys
      invariant inst.attributes == old(inst.attributes) + map a | a in entries.Keys - pending :: entries[a]
      decreases pending
    {
      var a :| a in pending;
      inst.SetAttribute(a, entries[a]);
      pending := pending - {a};
    }
    assert (map a | a in entries.Keys - pending :: entries[a]) == entries;
  }

  /** The `Tags` branch: `AddTag` for each listed tag. */
  method ApplyTags(inst: Inst, tags: seq<string>)
    modifies inst`tags
    ensures inst.tags == old(inst.tags) + set t | t in tags
  {
    var j := 0;
    while j < |tags|
      invariant j <= |tags|
      invariant inst.tags == old(inst.tags) + set t | t in tags[..j]
    {
      inst.AddTag(tags[j]);
      assert tags[..j + 1] == tags[..j] + [tags[j]];
      j := j + 1;
    }
    assert tags[..j] == tags;
  }

  /** The `Children` branch: `child.Parent = inst` for each listed child. */
  method Reparent(inst: Inst, items: seq<Inst>)
    modifies items`parent
    ensures forall c :: c in items ==> c.parent == inst
  {
    var j := 0;
    while j < |items|
      invariant j <= |items|
      invariant forall c :: c in items[..j] ==> c.parent == inst
    {
      items[j].parent := inst;
      assert items[..j + 1] == items[..j] + [items[j]];
      j := j + 1;
    }
    assert items[..j] == items;
  }

  /** The raw assignment `inst[k] = v`, inside a `try`: a refused write
      changes nothing and is reported. */
  method AssignRaw(inst: Inst, k: string, v: Value, accepts: (string, Value) -> bool) returns (refused: bool)
    modifies inst`props
    ensures refused == !accepts(k, v)
    ensures inst.props == if refused then old(inst.props) else old(inst.props)[k := v]
  {
    refused := !accepts(k, v);
    if !refused {
      inst.props := inst.props[k := v];
    }
  }

  /** What one more key of the table adds through the three branches:
      only its own key of the table feeds each of them. */
  lemma ExtendBranches(done: map<string, Value>, k: string, v: Value)
    requires k !in done
    ensures AttributesOf(done[k := v]) == if k == "Attributes" && v.AttributeTable? then v.entries else AttributesOf(done)
    ensures TagsOf(done[k := v]) == if k == "Tags" && v.TagList? then set t | t in v.tags else TagsOf(done)
    ensures ChildrenOf(done[k := v]) == if k == "Children" && v.InstanceList? then set c | c in v.items else ChildrenOf(done)
  {
  }

  /** What one more key of the table adds through the raw assignment: one
      accepted write or one refused key, `Children` excepted. */
  lemma ExtendRaw(done: map<string, Value>, k: string, v: Value, accepts: (string, Value) -> bool)
    requires k !in done
    ensures RawWrites(done[k := v], accepts) ==
            if k != "Children" && accepts(k, v) then RawWrites(done, accepts)[k := v] else RawWrites(done, accepts)
    ensures Refused(done[k := v], accepts) ==
            if k != "Children" && !accepts(k, v) then Refused(done, accepts) + {k} else Refused(done, accepts)
  {
    if k != "Children" && accepts(k, v) {
      assert RawWrites(done[k := v], accepts).Keys == RawWrites(done, accepts)[k := v].Keys;
    } else {
      assert RawWrites(done[k := v], accepts).Keys == RawWrites(done, accepts).Keys;
    }
  }

  lemma MergeUpdate<K, V>(a: map<K, V>, b: map<K, V>, k: K, v: V)
    ensures a + b[k := v] == (a + b)[k := v]
  {
  }

  /** The instances a key reparents: the list under `Children`, none otherwise. */
  function Reparented(k: string, v: Value): set<Inst> {
    if k == "Children" && v.InstanceList? then set c | c in v.items else {}
  }

  /** The body of the `pairs` loop for one key `k` with value `v`: the three
      independent `if`s of the TypeScript loop body, the last one with the
      raw assignment as its `else`. */
  method ApplyKey(inst: Inst, k: string, v: Value, accepts: (string, Value) -> bool) returns (failed: bool)
    requires k == "Attributes" ==> v.AttributeTable?
    requires k == "Tags" ==> v.TagList?
    requires k == "Children" ==> v.InstanceList?
    modifies inst`attributes, inst`tags, inst`props, Reparented(k, v)`parent
    ensures inst.attributes == if k == "Attributes" then old(inst.attributes) + v.entries else old(inst.attributes)
    ensures inst.tags == if k == "Tags" then old(inst.tags) + set t | t in v.tags else old(inst.tags)
    ensures inst.props == if k != "Children" && accepts(k, v) then old(inst.props)[k := v] else old(inst.props)
    ensures failed == (k != "Children" && !accepts(k, v))
    ensures forall c :: c in Reparented(k, v) ==> c.parent == inst
  {
    failed := false;
    if k == "Attributes" {
      ApplyAttributes(inst, v.entries);
    }
    if k == "Tags" {
      ApplyTags(inst, v.tags);
    }
    if k == "Children" {
      Reparent(inst, v.items);
    } else {
      failed := AssignRaw(inst, k, v, accepts);
    }
  }

  /** One turn of the `pairs` loop in `Propertize`, stated against the part
      `done` of the table already applied on top of the state `attributes0`,
      `tags0`, `props0` at the start. */
  method ApplyEntry(inst: Inst, ghost done: map<string, Value>, k: string, v: Value, accepts: (string, Value) -> bool,
                    ghost attributes0: map<string, AttrValue>, ghost tags0: set<string>, ghost props0: map<string, Value>)
    returns (failed: bool)
    requires k !in done
    requires k == "Attributes" ==> v.AttributeTable?
    requires k == "Tags" ==> v.TagList?
    requires k == "Children" ==> v.InstanceList?
    requires inst.attributes == attributes0 + AttributesOf(done)
    requires inst.tags == tags0 + TagsOf(done)
    requires inst.props == props0 + RawWrites(done, accepts)
    modifies inst`attributes, inst`tags, inst`props, Reparented(k, v)`parent
    ensures inst.attributes == attributes0 + AttributesOf(done[k := v])
    ensures inst.tags == tags0 + TagsOf(done[k := v])
    ensures inst.props == props0 + RawWrites(done[k := v], accepts)
    ensures ChildrenOf(done[k := v]) == ChildrenOf(done) + Reparented(k, v)
    ensures forall c :: c in Reparented(k, v) ==> c.parent == inst
    ensures Refused(done[k := v], accepts) == if failed then Refused(done, accepts) + {k} else Refused(done, accepts)
  {
    ExtendBranches(done, k, v);
    ExtendRaw(done, k, v, accepts);
    if k == "Attributes" {
      assert AttributesOf(done) == map[];
      assert attributes0 + map[] == attributes0;
    }
    failed := ApplyKey(inst, k, v, accepts);
    if !failed && k != "Children" {
      MergeUpdate(props0, RawWrites(done, accepts), k, v);
    }
  }

  /** `RQuery.Propertize(inst, properties)`, returning `inst` and the keys
      whose raw write was refused. The order of `pairs` does not show in the
      result: each key touches its own part of the state. */
  method Propertize(inst: Inst, properties: map<string, Value>, accepts: (string, Value) -> bool)
    returns (r: Inst, refused: set<string>)
    requires WellShaped(properties)
    modifies inst`attributes, inst`tags, inst`props, ChildrenOf(properties)`parent
    ensures r == inst
    ensures inst.attributes == old(inst.attributes) + AttributesOf(properties)
    ensures inst.tags == old(inst.tags) + TagsOf(properties)
    ensures inst.props == old(inst.props) + RawWrites(properties, accepts)
    ensures forall c :: c in ChildrenOf(properties) ==> c.parent == inst
    ensures refused == Refused(properties, accepts)
  {
    var keys := properties.Keys;
    refused := {};
    ghost var done: map<string, Value> := map[];
    while keys != {}
      invariant keys <= properties.Keys
      invariant forall k :: k in done <==> k in properties && k !in keys
      invariant forall k :: k in done ==> done[k] == properties[k]
      invariant inst.attributes == old(inst.attributes) + AttributesOf(done)
      invariant inst.tags == old(inst.tags) + TagsOf(done)
      invariant inst.props == old(inst.props) + RawWrites(done, accepts)
      invariant forall c :: c in ChildrenOf(done) ==> c.parent == inst
      invariant refused == Refused(done, accepts)
      decreases keys
    {
      var k :| k in keys;
      var v := properties[k];
      assert k == "Children" ==> Reparented(k, v) == ChildrenOf(properties);
      var failed := ApplyEntry(inst, done, k, v, accepts, old(inst.attributes), old(inst.tags), old(inst.props));
      if failed {
        refused := refused + {k};
      }
      keys := keys - {k};
      done := done[k := v];
    }
    assert done == properties;
    r := inst;
  }

  /** `RQuery.Instantiate(className, properties)`: a new instance, propertized
      when a table is given. */
  method Instantiate(className: string, properties: Option<map<string, Value>>, accepts: (string, Value) -> bool)
    returns (inst: Inst, refused: set<string>)
    requires properties.Some? ==> WellShaped(properties.value)
    modifies (if properties.Some? then ChildrenOf(properties.value) else {})`parent
    ensures fresh(inst) && inst.className == className
    ensures properties.None? ==>
              inst.attributes == map[] && inst.tags == {} && inst.props == map[] && inst.parent == null && refused == {}
    ensures properties.Some? ==>
              inst.attributes == AttributesOf(properties.value) && inst.tags == TagsOf(properties.value) &&
              inst.props == RawWrites(properties.value, accepts) && inst.parent == null &&
              refused == Refused(properties.value, accepts) &&
              forall c :: c in ChildrenOf(properties.value) ==> c.parent == inst
  {
    inst := new Inst(className);
    refused := {};
    if properties.Some? {
      var _, r := Propertize(inst, properties.value, accepts);
      refused := r;
    }
  }
}
