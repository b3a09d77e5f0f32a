/** The `MenuItemDefinition` record of the on-device menus: eleven fields
    with defaults, an equality that looks only at the name and the label,
    a hash of the two concatenated, construction from a dictionary of
    keyword arguments, and the display name. */
module MenuDefinition {
  import opened PyBuiltins

  /** A Python class object, known by its qualified name. */
  datatype ClassRef = ClassRef(qualifiedName: string)

  /** The class `object`, the default menu class. */
  const ObjectClass: ClassRef := ClassRef("builtins.object")

  /** A catalog object; its contents do not matter here. */
  datatype CompositeObject = CompositeObject(id: nat)

  datatype MenuItem = MenuItem(
    name: string,
    menuClass: ClassRef,
    stateful: bool,
    state: Value,
    preload: bool,
    select: string,
    items: seq<Value>,
    objects: seq<CompositeObject>,
    labelText: string,
    sorting: seq<string>,
    enabled: bool)

  /** `MenuItemDefinition()` with every field at its default: empty name,
      label and select, no items, objects or sorting keys, not stateful,
      not preloaded, enabled, state None, menu class `object`. */
  function Default(): (z: MenuItem)
    ensures z.name == "" && z.labelText == "" && z.select == ""
    ensures z.items == [] && z.objects == [] && z.sorting == []
    ensures !z.stateful && !z.preload && z.enabled
    ensures z.state == NoneValue && z.menuClass == ObjectClass
  {
    MenuItem("", ObjectClass, false, NoneValue, false, "", [], [], "", [], true)
  }

  /** Any Python object an item can be compared with: another item, or a
      value of some other type. */
  datatype PyObject = Item(item: MenuItem) | Other(value: Value)

  /** `self.__eq__(other)`: `None` stands for `NotImplemented`. */
  function Eq(self: MenuItem, other: PyObject): (r: Option<bool>)
    ensures r.None? <==> other.Other?
    ensures r.Some? ==> (r.value <==> self.name == other.item.name && self.labelText == other.item.labelText)
  {
    match other
    case Other(_) => None
    case Item(o) => Some(self.name == o.name && self.labelText == o.labelText)
  }

  /** Python's `a == b` when at least one side is an item: `a.__eq__(b)`,
      then the reflected `b.__eq__(a)` if that is `NotImplemented`, and
      identity (never true for an item and a non-item) if both are. A
      non-item's own `__eq__` returns `NotImplemented` for an item. */
  function EqOperator(a: PyObject, b: PyObject): (r: bool)
    requires a.Item? || b.Item?
    ensures a.Item? && b.Item? ==> (r <==> a.item.name == b.item.name && a.item.labelText == b.item.labelText)
    ensures a.Other? || b.Other? ==> !r
  {
    var forward := if a.Item? then Eq(a.item, b) else None;
    var reflected := if b.Item? then Eq(b.item, a) else None;
    match (forward, reflected)
    case (Some(x), _) => x
    case (None, Some(y)) => y
    case (None, None) => false
  }

  /** Two items are equal exactly when their names and labels are. */
  lemma EqualIffNameAndLabel(a: MenuItem, b: MenuItem)
    ensures EqOperator(Item(a), Item(b)) <==> a.name == b.name && a.labelText == b.labelText
  {
  }

  /** Changing any field other than the name and the label keeps an item
      equal to the original. */
  lemma EqualityIgnoresOtherFields(
    a: MenuItem, menuClass: ClassRef, stateful: bool, state: Value, preload: bool,
    select: string, items: seq<Value>, objects: seq<CompositeObject>,
    sorting: seq<string>, enabled: bool)
    ensures var b := a.(menuClass := menuClass, stateful := stateful, state := state,
                        preload := preload, select := select, items := items,
                        objects := objects, sorting := sorting, enabled := enabled);
            Eq(a, Item(b)) == Some(true) && EqOperator(Item(a), Item(b))
  {
  }

  /** Comparing with anything that is not an item gives `NotImplemented`,
      and `==` then falls back to False on either side. */
  lemma EqWithNonItem(a: MenuItem, v: Value)
    ensures Eq(a, Other(v)) == None
    ensures !EqOperator(Item(a), Other(v)) && !EqOperator(Other(v), Item(a))
  {
  }

  /** Equality on items is reflexive, symmetric and transitive. */
  lemma EqualityIsEquivalence(a: MenuItem, b: MenuItem, c: MenuItem)
    ensures EqOperator(Item(a), Item(a))
    ensures EqOperator(Item(a), Item(b)) ==> EqOperator(Item(b), Item(a))
    ensures EqOperator(Item(a), Item(b)) && EqOperator(Item(b), Item(c)) ==> EqOperator(Item(a), Item(c))
  {
  }

  /** `__hash__`: Python's string hash of the name followed by the label.
      The string hash is salted per process, so it is a parameter. */
  function Hash(item: MenuItem, strHash: string -> int): (h: int)
    ensures h == strHash(item.name + item.labelText)
  {
    strHash(item.name + item.labelText)
  }

  /** Equal items have equal hashes, whatever the string hash is. */
  lemma HashConsistentWithEq(a: MenuItem, b: MenuItem, strHash: string -> int)
    requires EqOperator(Item(a), Item(b))
    ensures Hash(a, strHash) == Hash(b, strHash)
  {
  }

  /** The converse fails: the name "ab" with an empty label and the name
      "a" with the label "b" hash alike under every string hash but are
      not equal. */
  lemma HashCollidesOnSplitPoint(strHash: string -> int)
    ensures var a := Default().(name := "ab");
            var b := Default().(name := "a", labelText := "b");
            Hash(a, strHash) == Hash(b, strHash) && !EqOperator(Item(a), Item(b))
  {
    assert "ab" + "" == "a" + "b";
  }

  /** `display_name`: the name, formatted as a string. */
  function DisplayName(item: MenuItem): (r: string)
    ensures r == item.name
  {
    item.name
  }

  /** A dictionary of keyword arguments for the constructor: one optional
      entry per field, and the keys that name no field. */
  datatype ItemDict = ItemDict(
    name: Option<string>,
    menuClass: Option<ClassRef>,
    stateful: Option<bool>,
    state: Option<Value>,
    preload: Option<bool>,
    select: Option<string>,
    items: Option<seq<Value>>,
    objects: Option<seq<CompositeObject>>,
    labelText: Option<string>,
    sorting: Option<seq<string>>,
    enabled: Option<bool>,
    unknownKeys: set<string>)

  /** The dictionary with no keys. */
  const EmptyDict: ItemDict :=
    ItemDict(None, None, None, None, None, None, None, None, None, None, None, {})

  function Or<T>(o: Option<T>, default: T): T {
    if o.Some? then o.value else default
  }

  /** `from_dict(d)`: the constructor called with `d` as keyword arguments.
      A key that names no field raises TypeError; a missing key takes the
      field's default. */
  function FromDict(d: ItemDict): (r: Result<MenuItem>)
    ensures r.Err? <==> d.unknownKeys != {}
    ensures r.Err? ==> r.error.TypeError?
    ensures r.Ok? && d.name.None? ==> r.value.name == Default().name
    ensures r.Ok? && d.labelText.None? ==> r.value.labelText == Default().labelText
    ensures r.Ok? && d.name.Some? ==> r.value.name == d.name.value
    ensures r.Ok? && d.labelText.Some? ==> r.value.labelText == d.labelText.value
  {
    if d.unknownKeys != {} then Err(TypeError("__init__() got an unexpected keyword argument"))
    else
      var z := Default();
      Ok(MenuItem(
        Or(d.name, z.name), Or(d.menuClass, z.menuClass), Or(d.stateful, z.stateful),
        Or(d.state, z.state), Or(d.preload, z.preload), Or(d.select, z.select),
        Or(d.items, z.items), Or(d.objects, z.objects), Or(d.labelText, z.labelText),
        Or(d.sorting, z.sorting), Or(d.enabled, z.enabled)))
  }

  /** Every field of an item as a keyword argument. */
  function ToDict(item: MenuItem): ItemDict {
    ItemDict(Some(item.name), Some(item.menuClass), Some(item.stateful), Some(item.state),
             Some(item.preload), Some(item.select), Some(item.items), Some(item.objects),
             Some(item.labelText), Some(item.sorting), Some(item.enabled), {})
  }

  /** Building from an item's own fields gives back that item. */
  lemma FromDictOfToDict(item: MenuItem)
    ensures FromDict(ToDict(item)) == Ok(item)
  {
  }

  /** An empty dictionary builds the default item. */
  lemma FromEmptyDictIsDefault()
    ensures FromDict(EmptyDict) == Ok(Default())
  {
  }

  /** For a dictionary without unknown keys, each field of the built item
      is the dictionary's entry when there is one and the default
      otherwise. */
  lemma FromDictFieldByField(d: ItemDict)
    requires d.unknownKeys == {}
    ensures FromDict(d).Ok?
    ensures var r, z := FromDict(d).value, Default();
            (d.name.Some? ==> r.name == d.name.value) && (d.name.None? ==> r.name == z.name) &&
            (d.menuClass.Some? ==> r.menuClass == d.menuClass.value) && (d.menuClass.None? ==> r.menuClass == z.menuClass) &&
            (d.stateful.Some? ==> r.stateful == d.stateful.value) && (d.stateful.None? ==> r.stateful == z.stateful) &&
            (d.state.Some? ==> r.state == d.state.value) && (d.state.None? ==> r.state == z.state) &&
            (d.preload.Some? ==> r.preload == d.preload.value) && (d.preload.None? ==> r.preload == z.preload) &&
            (d.select.Some? ==> r.select == d.select.value) && (d.select.None? ==> r.select == z.select) &&
            (d.items.Some? ==> r.items == d.items.value) && (d.items.None? ==> r.items == z.items) &&
            (d.objects.Some? ==> r.objects == d.objects.value) && (d.objects.None? ==> r.objects == z.objects) &&
            (d.labelText.Some? ==> r.labelText == d.labelText.value) && (d.labelText.None? ==> r.labelText == z.labelText) &&
            (d.sorting.Some? ==> r.sorting == d.sorting.value) && (d.sorting.None? ==> r.sorting == z.sorting) &&
            (d.enabled.Some? ==> r.enabled == d.enabled.value) && (d.enabled.None? ==> r.enabled == z.enabled)
  {
  }

  /** Whether two dictionaries build equal items depends only on their
      name and label entries. */
  lemma FromDictEqualityByNameAndLabel(d: ItemDict, e: ItemDict)
    requires FromDict(d).Ok? && FromDict(e).Ok?
    requires d.name == e.name && d.labelText == e.labelText
    ensures EqOperator(Item(FromDict(d).value), Item(FromDict(e).value))
  {
  }
}
