/**
 * `CharacterClass` (main.py:100-146): a class/subclass pair whose equality
 * and hash depend on the kind-wide flag `SEPARATE_ON_TAGS`, passed here as
 * `separate`. Python's `hash()` of a string is the parameter `h`.
 */
module CharacterClasses {
  import opened Wrappers
  import StrOrder
  import PyText

  /** The twelve attributes `__init__` stores; they make up the instance `__dict__`. */
  datatype CharacterClass = CharacterClass(
    name: string,
    subclass: Option<string>,
    uaClass: bool,
    uaSubclass: bool,
    archivedClass: bool,
    archivedSubclass: bool,
    classSetting: string,
    subclassSetting: string,
    classCustomized: bool,
    subclassCustomized: bool,
    classNotes: string,
    subclassNotes: string)

  /**
   * `CharacterClass.__init__`: an empty-string subclass is stored as `None`,
   * every other argument as given; the extra keyword arguments `kwargs` are
   * accepted and dropped.
   */
  function Create(
    name: string, subclass: Option<string>,
    uaClass: bool, uaSubclass: bool, archivedClass: bool, archivedSubclass: bool,
    classNotes: string, subclassNotes: string, classSetting: string, subclassSetting: string,
    classCustomized: bool, subclassCustomized: bool, kwargs: map<string, string>): (r: CharacterClass)
    ensures subclass == Some("") ==> r.subclass == None
    ensures subclass != Some("") ==> r.subclass == subclass
    ensures r.name == name
    ensures r.uaClass == uaClass && r.uaSubclass == uaSubclass
    ensures r.archivedClass == archivedClass && r.archivedSubclass == archivedSubclass
    ensures r.classNotes == classNotes && r.subclassNotes == subclassNotes
    ensures r.classSetting == classSetting && r.subclassSetting == subclassSetting
    ensures r.classCustomized == classCustomized && r.subclassCustomized == subclassCustomized
  {
    var stored := if subclass == Some("") then None else subclass;
    CharacterClass(name, stored, uaClass, uaSubclass, archivedClass, archivedSubclass,
                   classSetting, subclassSetting, classCustomized, subclassCustomized,
                   classNotes, subclassNotes)
  }

  /** `__init__` with every argument but the name and the subclass left at its default. */
  function CreateDefault(name: string, subclass: Option<string>): CharacterClass {
    Create(name, subclass, false, false, false, false, "", "",
           "Forgotten Realms", "Forgotten Realms", false, false, map[])
  }

  /** `a.__eq__(b)`: strict mode compares the whole `__dict__`, lenient mode name and subclass. */
  predicate Eq(a: CharacterClass, b: CharacterClass, separate: bool) {
    if separate then a == b
    else a.name == b.name && a.subclass == b.subclass
  }

  /** `a.__ne__(b)`, defined in the source as `not a.__eq__(b)`. */
  predicate Ne(a: CharacterClass, b: CharacterClass, separate: bool) {
    !Eq(a, b, separate)
  }

  /** The attribute names in the order `__init__` assigns them: the `__dict__`'s own order. */
  const DictOrder: seq<string> := [
    "name", "subclass", "ua_class", "ua_subclass", "archived_class", "archived_subclass",
    "class_setting", "subclass_setting", "class_customized", "subclass_customized",
    "class_notes", "subclass_notes"]

  /** The same names in the order the strict hash visits them. */
  const KeyOrder: seq<string> := [
    "archived_class", "archived_subclass", "class_customized", "class_notes", "class_setting",
    "name", "subclass", "subclass_customized", "subclass_notes", "subclass_setting",
    "ua_class", "ua_subclass"]

  /**
   * `sorted(self.__dict__.items())`, each value given by its `repr`. The
   * keys are distinct, so the sort never compares two values; none of them
   * contains `"__"`, so the source's filter keeps every item.
   */
  function Items(c: CharacterClass): (r: seq<(string, string)>)
    ensures |r| == |KeyOrder| && forall k :: 0 <= k < |r| ==> r[k].0 == KeyOrder[k]
  {
    [("archived_class", PyText.BoolStr(c.archivedClass)),
     ("archived_subclass", PyText.BoolStr(c.archivedSubclass)),
     ("class_customized", PyText.BoolStr(c.classCustomized)),
     ("class_notes", PyText.Quoted(c.classNotes)),
     ("class_setting", PyText.Quoted(c.classSetting)),
     ("name", PyText.Quoted(c.name)),
     ("subclass", PyText.OptionRepr(c.subclass)),
     ("subclass_customized", PyText.BoolStr(c.subclassCustomized)),
     ("subclass_notes", PyText.Quoted(c.subclassNotes)),
     ("subclass_setting", PyText.Quoted(c.subclassSetting)),
     ("ua_class", PyText.BoolStr(c.uaClass)),
     ("ua_subclass", PyText.BoolStr(c.uaSubclass))]
  }

  /** `[str(q) for q in items]`. */
  function ItemStrs(items: seq<(string, string)>): (r: seq<string>)
    ensures |r| == |items|
    ensures forall k :: 0 <= k < |r| ==> r[k] == PyText.ItemStr(items[k].0, items[k].1)
  {
    if items == [] then [] else [PyText.ItemStr(items[0].0, items[0].1)] + ItemStrs(items[1..])
  }

  /** The string `CharacterClass.__hash__` hands to `hash()`. */
  function HashKey(c: CharacterClass, separate: bool): string {
    if separate then PyText.Concat(ItemStrs(Items(c)))
    else if c.subclass.Some? then c.name + c.subclass.value
    else c.name
  }

  /** `CharacterClass.__hash__`. */
  function Hash(c: CharacterClass, separate: bool, h: string -> int): int {
    h(HashKey(c, separate))
  }

  /** `__ne__` is the negation of `__eq__` for every pair and in both modes. */
  lemma NeIsNotEq(a: CharacterClass, b: CharacterClass, separate: bool)
    ensures Ne(a, b, separate) <==> !Eq(a, b, separate)
  {
  }

  /** Equal classes hash equally in both modes. */
  lemma HashConsistent(a: CharacterClass, b: CharacterClass, separate: bool, h: string -> int)
    requires Eq(a, b, separate)
    ensures Hash(a, separate, h) == Hash(b, separate, h)
  {
  }

  /** Both modes are equivalence relations, and strict equality implies lenient equality. */
  lemma EquivalenceLaws(a: CharacterClass, b: CharacterClass, c: CharacterClass, separate: bool)
    ensures Eq(a, a, separate)
    ensures Eq(a, b, separate) ==> Eq(b, a, separate)
    ensures Eq(a, b, separate) && Eq(b, c, separate) ==> Eq(a, c, separate)
    ensures Eq(a, b, true) ==> Eq(a, b, false)
  {
  }

  /** Lenient mode looks at the name and the subclass and at nothing else. */
  lemma LenientIsNameAndSubclass(a: CharacterClass, b: CharacterClass)
    ensures Eq(a, b, false) <==> a.name == b.name && a.subclass == b.subclass
  {
  }

  /**
   * The customization flags do not break strict equality: a customized
   * class still equals an identical copy of itself.
   */
  lemma StrictCustomizedEqualsCopy(a: CharacterClass)
    requires a.classCustomized || a.subclassCustomized
    ensures Eq(a, a, true) && Eq(a, a, false)
  {
  }

  /** The extra keyword arguments never reach the instance, so never its equality. */
  lemma CreateIgnoresKwargs(
    name: string, subclass: Option<string>,
    uaClass: bool, uaSubclass: bool, archivedClass: bool, archivedSubclass: bool,
    classNotes: string, subclassNotes: string, classSetting: string, subclassSetting: string,
    classCustomized: bool, subclassCustomized: bool, kwargsA: map<string, string>, kwargsB: map<string, string>)
    ensures Create(name, subclass, uaClass, uaSubclass, archivedClass, archivedSubclass,
                   classNotes, subclassNotes, classSetting, subclassSetting,
                   classCustomized, subclassCustomized, kwargsA)
         == Create(name, subclass, uaClass, uaSubclass, archivedClass, archivedSubclass,
                   classNotes, subclassNotes, classSetting, subclassSetting,
                   classCustomized, subclassCustomized, kwargsB)
  {
  }

  /** `CharacterClass("Fighter", subclass="")` is the same instance as `CharacterClass("Fighter")`. */
  lemma EmptySubclassExample()
    ensures CreateDefault("Fighter", Some("")) == CreateDefault("Fighter", None)
    ensures Eq(CreateDefault("Fighter", Some("")), CreateDefault("Fighter", None), false)
    ensures CreateDefault("Fighter", Some("")).subclass.None?
  {
  }

  /** Consecutive names of `s` ascend strictly. */
  predicate StepsAscend(s: seq<string>) {
    forall k :: 0 <= k < |s| - 1 ==> StrOrder.Less(s[k], s[k + 1])
  }

  lemma {:induction false} StepsAscendSorted(s: seq<string>)
    requires StepsAscend(s)
    ensures StrOrder.IsSorted(s)
    decreases |s|
  {
    if |s| > 1 {
      StepsAscendSorted(s[1..]);
      forall j | 1 <= j < |s| ensures StrOrder.LessEq(s[0], s[j]) {
        if j > 1 {
          assert StrOrder.LessEq(s[1], s[1..][j - 1]);
          StrOrder.LessEqTransitive(s[0], s[1], s[j]);
        }
      }
    }
  }

  /** The `archived_` and `class_` attribute names ascend, then `name` and `subclass`. */
  lemma ClassKeysAscend()
    ensures forall k :: 0 <= k < 6 ==> StrOrder.Less(KeyOrder[k], KeyOrder[k + 1])
  {
    forall k | 0 <= k < 6 ensures StrOrder.Less(KeyOrder[k], KeyOrder[k + 1]) {
      if k == 0 {
        StrOrder.LessAt(KeyOrder[0], KeyOrder[1], 9);
      } else if k == 1 {
        StrOrder.LessAt(KeyOrder[1], KeyOrder[2], 0);
      } else if k == 2 {
        StrOrder.LessAt(KeyOrder[2], KeyOrder[3], 6);
      } else if k == 3 {
        StrOrder.LessAt(KeyOrder[3], KeyOrder[4], 6);
      } else if k == 4 {
        StrOrder.LessAt(KeyOrder[4], KeyOrder[5], 0);
      } else {
        StrOrder.LessAt(KeyOrder[5], KeyOrder[6], 0);
      }
    }
  }

  /** `subclass` is a proper prefix of `subclass_customized`, so it comes first. */
  lemma SubclassBeforeItsAttributes()
    ensures StrOrder.Less(KeyOrder[6], KeyOrder[7])
  {
    StrOrder.PrefixLess(KeyOrder[6], KeyOrder[7]);
  }

  /** `subclass_customized` comes before `subclass_notes`. */
  lemma SubclassCustomizedBeforeNotes()
    ensures StrOrder.Less(KeyOrder[7], KeyOrder[8])
  {
    StrOrder.LessAt(KeyOrder[7], KeyOrder[8], 9);
  }

  /** `subclass_notes` comes before `subclass_setting`. */
  lemma SubclassNotesBeforeSetting()
    ensures StrOrder.Less(KeyOrder[8], KeyOrder[9])
  {
    StrOrder.LessAt(KeyOrder[8], KeyOrder[9], 9);
  }

  /** The `ua_` names follow the `subclass_` names and ascend. */
  lemma UaKeysAscend()
    ensures forall k :: 9 <= k < 11 ==> StrOrder.Less(KeyOrder[k], KeyOrder[k + 1])
  {
    forall k | 9 <= k < 11 ensures StrOrder.Less(KeyOrder[k], KeyOrder[k + 1]) {
      if k == 9 {
        StrOrder.LessAt(KeyOrder[9], KeyOrder[10], 0);
      } else {
        StrOrder.LessAt(KeyOrder[10], KeyOrder[11], 3);
      }
    }
  }

  lemma KeyOrderAscends()
    ensures StepsAscend(KeyOrder)
  {
    ClassKeysAscend();
    SubclassBeforeItsAttributes();
    SubclassCustomizedBeforeNotes();
    SubclassNotesBeforeSetting();
    UaKeysAscend();
  }

  lemma DictOrderPermutesKeyOrder()
    ensures multiset(DictOrder) == multiset(KeyOrder)
  {
    assert StrOrder.Distinct(DictOrder);
    assert StrOrder.Distinct(KeyOrder);
    assert forall x :: x in DictOrder <==> x in KeyOrder;
    StrOrder.DistinctPermutation(DictOrder, KeyOrder);
  }

  /**
   * The strict hash visits the attributes exactly in the order
   * `sorted(self.__dict__.items())` yields them.
   */
  lemma KeyOrderIsSortedDictOrder()
    ensures StrOrder.Sort(DictOrder) == KeyOrder
  {
    KeyOrderAscends();
    StepsAscendSorted(KeyOrder);
    DictOrderPermutesKeyOrder();
    StrOrder.SortedUnique(StrOrder.Sort(DictOrder), KeyOrder);
  }
}
