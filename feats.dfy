/**
 * `Feat` (main.py:48-85): a feat whose equality and hash depend on the
 * kind-wide flag `SEPARATE_ON_TAGS`, passed here as `separate`.
 *
 * Python's `hash()` of a string is the parameter `h`, an arbitrary function:
 * nothing is assumed about it beyond being a function, so "equal keys give
 * equal hashes" is all that follows. The wall-clock salt a customized feat
 * mixes into its strict hash is the parameter `salt`, the text of `time()`.
 */
module Feats {
  import opened Wrappers
  import StrOrder
  import PyText

  datatype Feat = Feat(
    name: string,
    setting: string,
    ua: bool,
    archived: bool,
    customized: bool,
    race: Option<seq<string>>,
    choice: Option<string>,
    originalName: string)

  /** `Feat.__init__` with its defaults. */
  function Default(name: string): (r: Feat)
    ensures r.name == name && r.setting == "Forgotten Realms" && r.originalName == ""
    ensures !r.ua && !r.archived && !r.customized && r.race.None? && r.choice.None?
  {
    Feat(name, "Forgotten Realms", false, false, false, None, None, "")
  }

  /** `self.race or []`: a missing race list reads as the empty one. */
  function Races(f: Feat): (r: seq<string>)
    ensures f.race.None? ==> r == []
    ensures f.race.Some? ==> r == f.race.value
  {
    match f.race
    case None => []
    case Some(xs) => xs
  }

  /** `a.__eq__(b)`. */
  predicate Eq(a: Feat, b: Feat, separate: bool) {
    if !separate then a.name == b.name
    else
      && a.name == b.name
      && a.ua == b.ua
      && a.archived == b.archived
      && StrOrder.Sort(Races(a)) == StrOrder.Sort(Races(b))
      && !a.customized
      && !b.customized
  }

  /** The string `Feat.__hash__` hands to `hash()`, as the source builds it. */
  function HashKeyAsWritten(f: Feat, separate: bool, salt: string): string {
    if !separate then f.name
    else
      f.name + PyText.BoolStr(f.ua) + PyText.BoolStr(f.archived)
      + PyText.OptionListStr(f.race) + (if f.customized then salt else "")
  }

  /** `Feat.__hash__` as the source computes it. */
  function HashAsWritten(f: Feat, separate: bool, salt: string, h: string -> int): int {
    h(HashKeyAsWritten(f, separate, salt))
  }

  /**
   * The hash key with the race list normalised the way `__eq__` normalises
   * it (`or []`, then sorted): the corrected form of `HashKeyAsWritten`.
   */
  function HashKey(f: Feat, separate: bool, salt: string): string {
    if !separate then f.name
    else
      f.name + PyText.BoolStr(f.ua) + PyText.BoolStr(f.archived)
      + PyText.ListStr(StrOrder.Sort(Races(f))) + (if f.customized then salt else "")
  }

  /** The corrected `Feat.__hash__`. */
  function Hash(f: Feat, separate: bool, salt: string, h: string -> int): int {
    h(HashKey(f, separate, salt))
  }

  /** Lenient mode compares names alone, so it is an equivalence relation. */
  lemma LenientIsNameEquality(a: Feat, b: Feat, c: Feat)
    ensures Eq(a, b, false) <==> a.name == b.name
    ensures Eq(a, a, false)
    ensures Eq(a, b, false) ==> Eq(b, a, false)
    ensures Eq(a, b, false) && Eq(b, c, false) ==> Eq(a, c, false)
  {
  }

  /**
   * Strict equality compares the race lists as multisets: the order of the
   * races does not matter, and a missing list is the empty one.
   */
  lemma StrictEqIsPermutation(a: Feat, b: Feat)
    ensures Eq(a, b, true) <==>
      && a.name == b.name
      && a.ua == b.ua
      && a.archived == b.archived
      && multiset(Races(a)) == multiset(Races(b))
      && !a.customized
      && !b.customized
  {
    StrOrder.SortEqIffPermutation(Races(a), Races(b));
  }

  /** Reordering a feat's races, or replacing `None` by `[]`, never changes strict equality. */
  lemma StrictIgnoresRaceOrder(a: Feat, b: Feat, races: seq<string>)
    requires multiset(races) == multiset(Races(a))
    ensures Eq(a.(race := Some(races)), b, true) == Eq(a, b, true)
    ensures Eq(b, a.(race := Some(races)), true) == Eq(b, a, true)
  {
    StrictEqIsPermutation(a.(race := Some(races)), b);
    StrictEqIsPermutation(a, b);
    StrictEqIsPermutation(b, a.(race := Some(races)));
    StrictEqIsPermutation(b, a);
  }

  /** `choice`, `setting` and `originalName` never take part in equality. */
  lemma EqIgnoresChoiceSettingOriginalName(
    a: Feat, b: Feat, separate: bool, choice: Option<string>, setting: string, originalName: string)
    ensures Eq(a.(choice := choice, setting := setting, originalName := originalName), b, separate)
         == Eq(a, b, separate)
    ensures Eq(a, b.(choice := choice, setting := setting, originalName := originalName), separate)
         == Eq(a, b, separate)
  {
  }

  /** In strict mode a customized feat on either side equals nothing, itself included. */
  lemma StrictCustomizedNeverEqual(a: Feat, b: Feat)
    requires a.customized || b.customized
    ensures !Eq(a, b, true) && !Eq(b, a, true)
    ensures a.customized ==> !Eq(a, a, true)
  {
  }

  /**
   * Strict equality is symmetric and transitive, and reflexive exactly on
   * the feats that are not customized.
   */
  lemma StrictLaws(a: Feat, b: Feat, c: Feat)
    ensures Eq(a, a, true) <==> !a.customized
    ensures Eq(a, b, true) ==> Eq(b, a, true)
    ensures Eq(a, b, true) && Eq(b, c, true) ==> Eq(a, c, true)
  {
  }

  /** Two stock feats that list the same races in another order are strictly equal. */
  lemma StrictAlertExample()
    ensures var alert := Default("Alert");
            Eq(alert.(race := Some(["Human", "Elf"])), alert.(race := Some(["Elf", "Human"])), true)
  {
    var alert := Default("Alert");
    StrictEqIsPermutation(alert.(race := Some(["Human", "Elf"])), alert.(race := Some(["Elf", "Human"])));
  }

  /** In lenient mode the source's hash agrees with equality: it hashes the name alone. */
  lemma LenientHashAsWrittenConsistent(a: Feat, b: Feat, saltA: string, saltB: string, h: string -> int)
    requires Eq(a, b, false)
    ensures HashAsWritten(a, false, saltA, h) == HashAsWritten(b, false, saltB, h)
  {
  }

  /**
   * The corrected hash agrees with equality in both modes, whatever salts
   * the two calls read from the clock.
   */
  lemma HashConsistent(a: Feat, b: Feat, separate: bool, saltA: string, saltB: string, h: string -> int)
    requires Eq(a, b, separate)
    ensures Hash(a, separate, saltA, h) == Hash(b, separate, saltB, h)
  {
  }

  /** A stock feat's strict hash does not read the clock. */
  lemma StockHashIgnoresSalt(f: Feat, saltA: string, saltB: string)
    requires !f.customized
    ensures HashKeyAsWritten(f, true, saltA) == HashKeyAsWritten(f, true, saltB)
    ensures HashKey(f, true, saltA) == HashKey(f, true, saltB)
  {
  }

  /**
   * The source's hash and the corrected one build the same key whenever the
   * race list is present and already sorted.
   */
  lemma HashAsWrittenAgreesOnSortedRaces(f: Feat, separate: bool, salt: string, h: string -> int)
    requires f.race.Some? && StrOrder.IsSorted(f.race.value)
    ensures HashAsWritten(f, separate, salt, h) == Hash(f, separate, salt, h)
  {
    StrOrder.SortOfSorted(f.race.value);
  }

  /**
   * The source's strict hash splits equal feats: listing the races in
   * another order changes the key while equality still holds. Any `hash()`
   * that tells the two keys apart, `Distinguish` for one, then gives equal
   * feats different hashes.
   */
  lemma HashAsWrittenSplitsReorderedRaces()
    ensures var alert := Default("Alert");
            var humanElf := alert.(race := Some(["Human", "Elf"]));
            var elfHuman := alert.(race := Some(["Elf", "Human"]));
            var key := HashKeyAsWritten(humanElf, true, "");
            && Eq(humanElf, elfHuman, true)
            && HashAsWritten(humanElf, true, "", Distinguish(key))
               != HashAsWritten(elfHuman, true, "", Distinguish(key))
  {
    var alert := Default("Alert");
    var humanElf := alert.(race := Some(["Human", "Elf"]));
    var elfHuman := alert.(race := Some(["Elf", "Human"]));
    StrictAlertExample();
    ReorderedRaceListsPrintDifferently();
    var keyA := HashKeyAsWritten(humanElf, true, "");
    var keyB := HashKeyAsWritten(elfHuman, true, "");
    var prefix := "AlertFalseFalse";
    assert keyA[|prefix|..] == PyText.ListStr(["Human", "Elf"]);
    assert keyB[|prefix|..] == PyText.ListStr(["Elf", "Human"]);
  }

  lemma ReorderedRaceListsPrintDifferently()
    ensures PyText.ListStr(["Human", "Elf"]) != PyText.ListStr(["Elf", "Human"])
  {
    assert ["Human", "Elf"][1..] == ["Elf"];
    assert ["Elf", "Human"][1..] == ["Human"];
    assert PyText.ListStr(["Human", "Elf"])[2] == 'H';
    assert PyText.ListStr(["Elf", "Human"])[2] == 'E';
  }

  /**
   * The source's strict hash also splits a feat without a race list from
   * the same feat with an empty one, which equality identifies.
   */
  lemma HashAsWrittenSplitsNoneFromEmpty()
    ensures var alert := Default("Alert");
            var empty := alert.(race := Some([]));
            var key := HashKeyAsWritten(alert, true, "");
            && Eq(alert, empty, true)
            && HashAsWritten(alert, true, "", Distinguish(key))
               != HashAsWritten(empty, true, "", Distinguish(key))
  {
    var alert := Default("Alert");
    var empty := alert.(race := Some([]));
    var keyA := HashKeyAsWritten(alert, true, "");
    var keyB := HashKeyAsWritten(empty, true, "");
    assert keyA == "AlertFalseFalse" + "None";
    assert keyB == "AlertFalseFalse" + "[]";
    assert keyA[15] == 'N' && keyB[15] == '[';
  }

  /** A `hash()` that sends `key` to 1 and every other string to 0. */
  function Distinguish(key: string): (h: string -> int)
    ensures h(key) == 1
    ensures forall s :: s != key ==> h(s) == 0
  {
    s => if s == key then 1 else 0
  }
}
