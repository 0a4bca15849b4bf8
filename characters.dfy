/**
 * `Character` (main.py:149-176): the aggregate record. Its constructor
 * passes the id, hit points and the six ability scores through `int()`,
 * raising `ValueError` at the first one that is not a valid integer, and
 * stores every other argument as given. `notes_len`, `total_level` and
 * `base_level` are stored without coercion.
 *
 * Races, items, the gold amount (a float) and the modification timestamp
 * (a `struct_time`) carry no behaviour here and are type parameters.
 */
module Characters {
  import opened Wrappers
  import opened IntCoercion
  import Backgrounds
  import Feats
  import CharacterClasses

  datatype Character<Race, Item, Gold, Stamp> = Character(
    num: int,
    charId: int,
    name: string,
    baseHp: int,
    strength: int,
    dexterity: int,
    constitution: int,
    intelligence: int,
    wisdom: int,
    charisma: int,
    background: Option<Backgrounds.Background>,
    race: Race,
    feats: seq<Feats.Feat>,
    inventory: seq<Item>,
    dateModified: Stamp,
    notesLen: Scalar,
    gold: Gold,
    baseClass: CharacterClasses.CharacterClass,
    extraClasses: seq<CharacterClasses.CharacterClass>,
    baseLevel: Scalar,
    totalLevel: Scalar)

  /**
   * `int()` applied to each value in turn: the integers if every call
   * returns, otherwise the `ValueError` of the first call that raises.
   */
  function CoerceAll(values: seq<Scalar>): (r: Result<seq<int>, ValueError>)
    ensures r.Success? <==> forall k {:trigger ToInt(values[k])} :: 0 <= k < |values| ==> ToInt(values[k]).Success?
    ensures r.Success? ==> |r.value| == |values|
    ensures r.Success? ==>
      forall k {:trigger ToInt(values[k])} :: 0 <= k < |values| ==> r.value[k] == ToInt(values[k]).value
    ensures r.Failure? ==>
      exists k {:trigger ToInt(values[k])} :: 0 <= k < |values| && ToInt(values[k]) == Failure(r.error)
        && forall j {:trigger ToInt(values[j])} :: 0 <= j < k ==> ToInt(values[j]).Success?
  {
    if values == [] then Success([])
    else
      var first :- ToInt(values[0]);
      var rest := CoerceAll(values[1..]);
      assert forall k :: 1 <= k < |values| ==> values[k] == values[1..][k - 1];
      if rest.Failure? then
        var k :| 0 <= k < |values[1..]| && ToInt(values[1..][k]) == Failure(rest.error)
                 && forall j :: 0 <= j < k ==> ToInt(values[1..][j]).Success?;
        assert ToInt(values[k + 1]) == Failure(rest.error);
        Failure(rest.error)
      else
        Success([first] + rest.value)
  }

  /** The nine arguments the constructor coerces, in the order it coerces them. */
  function Coerced(
    num: Scalar, charId: Scalar, baseHp: Scalar, strength: Scalar, dexterity: Scalar,
    constitution: Scalar, intelligence: Scalar, wisdom: Scalar, charisma: Scalar): seq<Scalar>
  {
    [num, charId, baseHp, strength, dexterity, constitution, intelligence, wisdom, charisma]
  }

  /** The coerced fields, in the order `Coerced` lists their arguments. */
  function Scores<Race, Item, Gold, Stamp>(c: Character<Race, Item, Gold, Stamp>): seq<int> {
    [c.num, c.charId, c.baseHp, c.strength, c.dexterity, c.constitution,
     c.intelligence, c.wisdom, c.charisma]
  }

  /** `Character.__init__`: fails with the first coercion's `ValueError`, otherwise stores the record. */
  function Create<Race, Item, Gold, Stamp>(
    num: Scalar, charId: Scalar, name: string, baseHp: Scalar,
    strength: Scalar, dexterity: Scalar, constitution: Scalar,
    intelligence: Scalar, wisdom: Scalar, charisma: Scalar,
    background: Option<Backgrounds.Background>, race: Race, feats: seq<Feats.Feat>,
    inventory: seq<Item>, dateModified: Stamp, notesLen: Scalar, gold: Gold,
    baseClass: CharacterClasses.CharacterClass, extraClasses: seq<CharacterClasses.CharacterClass>,
    totalLevel: Scalar, baseLevel: Scalar): (r: Result<Character<Race, Item, Gold, Stamp>, ValueError>)
    ensures var coerced := CoerceAll(Coerced(num, charId, baseHp, strength, dexterity,
                                             constitution, intelligence, wisdom, charisma));
            && (r.Success? <==> coerced.Success?)
            && (r.Failure? ==> r.error == coerced.error)
            && (r.Success? ==> Scores(r.value) == coerced.value)
    ensures r.Success? ==>
      && r.value.name == name && r.value.background == background && r.value.race == race
      && r.value.feats == feats && r.value.inventory == inventory
      && r.value.dateModified == dateModified && r.value.notesLen == notesLen
      && r.value.gold == gold && r.value.baseClass == baseClass
      && r.value.extraClasses == extraClasses
      && r.value.baseLevel == baseLevel && r.value.totalLevel == totalLevel
  {
    var values := Coerced(num, charId, baseHp, strength, dexterity,
                          constitution, intelligence, wisdom, charisma);
    var ints :- CoerceAll(values);
    Success(Character(ints[0], ints[1], name, ints[2], ints[3], ints[4], ints[5], ints[6], ints[7],
                      ints[8], background, race, feats, inventory, dateModified, notesLen, gold,
                      baseClass, extraClasses, baseLevel, totalLevel))
  }

  /** Text made only of the whitespace `int()` skips. */
  predicate IsBlank(s: string) {
    forall k :: 0 <= k < |s| ==> IsSpace(s[k])
  }

  /** `int()` of the decimal text of `i` with whitespace around it gives `i` back. */
  lemma ToIntOfText(i: int, before: string, after: string)
    requires IsBlank(before) && IsBlank(after)
    requires DecimalLength(i) <= MaxStrDigits
    ensures ToInt(Str(before + IntStr(i) + after)) == Success(i)
  {
    ParseIntStr(i, before, after);
  }

  /** When every `int()` call returns, the coercions return exactly those integers. */
  lemma {:induction false} CoerceAllSucceeds(values: seq<Scalar>, ints: seq<int>)
    requires |values| == |ints|
    requires forall k :: 0 <= k < |values| ==> ToInt(values[k]) == Success(ints[k])
    ensures CoerceAll(values) == Success(ints)
    decreases |values|
  {
    if values != [] {
      assert forall k :: 0 <= k < |values[1..]| ==> values[1..][k] == values[k + 1];
      assert forall k :: 0 <= k < |ints[1..]| ==> ints[1..][k] == ints[k + 1];
      CoerceAllSucceeds(values[1..], ints[1..]);
      assert ints == [ints[0]] + ints[1..];
    }
  }

  /** The coercions raise the error of the first `int()` call that raises. */
  lemma {:induction false} CoerceAllFailsAtFirst(values: seq<Scalar>, k: nat)
    requires k < |values|
    requires forall j :: 0 <= j < k ==> ToInt(values[j]).Success?
    requires ToInt(values[k]).Failure?
    ensures CoerceAll(values) == Failure(ToInt(values[k]).error)
    decreases k
  {
    if k > 0 {
      assert forall j :: 0 <= j < |values[1..]| ==> values[1..][j] == values[j + 1];
      CoerceAllFailsAtFirst(values[1..], k - 1);
    }
  }

  /**
   * Values written as the decimal text of integers, each with its own
   * whitespace around it, coerce to those integers.
   */
  lemma CoerceDecimalText(values: seq<Scalar>, ints: seq<int>, befores: seq<string>, afters: seq<string>)
    requires |values| == |ints| == |befores| == |afters|
    requires forall k :: 0 <= k < |values| ==>
      IsBlank(befores[k]) && IsBlank(afters[k]) && DecimalLength(ints[k]) <= MaxStrDigits
    requires forall k :: 0 <= k < |values| ==> values[k] == Str(befores[k] + IntStr(ints[k]) + afters[k])
    ensures CoerceAll(values) == Success(ints)
  {
    forall k | 0 <= k < |values| ensures ToInt(values[k]) == Success(ints[k]) {
      ToIntOfText(ints[k], befores[k], afters[k]);
    }
    CoerceAllSucceeds(values, ints);
  }

  /**
   * When `num`, `char_id` and `base_hp` are integers, a strength that holds
   * no digit makes the coercions fail with that text, whatever the later
   * scores are.
   */
  lemma CoerceNonNumericStrength(
    num: int, charId: int, baseHp: int, text: string,
    dexterity: Scalar, constitution: Scalar, intelligence: Scalar, wisdom: Scalar, charisma: Scalar)
    requires forall k :: 0 <= k < |text| ==> !IsDigit(text[k])
    ensures CoerceAll(Coerced(Int(num), Int(charId), Int(baseHp), Str(text),
                              dexterity, constitution, intelligence, wisdom, charisma))
         == Failure(InvalidLiteral(text))
  {
    NoDigitNoInt(text);
    var values := Coerced(Int(num), Int(charId), Int(baseHp), Str(text),
                          dexterity, constitution, intelligence, wisdom, charisma);
    assert ToInt(values[3]) == Failure(InvalidLiteral(text));
    assert ToInt(values[0]).Success? && ToInt(values[1]).Success? && ToInt(values[2]).Success?;
    CoerceAllFailsAtFirst(values, 3);
  }

  /**
   * When `num`, `char_id` and `base_hp` are integers, a strength that is not
   * an integer literal makes construction fail with that literal.
   */
  lemma CreateRejectsNonNumericScore<Race, Item, Gold, Stamp>(
    num: int, charId: int, name: string, baseHp: int, text: string,
    dexterity: Scalar, constitution: Scalar, intelligence: Scalar, wisdom: Scalar, charisma: Scalar,
    background: Option<Backgrounds.Background>, race: Race, feats: seq<Feats.Feat>,
    inventory: seq<Item>, dateModified: Stamp, notesLen: Scalar, gold: Gold,
    baseClass: CharacterClasses.CharacterClass, extraClasses: seq<CharacterClasses.CharacterClass>,
    totalLevel: Scalar, baseLevel: Scalar)
    requires forall k :: 0 <= k < |text| ==> !IsDigit(text[k])
    ensures
      Create<Race, Item, Gold, Stamp>(
        Int(num), Int(charId), name, Int(baseHp), Str(text),
        dexterity, constitution, intelligence, wisdom, charisma,
        background, race, feats, inventory, dateModified, notesLen, gold,
        baseClass, extraClasses, totalLevel, baseLevel)
      == Failure(InvalidLiteral(text))
  {
    CoerceNonNumericStrength(num, charId, baseHp, text, dexterity, constitution, intelligence, wisdom, charisma);
  }
}
