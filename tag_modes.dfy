/**
 * The three class attributes `SEPARATE_ON_TAGS` (main.py:25, 49, 101) and
 * their class-method setters `set_separate_on_tags` (main.py:40-42, 70-72,
 * 144-146). Each record kind owns its own flag, set to `True` when the
 * module loads; every `__eq__`, `__ne__` and `__hash__` of that kind reads it
 * at the moment of the call.
 */
module TagModes {
  import Backgrounds
  import Feats
  import CharacterClasses

  class Modes {
    /** `Background.SEPARATE_ON_TAGS`. */
    var background: bool
    /** `Feat.SEPARATE_ON_TAGS`. */
    var feat: bool
    /** `CharacterClass.SEPARATE_ON_TAGS`. */
    var characterClass: bool

    /** The flags as the class definitions leave them: all three strict. */
    constructor ()
      ensures background && feat && characterClass
    {
      background, feat, characterClass := true, true, true;
    }

    /** `background == other` under the current flag. */
    predicate BackgroundEq(a: Backgrounds.Background, b: Backgrounds.Background)
      reads this
    {
      Backgrounds.Eq(a, b, background)
    }

    /** `feat == other` under the current flag. */
    predicate FeatEq(a: Feats.Feat, b: Feats.Feat)
      reads this
    {
      Feats.Eq(a, b, feat)
    }

    /** `hash(feat)` under the current flag, with the race list normalised as equality does. */
    function FeatHash(f: Feats.Feat, salt: string, h: string -> int): int
      reads this
    {
      Feats.Hash(f, feat, salt, h)
    }

    /** `cls == other` under the current flag. */
    predicate ClassEq(a: CharacterClasses.CharacterClass, b: CharacterClasses.CharacterClass)
      reads this
    {
      CharacterClasses.Eq(a, b, characterClass)
    }

    /** `cls != other` under the current flag. */
    predicate ClassNe(a: CharacterClasses.CharacterClass, b: CharacterClasses.CharacterClass)
      reads this
    {
      CharacterClasses.Ne(a, b, characterClass)
    }

    /** `hash(cls)` under the current flag. */
    function ClassHash(c: CharacterClasses.CharacterClass, h: string -> int): int
      reads this
    {
      CharacterClasses.Hash(c, characterClass, h)
    }

    /** `Background.set_separate_on_tags(value)`: feats and classes compare as before. */
    method SetBackground(value: bool)
      modifies this
      ensures background == value
      ensures feat == old(feat) && characterClass == old(characterClass)
      ensures forall a, b :: FeatEq(a, b) == old(FeatEq(a, b))
      ensures forall a, b :: ClassEq(a, b) == old(ClassEq(a, b))
      ensures forall a, b :: ClassNe(a, b) == old(ClassNe(a, b))
      ensures forall f, salt, h :: FeatHash(f, salt, h) == old(FeatHash(f, salt, h))
      ensures forall c, h :: ClassHash(c, h) == old(ClassHash(c, h))
    {
      background := value;
    }

    /** `Feat.set_separate_on_tags(value)`: backgrounds and classes compare as before. */
    method SetFeat(value: bool)
      modifies this
      ensures feat == value
      ensures background == old(background) && characterClass == old(characterClass)
      ensures forall a, b :: BackgroundEq(a, b) == old(BackgroundEq(a, b))
      ensures forall a, b :: ClassEq(a, b) == old(ClassEq(a, b))
      ensures forall a, b :: ClassNe(a, b) == old(ClassNe(a, b))
      ensures forall c, h :: ClassHash(c, h) == old(ClassHash(c, h))
    {
      feat := value;
    }

    /** `CharacterClass.set_separate_on_tags(value)`: backgrounds and feats compare as before. */
    method SetCharacterClass(value: bool)
      modifies this
      ensures characterClass == value
      ensures background == old(background) && feat == old(feat)
      ensures forall a, b :: BackgroundEq(a, b) == old(BackgroundEq(a, b))
      ensures forall a, b :: FeatEq(a, b) == old(FeatEq(a, b))
      ensures forall f, salt, h :: FeatHash(f, salt, h) == old(FeatHash(f, salt, h))
    {
      characterClass := value;
    }
  }

  /**
   * The registry is stateful: the same two feats compare equal after the
   * feat flag is cleared although they differed under the strict flag,
   * while the background and class flags are left as they were.
   */
  method ModeChangesComparison(modes: Modes)
    modifies modes
    ensures !modes.feat
    ensures modes.background == old(modes.background)
    ensures modes.characterClass == old(modes.characterClass)
    ensures !Feats.Eq(Feats.Default("Alert"), Feats.Default("Alert").(customized := true), true)
    ensures modes.FeatEq(Feats.Default("Alert"), Feats.Default("Alert").(customized := true))
  {
    modes.SetFeat(true);
    var stock := Feats.Default("Alert");
    var custom := stock.(customized := true);
    assert !modes.FeatEq(stock, custom);
    modes.SetFeat(false);
    assert modes.FeatEq(stock, custom);
  }
}
