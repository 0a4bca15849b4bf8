/**
 * `Background` (main.py:24-45): a character background whose equality
 * depends on the kind-wide flag `SEPARATE_ON_TAGS`, passed here as
 * `separate`.
 *
 * The class defines `__eq__` and no `__hash__`, so Python sets its
 * `__hash__` to `None`: background instances are unhashable, and there is no
 * hash to relate equality to.
 */
module Backgrounds {
  import opened Wrappers

  datatype Background = Background(
    name: string,
    setting: string,
    ua: bool,
    customized: bool,
    variant: Option<string>,
    notes: string)

  /** `Background.__init__` with its defaults. */
  function Default(name: string): (r: Background)
    ensures r.name == name && r.setting == "Forgotten Realms"
    ensures !r.ua && !r.customized && r.variant.None? && r.notes == ""
  {
    Background(name, "Forgotten Realms", false, false, None, "")
  }

  /**
   * `a.__eq__(b)`. In strict mode only `a`'s own `customized` flag is
   * consulted, so the relation is not symmetric.
   */
  predicate Eq(a: Background, b: Background, separate: bool) {
    if !separate then a.name == b.name
    else a.name == b.name && a.ua == b.ua && a.variant == b.variant && !a.customized
  }

  /** Lenient mode compares names alone, so it is an equivalence relation. */
  lemma LenientIsNameEquality(a: Background, b: Background, c: Background)
    ensures Eq(a, b, false) <==> a.name == b.name
    ensures Eq(a, a, false)
    ensures Eq(a, b, false) ==> Eq(b, a, false)
    ensures Eq(a, b, false) && Eq(b, c, false) ==> Eq(a, c, false)
  {
  }

  /** Strict mode never depends on `setting` or `notes`. */
  lemma StrictIgnoresSettingAndNotes(a: Background, b: Background, setting: string, notes: string)
    ensures Eq(a.(setting := setting, notes := notes), b, true) == Eq(a, b, true)
    ensures Eq(a, b.(setting := setting, notes := notes), true) == Eq(a, b, true)
  {
  }

  /** In strict mode a customized left operand equals nothing, not even itself. */
  lemma StrictCustomizedSelfNeverEqual(a: Background, b: Background)
    requires a.customized
    ensures !Eq(a, b, true)
    ensures !Eq(a, a, true)
  {
  }

  /** In strict mode the right operand's `customized` flag is never consulted. */
  lemma StrictIgnoresOtherCustomized(a: Background, b: Background, customized: bool)
    ensures Eq(a, b.(customized := customized), true) == Eq(a, b, true)
  {
  }

  /**
   * The asymmetry of strict equality: a stock background equals its own
   * customized copy, but the copy does not equal the stock one.
   */
  lemma StrictAsymmetric()
    ensures var stock := Default("Acolyte");
            var custom := stock.(customized := true);
            Eq(stock, custom, true) && !Eq(custom, stock, true)
  {
  }

  /** Among non-customized backgrounds strict equality is reflexive and symmetric. */
  lemma StrictReflexiveSymmetricWhenStock(a: Background, b: Background)
    requires !a.customized && !b.customized
    ensures Eq(a, a, true)
    ensures Eq(a, b, true) ==> Eq(b, a, true)
  {
  }

  /** Strict equality is transitive even with customized operands. */
  lemma StrictTransitive(a: Background, b: Background, c: Background)
    ensures Eq(a, b, true) && Eq(b, c, true) ==> Eq(a, c, true)
  {
  }
}
