# Tag-aware identity of D&D Beyond character records

This project models the identity rules of the character dataset in `main.py`.
Three record kinds decide equality, and two of them hashing, through a
per-kind class attribute `SEPARATE_ON_TAGS`. The three kinds are
`Background`, `Feat` and `CharacterClass`. When the flag is true ("strict",
separate on tags), sourcebook tags take part in identity: unearthed-arcana,
archived, variant and customized. When it is false ("lenient"), only the base
name counts, plus the subclass for classes. The project also models the two
constructors that normalise their arguments: `CharacterClass.__init__` and
`Character.__init__`.

Layout, one module per file:

- `Backgrounds`, `Feats`, `CharacterClasses`: one datatype per record kind.
  Each has its `__eq__` (and `__hash__`/`__ne__` where the source defines
  them) as functions. The kind's flag is an explicit `separate: bool`
  argument, so a comparison of one kind cannot read another kind's flag.
- `TagModes`: the class `Modes` holds the three flags as fields.
  `set_separate_on_tags` of each kind is a method that changes its own field
  only. Its contract says that the other kinds' comparisons and hashes are
  unchanged.
- `Characters`: `Character.__init__` as a function that returns the record
  or the `ValueError` of the first failing `int()` coercion.
- `IntCoercion`: Python's `int()` on ints, bools and base-10 strings.
- `StrOrder`: Python's string ordering and `sorted()` on a list of strings.
- `PyText`: the `str()` forms the hash keys are built from.
- `Wrappers`: `Option` and `Result`.

Python's `hash()` of a string is the argument `h: string -> int`, an
arbitrary function. Only "equal keys give equal hashes" follows from it. The
wall-clock salt that a customized feat mixes into its strict hash is the
argument `salt`, the text of `time()`. Nothing is proved about it beyond
"a stock feat never reads it".

Where the code and its design description differ, the model follows the code:

- `Background` defines `__eq__` but no `__hash__`. Python 3 therefore sets
  its `__hash__` to `None`, so backgrounds are unhashable rather than hashed
  by identity. The model has no background hash.
- Strict `CharacterClass` equality compares the whole instance `__dict__`.
  That includes `class_notes` and `subclass_notes`. It gives the
  customization flags no special role: they are compared like any other
  field, so a customized class equals an identical copy of itself
  (`CharacterClasses.StrictCustomizedEqualsCopy`).
- `Character.__init__` coerces only `num`, `char_id`, `base_hp` and the six
  ability scores. `notes_len`, `total_level` and `base_level` are stored as
  given.
- Strict `Background` equality checks only the left operand's `customized`
  flag. This asymmetry is kept and exhibited (`Backgrounds.StrictAsymmetric`).

## Model

| member | source | states |
|---|---|---|
| `Backgrounds.Default` | main.py:27-33 | a new background has setting "Forgotten Realms", is not UA or customized, has no variant and empty notes |
| `Backgrounds.LenientIsNameEquality` | main.py:36-37 | with the flag off, background equality holds exactly when the names match; it is reflexive, symmetric and transitive |
| `Backgrounds.StrictIgnoresSettingAndNotes` | main.py:38 | strict background equality never depends on either side's setting or notes |
| `Backgrounds.StrictCustomizedSelfNeverEqual` | main.py:38 | in strict mode a customized left operand equals no background, itself included |
| `Backgrounds.StrictIgnoresOtherCustomized` | main.py:38 | in strict mode the right operand's `customized` flag never changes the result |
| `Backgrounds.StrictAsymmetric` | main.py:38 | a stock "Acolyte" strictly equals its customized copy, but the copy does not equal it |
| `Backgrounds.StrictReflexiveSymmetricWhenStock` | main.py:38 | among non-customized backgrounds strict equality is reflexive and symmetric |
| `Backgrounds.StrictTransitive` | main.py:38 | strict background equality is transitive for all operands |
| `Feats.Default` | main.py:51-60 | a new feat has setting "Forgotten Realms", no flags set, no race list, no choice and an empty original name |
| `Feats.Races` | main.py:65-66 | `race or []`: a missing race list reads as the empty list, a present one as itself |
| `Feats.LenientIsNameEquality` | main.py:63-64 | with the flag off, feat equality holds exactly when the names match; it is an equivalence relation |
| `Feats.StrictEqIsPermutation` | main.py:65-68 | strict feat equality holds iff names, UA and archived flags match, the race lists are permutations of each other (`None` as `[]`), and neither side is customized |
| `Feats.StrictIgnoresRaceOrder` | main.py:65-68 | reordering a feat's races, or writing `[]` for `None`, never changes strict equality on either side |
| `Feats.EqIgnoresChoiceSettingOriginalName` | main.py:62-68 | in both modes, `choice`, `setting` and `original_name` never affect feat equality |
| `Feats.StrictCustomizedNeverEqual` | main.py:68 | in strict mode a customized feat on either side makes the pair unequal, even a customized feat with itself |
| `Feats.StrictLaws` | main.py:65-68 | strict feat equality is symmetric and transitive, and reflexive exactly for non-customized feats |
| `Feats.StrictAlertExample` | main.py:65-68 | "Alert" with races `["Human", "Elf"]` strictly equals "Alert" with `["Elf", "Human"]` |
| `Feats.LenientHashAsWrittenConsistent` | main.py:74-76 | with the flag off, the source's hash uses the name alone, so lenient-equal feats hash equally |
| `Feats.StockHashIgnoresSalt` | main.py:77-80 | the strict hash key of a non-customized feat does not depend on the clock reading |
| `Feats.HashAsWrittenSplitsReorderedRaces` | main.py:80 | the source's strict hash key differs for two strictly equal feats whose race lists differ only in order |
| `Feats.HashAsWrittenSplitsNoneFromEmpty` | main.py:80 | the source's strict hash key differs for a feat without a race list and its strictly equal copy with `[]` |
| `Feats.HashAsWrittenAgreesOnSortedRaces` | main.py:80 | when the race list is present and already sorted, the source's hash and the corrected hash agree |
| `Feats.HashConsistent` | main.py:74-80 | with the race list normalised as equality does, equal feats hash equally in both modes, whatever the clock reads |
| `StrOrder.Sort` | main.py:67-68 | `sorted()` returns an ascending permutation of its argument |
| `StrOrder.SortedUnique` | main.py:67-68 | two ascending lists with the same elements are identical, so any correct `sorted()` gives the same result |
| `StrOrder.SortEqIffPermutation` | main.py:67-68 | `sorted(a) == sorted(b)` holds exactly when `a` and `b` are permutations of each other |
| `CharacterClasses.Create` | main.py:103-123 | a subclass given as `''` is stored as `None`; any other subclass and every other argument is stored unchanged |
| `CharacterClasses.CreateIgnoresKwargs` | main.py:103-123 | extra keyword arguments are not stored, so two constructions that differ only in them give the same instance |
| `CharacterClasses.EmptySubclassExample` | main.py:108-109 | `CharacterClass("Fighter", subclass="")` equals `CharacterClass("Fighter")` as stored and under lenient equality |
| `CharacterClasses.LenientIsNameAndSubclass` | main.py:131 | with the flag off, class equality holds exactly when name and subclass match |
| `CharacterClasses.EquivalenceLaws` | main.py:128-131 | in both modes class equality is reflexive, symmetric and transitive, and strict equality implies lenient equality |
| `CharacterClasses.StrictCustomizedEqualsCopy` | main.py:129-130 | a customized class still equals itself in both modes |
| `CharacterClasses.NeIsNotEq` | main.py:133-134 | for every pair and both modes `__ne__` is the negation of `__eq__` |
| `CharacterClasses.Items` | main.py:138 | the strict hash key lists all twelve stored attributes, in the order `KeyOrder` gives |
| `CharacterClasses.KeyOrderIsSortedDictOrder` | main.py:138 | sorting the attribute names in `__dict__` order yields exactly the order the strict hash key uses |
| `CharacterClasses.HashConsistent` | main.py:136-142 | equal classes hash equally in both modes: strict keys come from the stored fields, lenient keys from name and subclass |
| `IntCoercion.ToInt` | main.py:156-165 | `int()` returns an int unchanged and a bool as 0 or 1 |
| `IntCoercion.ParseInt` | main.py:156-165 | `int()` of a string fails only with `ValueError`: the invalid-literal error naming the original text, or the digit-limit error when the literal is valid and has more than 4300 digits |
| `IntCoercion.ParseIntStr` | main.py:156-165 | `int()` of the decimal text of any integer, with any whitespace around it, returns that integer when it has at most 4300 digits, and otherwise raises the digit-limit error with its digit count |
| `IntCoercion.TrailingTextCheckedBeforeLimit` | main.py:156-165 | a number followed by text that is neither a digit, an underscore nor whitespace raises the invalid-literal error for the whole text, however many digits the number has |
| `IntCoercion.TrimStartIsSuffix` | main.py:156-165 | the leading-whitespace strip that `int()` applies removes only whitespace and leaves a suffix that does not start with whitespace |
| `IntCoercion.TrimEndIsPrefix` | main.py:156-165 | the trailing-whitespace strip removes only whitespace and leaves a prefix that does not end with whitespace |
| `IntCoercion.NoDigitNoInt` | main.py:156-165 | `int()` of a string with no digit always raises the invalid-literal `ValueError` for that text |
| `Characters.CoerceAll` | main.py:156-165 | coercing the scores in turn succeeds iff every `int()` call does, and then keeps each value; otherwise it raises the error of the first failing call |
| `Characters.Create` | main.py:150-176 | the constructor fails iff a coerced argument is not an integer, with the first failure's error; otherwise it stores the coerced scores and every other argument as given |
| `Characters.CoerceAllSucceeds` | main.py:156-165 | when every `int()` call returns, the coercions return exactly those integers, in order |
| `Characters.CoerceAllFailsAtFirst` | main.py:156-165 | when the calls before position `k` return and the one at `k` raises, the coercions raise that call's error, whatever follows |
| `Characters.CoerceDecimalText` | main.py:156-165 | arguments written as the decimal text of integers of at most 4300 digits, each with its own whitespace before and after, coerce back to those integers |
| `Characters.CoerceNonNumericStrength` | main.py:156-160 | when `num`, `char_id` and `base_hp` are integers, a strength with no digit makes the coercions fail with `ValueError` for that text, whatever the later scores are |
| `Characters.CreateRejectsNonNumericScore` | main.py:156-160 | when `num`, `char_id` and `base_hp` are integers, a strength given as a string with no digit makes construction fail with `ValueError` for that text, whatever the other arguments are |
| `TagModes.Modes.constructor` | main.py:25 | every kind starts strict: the three flags are true |
| `TagModes.Modes.SetBackground` | main.py:40-42 | sets the background flag only; feat equality, class equality and inequality, and feat and class hashes are unchanged |
| `TagModes.Modes.SetFeat` | main.py:70-72 | sets the feat flag only; background equality, class equality and inequality, and class hashes are unchanged |
| `TagModes.Modes.SetCharacterClass` | main.py:144-146 | sets the class flag only; background and feat equality and feat hashes are unchanged |
| `TagModes.ModeChangesComparison` | main.py:62-72 | a stock "Alert" and its customized copy are strictly unequal, and equal once the feat flag is cleared; the feat flag ends false and the background and class flags are unchanged |

## Findings

| source | as written | input that shows it | evidently intended | confidence | as-written member | corrected member |
|---|---|---|---|---|---|---|
| main.py:80 | the strict hash key uses `str(self.race)` unsorted, while `__eq__` compares the sorted lists | `Feat("Alert", race=["Human", "Elf"])` and `Feat("Alert", race=["Elf", "Human"])`: strictly equal, different hash keys | build the key from `sorted(self.race or [])`, so that equal feats hash equally | high, not executed | `Feats.HashAsWrittenSplitsReorderedRaces` | `Feats.HashConsistent` |
| main.py:80 | the strict hash key uses `str(self.race)` without the `or []` that `__eq__` applies | `Feat("Alert")` and `Feat("Alert", race=[])`: strictly equal, keys ending in `None` and `[]` | build the key from `sorted(self.race or [])`, so that equal feats hash equally | high, not executed | `Feats.HashAsWrittenSplitsNoneFromEmpty` | `Feats.HashConsistent` |

`Feats.HashAsWritten` keeps the source's hash. `Feats.Hash` is the corrected
one, and `TagModes.Modes.FeatHash` uses it.

## Left out

- `load_dataset` (main.py:185-190): bz2 decompression, unpickling and toggling the garbage collector are I/O and runtime plumbing.
- The `__repr__` methods: display formatting only.
- `Race` and `Item`: plain field holders without behaviour. `Character` takes them as type parameters, like `gold` (a float) and `date_modified` (a `struct_time`).
- Python's `hash()`: the parameter `h`; its concrete values and per-process randomisation are not modelled.
- The `time()` salt of a customized feat's strict hash: the parameter `salt`; two calls reading different times are two different arguments.
- `repr` of strings inside keys is the text between single quotes; Python's escaping and its switch to double quotes are not modelled. They affect only the exact key text, never whether two equal records give equal keys.
- `int()`: non-ASCII digits and whitespace, float arguments and objects with `__int__`/`__index__` are not modelled.
- `IntCoercion.ParseInt`: the digit limit is the default 4300 of `sys.int_info.default_max_str_digits`. A limit changed at run time with `sys.set_int_max_str_digits()` is not modelled. The order of the checks is that of Python 3.12 and later, which validate the whole literal before counting its digits. Releases 3.9.14 to 3.11 count the digits first and raise the digit-limit error for a long number followed by invalid text, where the model raises the invalid-literal error. Releases before 3.9.14 and 3.10.7 have no limit.
- `IntCoercion.TrailingTextCheckedBeforeLimit`: states the behaviour of Python 3.12 and later; on 3.9.14 to 3.11 a number of more than 4300 digits followed by invalid text raises the digit-limit error instead.
- The flags hold a `bool`; the source tests any value for truthiness.
- Record attributes have the types their defaults and annotations suggest (bool flags, string names and settings); Python accepts any value there.
- Comparing records of different kinds, and instances whose `__dict__` was changed after construction, are not modelled.
- The default `!=` of `Background` and `Feat`, which Python derives from `__eq__`.
- Concurrent use of the class-level flags.
