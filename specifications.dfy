/**
 * Item specifications (catalog/models.py, ItemSpecification): the value of
 * one attribute definition for one item, held in three slots (text, numeric,
 * boolean). `save` coerces the text slot into the slot the attribute's
 * value type names; `get_value` and `get_value_display` read the slots back
 * according to that type.
 *
 * Python's `float()` is the parameter `parse` (it is given the stripped
 * text and yields nothing where `float()` raises); the numeric slot is an
 * exact `real`. `str()` of a non-integral Decimal is the parameter
 * `formatDecimal`.
 */
module Specifications {
  import opened Wrappers
  import Text
  import opened Attributes

  /** The three stored value columns; `None` is SQL NULL. */
  datatype Slots = Slots(text: Option<string>, numeric: Option<real>, boolean: Option<bool>)

  /** What `get_value` returns: text (or None), an integral or fractional Decimal, or a bool. */
  datatype Value = NoValue | TextValue(s: string) | Integral(n: int) | Fraction(d: real) | Flag(b: bool)

  const TruthyWords: set<string> := {"true", "yes", "1", "on"}
  const FalsyWords: set<string> := {"false", "no", "0", "off"}

  lemma WordSetsDisjoint()
    ensures TruthyWords * FalsyWords == {}
  {
  }

  /** The boolean slot that `save` writes for a text submission of a boolean attribute. */
  function BooleanOf(text: string): Option<bool> {
    var word := Text.Lower(Text.Strip(text));
    if word in TruthyWords then Some(true)
    else if word in FalsyWords then Some(false)
    else None
  }

  /**
   * The slots after `save` (models.py:138-152). The text slot is never
   * changed; with no text nothing changes; a number attribute may only
   * change the numeric slot and a boolean one only the boolean slot.
   */
  function Coerce(vt: ValueType, s: Slots, parse: string -> Option<real>): (r: Slots)
    ensures r.text == s.text
    ensures s.text.None? || vt == TextType ==> r == s
    ensures vt != NumberType ==> r.numeric == s.numeric
    ensures vt != BooleanType ==> r.boolean == s.boolean
  {
    match s.text
    case None => s
    case Some(t) =>
      match vt
      case NumberType =>
        (match parse(Text.Strip(t))
         case Some(n) => s.(numeric := Some(n))
         case None => s)
      case BooleanType => s.(boolean := BooleanOf(t))
      case TextType => s
  }

  /** A number attribute takes the parsed value when parsing succeeds and keeps the old one otherwise. */
  lemma CoerceNumber(s: Slots, parse: string -> Option<real>)
    requires s.text.Some?
    ensures var p := parse(Text.Strip(s.text.value));
            Coerce(NumberType, s, parse).numeric == (if p.Some? then p else s.numeric)
  {
    var p := parse(Text.Strip(s.text.value));
    if p.Some? {
      assert Coerce(NumberType, s, parse) == s.(numeric := Some(p.value));
    } else {
      assert Coerce(NumberType, s, parse) == s;
    }
  }

  /** A boolean attribute's slot is always overwritten: true, false, or unknown for any other word. */
  lemma CoerceBoolean(s: Slots, parse: string -> Option<real>)
    requires s.text.Some?
    ensures var word := Text.Lower(Text.Strip(s.text.value));
            Coerce(BooleanType, s, parse).boolean ==
              if word in TruthyWords then Some(true)
              else if word in FalsyWords then Some(false)
              else None
  {
  }

  /** Saving twice is saving once. */
  lemma CoerceIdempotent(vt: ValueType, s: Slots, parse: string -> Option<real>)
    ensures Coerce(vt, Coerce(vt, s, parse), parse) == Coerce(vt, s, parse)
  {
  }

  /** How a submission reads once its stripped, lower-cased form is known. */
  lemma ReadsAs(text: string, stripped: string, word: string)
    requires Text.Strip(text) == stripped && Text.Lower(stripped) == word
    ensures BooleanOf(text) == if word in TruthyWords then Some(true)
                               else if word in FalsyWords then Some(false)
                               else None
  {
  }

  /** A stripped text with no upper-case letter reads as the word it is. */
  lemma ReadsPlain(t: string)
    requires Text.IsStripped(t)
    requires forall i :: 0 <= i < |t| ==> !('A' <= t[i] <= 'Z')
    ensures BooleanOf(t) == if t in TruthyWords then Some(true)
                            else if t in FalsyWords then Some(false)
                            else None
  {
    Text.StripOfStripped(t);
    Text.LowerOfLower(t);
  }

  /** Whitespace around a submission does not change how it reads. */
  lemma ReadsPadded(pre: string, w: string, post: string)
    requires forall k :: 0 <= k < |pre| ==> Text.IsSpace(pre[k])
    requires forall k :: 0 <= k < |post| ==> Text.IsSpace(post[k])
    requires w != [] && Text.IsStripped(w)
    ensures BooleanOf(pre + w + post) == BooleanOf(w)
  {
    Text.StripPadded(pre, w, post);
    Text.StripOfStripped(w);
  }

  /** Upper-case letters in a submission read as their lower-case forms. */
  lemma ReadsIgnoringCase(t: string, u: string)
    requires Text.IsStripped(t) && Text.IsStripped(u)
    requires Text.Lower(t) == Text.Lower(u)
    ensures BooleanOf(t) == BooleanOf(u)
  {
    Text.StripOfStripped(t);
    Text.StripOfStripped(u);
  }

  /**
   * "maybe" is a stripped, lower-case word in neither vocabulary, so by
   * `ReadsPlain` it reads as unknown.
   */
  lemma MaybeIsUnknownWord()
    ensures Text.IsStripped("maybe")
    ensures forall i :: 0 <= i < |"maybe"| ==> !('A' <= "maybe"[i] <= 'Z')
    ensures "maybe" !in TruthyWords && "maybe" !in FalsyWords
  {
  }

  /** The number a real is equal to when it is integral. */
  predicate IsIntegral(d: real) {
    d == d.Floor as real
  }

  /** `get_value` (models.py:114-122). */
  function EffectiveValue(vt: ValueType, s: Slots): (v: Value)
    ensures v.Integral? || v.Fraction? ==> vt == NumberType
    ensures v.Flag? ==> vt == BooleanType
  {
    if vt == NumberType && s.numeric.Some? then
      var d := s.numeric.value;
      if IsIntegral(d) then Integral(d.Floor) else Fraction(d)
    else if vt == BooleanType && s.boolean.Some? then
      Flag(s.boolean.value)
    else
      match s.text
      case Some(t) => TextValue(t)
      case None => NoValue
  }

  /** The number a numeric value stands for. */
  function Quantity(v: Value): real
    requires v.Integral? || v.Fraction?
  {
    if v.Integral? then v.n as real else v.d
  }

  /**
   * For a number attribute with a numeric slot, the value is that number,
   * given as an integer exactly when it is integral.
   */
  lemma NumberValue(s: Slots)
    requires s.numeric.Some?
    ensures var v := EffectiveValue(NumberType, s);
            (v.Integral? || v.Fraction?) && Quantity(v) == s.numeric.value
            && (v.Integral? <==> IsIntegral(s.numeric.value))
  {
  }

  /** A boolean attribute with its slot set yields that boolean, unknown or not. */
  lemma BooleanValue(s: Slots)
    requires s.boolean.Some?
    ensures EffectiveValue(BooleanType, s) == Flag(s.boolean.value)
  {
  }

  /** In every other case the value is the text slot. */
  lemma TextFallback(vt: ValueType, s: Slots)
    requires vt == TextType || (vt == NumberType && s.numeric.None?) || (vt == BooleanType && s.boolean.None?)
    ensures EffectiveValue(vt, s) == if s.text.Some? then TextValue(s.text.value) else NoValue
  {
  }

  /**
   * The value is type-directed: slots other than the text and the one the
   * type names do not affect it.
   */
  lemma ValueIgnoresOtherSlots(vt: ValueType, s: Slots, s': Slots)
    requires s.text == s'.text
    requires vt == NumberType ==> s.numeric == s'.numeric
    requires vt == BooleanType ==> s.boolean == s'.boolean
    ensures EffectiveValue(vt, s) == EffectiveValue(vt, s')
  {
  }

  /** Python truthiness of the value. */
  predicate Truthy(v: Value) {
    match v
    case NoValue => false
    case TextValue(t) => t != ""
    case Integral(n) => n != 0
    case Fraction(d) => d != 0.0
    case Flag(b) => b
  }

  /** `f"{val}"`; Decimal rendering of a non-integral number is `formatDecimal`. */
  function Render(v: Value, formatDecimal: real -> string): string {
    match v
    case NoValue => "None"
    case TextValue(t) => t
    case Integral(n) => Text.IntToString(n)
    case Fraction(d) => formatDecimal(d)
    case Flag(b) => if b then "True" else "False"
  }

  /** The unit suffix: a space and the unit, when a non-empty unit is set. */
  function UnitSuffix(unit: Option<string>): string {
    if unit.Some? && unit.value != "" then " " + unit.value else ""
  }

  /**
   * `get_value_display` as written (models.py:124-136). For a boolean
   * attribute its truthiness test also applies to the text fallback.
   */
  function DisplayAsWritten(vt: ValueType, unit: Option<string>, s: Slots, formatDecimal: real -> string): (out: string)
    ensures vt == BooleanType ==> out in {"Yes", "No", "N/A"}
  {
    var v := EffectiveValue(vt, s);
    if vt == BooleanType then
      if Truthy(v) then "Yes" else if v == Flag(false) then "No" else "N/A"
    else if v == NoValue then
      "N/A"
    else
      Render(v, formatDecimal) + UnitSuffix(unit)
  }

  /**
   * A boolean attribute whose text is a non-empty word outside both
   * vocabularies, such as "maybe", has an unknown boolean slot after `save`,
   * yet displays "Yes": the text fallback is truthy.
   */
  lemma UnknownWordDisplaysYes(unit: Option<string>, s: Slots, parse: string -> Option<real>, formatDecimal: real -> string)
    requires s.text.Some? && s.text.value != []
    requires Text.IsStripped(s.text.value)
    requires forall i :: 0 <= i < |s.text.value| ==> !('A' <= s.text.value[i] <= 'Z')
    requires s.text.value !in TruthyWords && s.text.value !in FalsyWords
    ensures Coerce(BooleanType, s, parse).boolean == None
    ensures DisplayAsWritten(BooleanType, unit, Coerce(BooleanType, s, parse), formatDecimal) == "Yes"
  {
    ReadsPlain(s.text.value);
    var c := Coerce(BooleanType, s, parse);
    assert c == s.(boolean := BooleanOf(s.text.value));
    TextFallback(BooleanType, c);
  }

  /**
   * `get_value_display` as evidently intended: a boolean attribute shows
   * "Yes", "No" or "N/A" for true, false or unknown; other attributes show
   * the value with the unit suffix, or "N/A" when there is none.
   */
  function Display(vt: ValueType, unit: Option<string>, s: Slots, formatDecimal: real -> string): (out: string)
    ensures vt == BooleanType ==> out in {"Yes", "No", "N/A"}
  {
    if vt == BooleanType then
      match s.boolean
      case Some(true) => "Yes"
      case Some(false) => "No"
      case None => "N/A"
    else
      var v := EffectiveValue(vt, s);
      if v == NoValue then "N/A" else Render(v, formatDecimal) + UnitSuffix(unit)
  }

  /**
   * For a text or number attribute, both displays show "N/A" when there is
   * no value and otherwise the rendered value followed by the unit suffix;
   * there is no value exactly when the text slot is empty and, for a number
   * attribute, the numeric slot is too.
   */
  lemma DisplayOtherTypes(vt: ValueType, unit: Option<string>, s: Slots, formatDecimal: real -> string)
    requires vt != BooleanType
    ensures var v := EffectiveValue(vt, s);
            && (v == NoValue ==> Display(vt, unit, s, formatDecimal) == "N/A")
            && (v != NoValue ==> Display(vt, unit, s, formatDecimal) == Render(v, formatDecimal) + UnitSuffix(unit))
            && DisplayAsWritten(vt, unit, s, formatDecimal) == Display(vt, unit, s, formatDecimal)
    ensures EffectiveValue(vt, s) == NoValue <==> s.text.None? && (vt == NumberType ==> s.numeric.None?)
  {
  }

  /** For a boolean attribute the display is a function of the boolean slot alone, in both directions. */
  lemma DisplayBooleanTriState(unit: Option<string>, s: Slots, formatDecimal: real -> string)
    ensures Display(BooleanType, unit, s, formatDecimal) == "Yes" <==> s.boolean == Some(true)
    ensures Display(BooleanType, unit, s, formatDecimal) == "No" <==> s.boolean == Some(false)
    ensures Display(BooleanType, unit, s, formatDecimal) == "N/A" <==> s.boolean == None
  {
  }

  /**
   * The intended display differs from the code only for a boolean attribute
   * with an unknown slot and a non-empty text.
   */
  lemma DisplayAgreesExceptUnknown(vt: ValueType, unit: Option<string>, s: Slots, formatDecimal: real -> string)
    ensures DisplayAsWritten(vt, unit, s, formatDecimal) != Display(vt, unit, s, formatDecimal)
            <==> vt == BooleanType && s.boolean.None? && s.text.Some? && s.text.value != ""
  {
  }

  /** A number attribute holding 10.00000 displays as the integer "10", with the unit after a space. */
  lemma TenDisplaysAsInteger(text: Option<string>, boolean: Option<bool>, formatDecimal: real -> string)
    ensures EffectiveValue(NumberType, Slots(text, Some(10.0), boolean)) == Integral(10)
    ensures EffectiveValue(NumberType, Slots(text, Some(10.5), boolean)) == Fraction(10.5)
    ensures Display(NumberType, None, Slots(text, Some(10.0), boolean), formatDecimal) == "10"
    ensures Display(NumberType, Some("g"), Slots(text, Some(10.0), boolean), formatDecimal) == "10 g"
  {
    assert (10.0).Floor == 10;
    assert (10.5).Floor == 10;
    assert Text.NatToString(10) == Text.NatToString(1) + ['0'];
  }

  /** One stored specification row, as the object `save` works on. */
  class ItemSpecification {
    const attribute: AttributeDefinition
    var valueText: Option<string>
    var valueNumeric: Option<real>
    var valueBoolean: Option<bool>

    constructor (attribute: AttributeDefinition, text: Option<string>, numeric: Option<real>, boolean: Option<bool>)
      ensures this.attribute == attribute
      ensures valueText == text && valueNumeric == numeric && valueBoolean == boolean
    {
      this.attribute := attribute;
      valueText := text;
      valueNumeric := numeric;
      valueBoolean := boolean;
    }

    function Stored(): Slots
      reads this
    {
      Slots(valueText, valueNumeric, valueBoolean)
    }

    /** `save` (models.py:138-154) minus the write itself: the slots become their coercion. */
    method Save(parse: string -> Option<real>)
      modifies this
      ensures Stored() == Coerce(attribute.valueType, old(Stored()), parse)
    {
      if valueText.Some? {
        if attribute.valueType == NumberType {
          var parsed := parse(Text.Strip(valueText.value));
          if parsed.Some? {
            valueNumeric := parsed;
          }
        } else if attribute.valueType == BooleanType {
          var word := Text.Lower(Text.Strip(valueText.value));
          if word in TruthyWords {
            valueBoolean := Some(true);
          } else if word in FalsyWords {
            valueBoolean := Some(false);
          } else {
            valueBoolean := None;
          }
        }
      }
    }
  }
}
