/**
 The CEP (Brazilian postal code) field of both collection-point register
 pages: the `formatCEP` input mask and the condition that starts the
 address lookup. The two pages carry the same `formatCEP`.
 */
module Cep {
  import opened Wrappers
  import opened Text
  import opened Mask

  /** `(\d{5})(\d{3})` replaced by `"$1-$2"`. */
  const CepMask := Hashes(5) + ("-" + Hashes(3))
  const CepDigits := 8

  lemma CepMaskShape()
    ensures WellFormed(CepMask)
  {
  }

  lemma FillCep(d: string)
    requires |d| == CepDigits
    ensures Slots(CepMask) == CepDigits
    ensures Fill(CepMask, d) == d[..5] + "-" + d[5..]
  {
    FillLastGroup(3, d[5..]);
    FillGroup(5, '-', Hashes(3), d);
  }

  /** The regular-expression replacement on at most eight digits. */
  lemma MaskCepDigits(clean: string)
    requires AllDigits(clean) && |clean| <= CepDigits
    ensures |clean| == CepDigits ==> ReplaceFirst(clean, CepMask) == clean[..5] + "-" + clean[5..]
    ensures |clean| < CepDigits ==> ReplaceFirst(clean, CepMask) == clean
  {
    FillCep(if |clean| == CepDigits then clean else "00000000");
    ReplaceFirstOnDigits(clean, CepMask);
    if |clean| == CepDigits {
      assert clean[..CepDigits] == clean && clean[CepDigits..] == [];
    }
  }

  /**
   `formatCEP`: the digits of the input, hyphenated after the fifth when
   there are exactly eight; input with more than eight digits is returned
   untouched.
   */
  function FormatCep(value: string): (r: string)
    ensures |Digits(value)| == CepDigits ==>
              r == Digits(value)[..5] + "-" + Digits(value)[5..]
    ensures |Digits(value)| < CepDigits ==> r == Digits(value)
    ensures |Digits(value)| > CepDigits ==> r == value
  {
    var clean := Digits(value);
    if |clean| <= CepDigits then
      MaskCepDigits(clean);
      ReplaceFirst(clean, CepMask)
    else
      value
  }

  /** Masking keeps the digits: stripping the mask gives back what was typed. */
  lemma FormatCepKeepsDigits(value: string)
    ensures Digits(FormatCep(value)) == Digits(value)
  {
    var clean := Digits(value);
    if |clean| <= CepDigits {
      CepMaskShape();
      DigitsOfReplaceFirst(clean, CepMask);
    }
  }

  /** Re-masking an already masked value changes nothing. */
  lemma FormatCepIdempotent(value: string)
    ensures FormatCep(FormatCep(value)) == FormatCep(value)
  {
    FormatCepKeepsDigits(value);
  }

  /**
   The digits `handleCEPChange` sends to the address lookup, taken from the
   masked value; `None` when the lookup does not fire.
   */
  function CepLookupKey(typed: string): (r: Option<string>)
    ensures r.Some? <==> |Digits(typed)| == CepDigits
    ensures r.Some? ==> r.value == Digits(typed) && AllDigits(r.value)
  {
    var clean := Digits(FormatCep(typed));
    FormatCepKeepsDigits(typed);
    if |clean| == CepDigits then Some(clean) else None
  }
}
