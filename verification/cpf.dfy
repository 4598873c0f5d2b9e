/**
 The CPF (Brazilian taxpayer number) field of the two sign-up pages:
 `validateCPF`, shared by both, and the two versions of `formatCPF` — the
 one in signup-page.tsx leaves input with more than eleven digits alone,
 the one in components/auth/signup-page.tsx has no such guard.
 */
module Cpf {
  import opened Text
  import opened Mask

  /** `(\d{3})(\d{3})(\d{3})(\d{2})` replaced by `"$1.$2.$3-$4"`. */
  const CpfMask := Hashes(3) + ("." + (Hashes(3) + ("." + (Hashes(3) + ("-" + Hashes(2))))))
  const CpfDigits := 11

  /** The mask applied to exactly eleven digits. */
  function Masked(d: string): string
    requires |d| == CpfDigits
  {
    d[..3] + "." + d[3..6] + "." + d[6..9] + "-" + d[9..]
  }

  lemma CpfMaskShape()
    ensures WellFormed(CpfMask)
  {
  }

  lemma FillCpf(d: string)
    requires |d| == CpfDigits
    ensures Slots(CpfMask) == CpfDigits
    ensures Fill(CpfMask, d) == Masked(d)
  {
    FillCpfTail(d);
    FillGroup(3, '.', CpfTail, d);
    MaskedParts(d);
  }

  /** The mask after its first group and separator: `###.###-##`. */
  const CpfTail := Hashes(3) + ("." + (Hashes(3) + ("-" + Hashes(2))))

  lemma FillCpfTail(d: string)
    requires |d| == CpfDigits
    ensures Slots(CpfTail) == 8
    ensures Fill(CpfTail, d[3..]) == d[3..6] + "." + (d[6..9] + "-" + d[9..])
  {
    FillCpfLast(d);
    FillGroup(3, '.', Hashes(3) + ("-" + Hashes(2)), d[3..]);
    assert d[3..][..3] == d[3..6] && d[3..][3..] == d[6..];
  }

  lemma FillCpfLast(d: string)
    requires |d| == CpfDigits
    ensures Slots(Hashes(3) + ("-" + Hashes(2))) == 5
    ensures Fill(Hashes(3) + ("-" + Hashes(2)), d[6..]) == d[6..9] + "-" + d[9..]
  {
    FillLastGroup(2, d[9..]);
    FillGroup(3, '-', Hashes(2), d[6..]);
    assert d[6..][..3] == d[6..9] && d[6..][3..] == d[9..];
  }

  lemma MaskedParts(d: string)
    requires |d| == CpfDigits
    ensures Masked(d) == d[..3] + "." + (d[3..6] + "." + (d[6..9] + "-" + d[9..]))
  {
    Regroup(d[..3], ".", d[3..6], ".", d[6..9], "-", d[9..]);
  }

  lemma Regroup<T>(a: seq<T>, b: seq<T>, c: seq<T>, d: seq<T>, e: seq<T>, f: seq<T>, g: seq<T>)
    ensures a + b + (c + d + (e + f + g)) == a + b + c + d + e + f + g
  {
  }

  /** The regular-expression replacement on a string of digits. */
  lemma MaskCpfDigits(clean: string)
    requires AllDigits(clean)
    ensures |clean| >= CpfDigits ==>
              ReplaceFirst(clean, CpfMask) == Masked(clean[..CpfDigits]) + clean[CpfDigits..]
    ensures |clean| < CpfDigits ==> ReplaceFirst(clean, CpfMask) == clean
  {
    FillCpf(if |clean| >= CpfDigits then clean[..CpfDigits] else "00000000000");
    ReplaceFirstOnDigits(clean, CpfMask);
  }

  /** `validateCPF`: eleven digits once everything else is removed. */
  function ValidateCpf(cpf: string): (ok: bool)
    ensures ok ==> |cpf| >= CpfDigits
    ensures AllDigits(cpf) ==> (ok <==> |cpf| == CpfDigits)
  {
    DigitsOfDigitsWhenAll(cpf);
    |Digits(cpf)| == CpfDigits
  }

  /** `formatCPF` of signup-page.tsx, with its eleven-digit guard. */
  function FormatCpf(value: string): (r: string)
    ensures |Digits(value)| == CpfDigits ==> r == Masked(Digits(value))
    ensures |Digits(value)| < CpfDigits ==> r == Digits(value)
    ensures |Digits(value)| > CpfDigits ==> r == value
  {
    var clean := Digits(value);
    if |clean| <= CpfDigits then
      MaskCpfDigits(clean);
      assert |clean| == CpfDigits ==> clean[..CpfDigits] == clean && clean[CpfDigits..] == [];
      ReplaceFirst(clean, CpfMask)
    else
      value
  }

  /**
   `formatCPF` of components/auth/signup-page.tsx: without the guard, the
   first eleven digits are masked and any further digits trail the mask.
   */
  function FormatCpfUnguarded(value: string): (r: string)
    ensures |Digits(value)| >= CpfDigits ==>
              r == Masked(Digits(value)[..CpfDigits]) + Digits(value)[CpfDigits..]
    ensures |Digits(value)| < CpfDigits ==> r == Digits(value)
  {
    var clean := Digits(value);
    MaskCpfDigits(clean);
    ReplaceFirst(clean, CpfMask)
  }

  lemma MaskedKeepsDigits(d: string)
    requires |d| == CpfDigits && AllDigits(d)
    ensures Digits(Masked(d)) == d
  {
    CpfMaskShape();
    FillCpf(d);
    DigitsOfFill(CpfMask, d);
  }

  lemma FormatCpfKeepsDigits(value: string)
    ensures Digits(FormatCpf(value)) == Digits(value)
    ensures Digits(FormatCpfUnguarded(value)) == Digits(value)
  {
    var clean := Digits(value);
    CpfMaskShape();
    DigitsOfReplaceFirst(clean, CpfMask);
  }

  /** Both masks are stable under re-masking the masked value. */
  lemma FormatCpfIdempotent(value: string)
    ensures FormatCpf(FormatCpf(value)) == FormatCpf(value)
    ensures FormatCpfUnguarded(FormatCpfUnguarded(value)) == FormatCpfUnguarded(value)
  {
    FormatCpfKeepsDigits(value);
    FormatCpfKeepsDigits(FormatCpf(value));
    FormatCpfKeepsDigits(FormatCpfUnguarded(value));
  }

  /** Masking never turns a valid CPF invalid or an invalid one valid. */
  lemma ValidateCpfOfFormatted(value: string)
    ensures ValidateCpf(FormatCpf(value)) <==> ValidateCpf(value)
    ensures ValidateCpf(FormatCpfUnguarded(value)) <==> ValidateCpf(value)
  {
    FormatCpfKeepsDigits(value);
  }

  /** A valid CPF is displayed as `ddd.ddd.ddd-dd` by either mask. */
  lemma ValidCpfDisplay(value: string)
    requires ValidateCpf(value)
    ensures FormatCpf(value) == FormatCpfUnguarded(value)
    ensures |FormatCpf(value)| == 14
    ensures FormatCpf(value)[3] == '.' && FormatCpf(value)[7] == '.' && FormatCpf(value)[11] == '-'
  {
    assert Digits(value)[..CpfDigits] == Digits(value);
    assert Digits(value)[CpfDigits..] == [];
  }
}
