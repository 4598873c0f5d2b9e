/**
 Character classes and string primitives that the form code uses through
 JavaScript's regular expressions and `String.prototype` methods:
 `replace(/\D/g, "")`, `replace(":", "")`, `slice`, `\S` and the
 relational operators on strings.
 */
module Text {

  /** `\d` without the `u` flag: exactly the ASCII digits. */
  predicate IsDigit(c: char) {
    '0' <= c <= '9'
  }

  predicate AllDigits(s: string) {
    forall i :: 0 <= i < |s| ==> IsDigit(s[i])
  }

  /**
   `\s`: the WhiteSpace and LineTerminator code points of ECMAScript. Among
   ASCII characters these are the space and the controls TAB to CR.
   */
  function IsSpace(c: char): (r: bool)
    ensures c < '\U{0080}' ==> (r <==> c == ' ' || '\t' <= c <= '\r')
  {
    || c == ' ' || c == '\t' || c == '\n' || c == '\r'
    || c == '\U{000B}' || c == '\U{000C}'
    || c == '\U{00A0}' || c == '\U{1680}'
    || ('\U{2000}' <= c <= '\U{200A}')
    || c == '\U{2028}' || c == '\U{2029}' || c == '\U{202F}'
    || c == '\U{205F}' || c == '\U{3000}' || c == '\U{FEFF}'
  }

  /** `s.replace(/\D/g, "")`: the digits of `s`, in order. */
  function Digits(s: string): (r: string)
    ensures AllDigits(r)
    ensures |r| <= |s|
  {
    if s == [] then []
    else if IsDigit(s[0]) then [s[0]] + Digits(s[1..])
    else Digits(s[1..])
  }

  lemma {:induction false} DigitsOfDigits(s: string)
    requires AllDigits(s)
    ensures Digits(s) == s
  {
    if s != [] {
      DigitsOfDigits(s[1..]);
    }
  }

  /** Stripping a string that is already all digits leaves it as it is. */
  lemma DigitsOfDigitsWhenAll(s: string)
    ensures AllDigits(s) ==> Digits(s) == s
  {
    if AllDigits(s) {
      DigitsOfDigits(s);
    }
  }

  lemma {:induction false} DigitsAppend(a: string, b: string)
    ensures Digits(a + b) == Digits(a) + Digits(b)
  {
    if a == [] {
      assert a + b == b;
    } else {
      assert (a + b)[1..] == a[1..] + b;
      DigitsAppend(a[1..], b);
    }
  }

  /** Stripping twice strips nothing more. */
  lemma DigitsIdempotent(s: string)
    ensures Digits(Digits(s)) == Digits(s)
  {
    DigitsOfDigits(Digits(s));
  }

  /** Every digit of `s` survives and nothing else does. */
  lemma {:induction false} DigitsKeepsExactlyDigits(s: string, c: char)
    ensures c in Digits(s) <==> c in s && IsDigit(c)
  {
    if s != [] {
      DigitsKeepsExactlyDigits(s[1..], c);
      assert s == [s[0]] + s[1..];
    }
  }

  /** `s.replace(c, "")` with a one-character string pattern: removes the first occurrence only. */
  function RemoveFirst(s: string, c: char): (r: string)
    ensures c in s ==> |r| == |s| - 1
    ensures c !in s ==> r == s
  {
    if s == [] then []
    else if s[0] == c then s[1..]
    else [s[0]] + RemoveFirst(s[1..], c)
  }

  lemma {:induction false} RemoveFirstAt(s: string, c: char, k: nat)
    requires k < |s| && s[k] == c
    requires c !in s[..k]
    ensures RemoveFirst(s, c) == s[..k] + s[k + 1..]
  {
    if k > 0 {
      assert s[0] in s[..k];
      assert s[1..][..k - 1] == s[1..k];
      assert c !in s[1..][..k - 1];
      RemoveFirstAt(s[1..], c, k - 1);
      assert s[..k] == [s[0]] + s[1..k];
    }
  }

  /** `s.slice(b, e)` for 0 <= b <= e: indices past the end are clamped. */
  function Slice(s: string, b: nat, e: nat): (r: string)
    requires b <= e
    ensures |r| <= e - b
    ensures e <= |s| ==> r == s[b..e]
    ensures b <= |s| < e ==> r == s[b..]
    ensures |s| <= b ==> r == []
  {
    var hi := if e <= |s| then e else |s|;
    var lo := if b <= hi then b else hi;
    s[lo..hi]
  }

  /** `s.slice(b)` for b >= 0. */
  function SliceFrom(s: string, b: nat): (r: string)
    ensures b <= |s| ==> r == s[b..]
    ensures |s| <= b ==> r == []
  {
    if b <= |s| then s[b..] else []
  }

  /**
   JavaScript's `a < b` on strings: lexicographic, a proper prefix is smaller.
   No string is below itself.
   */
  function Below(a: string, b: string): (r: bool)
    ensures r ==> a != b
    ensures |a| <= |b| && a == b[..|a|] ==> (r <==> |a| < |b|)
  {
    if a == [] then b != []
    else if b == [] then false
    else if a[0] != b[0] then a[0] < b[0]
    else
      assert |a| <= |b| && a == b[..|a|] ==> a[1..] == b[1..][..|a| - 1];
      Below(a[1..], b[1..])
  }

  lemma {:induction false} BelowTrichotomy(a: string, b: string)
    ensures Below(a, b) || a == b || Below(b, a)
    ensures !(Below(a, b) && Below(b, a))
  {
    if a != [] && b != [] && a[0] == b[0] {
      BelowTrichotomy(a[1..], b[1..]);
      if a[1..] == b[1..] {
        assert a == [a[0]] + a[1..] && b == [b[0]] + b[1..];
      }
    }
  }

  /** The value of a decimal digit character. */
  function DigitValue(c: char): int {
    c as int - '0' as int
  }

  /** Lexicographic order on four characters. */
  predicate LexLess(x: seq<char>, y: seq<char>)
    requires |x| == 4 && |y| == 4
  {
    || x[0] < y[0]
    || (x[0] == y[0] && x[1] < y[1])
    || (x[0] == y[0] && x[1] == y[1] && x[2] < y[2])
    || (x[0] == y[0] && x[1] == y[1] && x[2] == y[2] && x[3] < y[3])
  }

  lemma BelowStep(a: string, b: string)
    requires a != [] && b != []
    ensures Below(a, b) <==> a[0] < b[0] || (a[0] == b[0] && Below(a[1..], b[1..]))
  {
  }

  lemma DigitOrder(c: char, d: char)
    requires IsDigit(c) && IsDigit(d)
    ensures c < d <==> DigitValue(c) < DigitValue(d)
    ensures c == d <==> DigitValue(c) == DigitValue(d)
    ensures 0 <= DigitValue(c) <= 9
  {
  }
}
