/**
 The input masks of the forms are one-shot regular-expression replacements
 whose pattern is a run of fixed-width digit groups, `(\d{5})(\d{3})` with
 replacement `"$1-$2"`, and `(\d{3})(\d{3})(\d{3})(\d{2})` with
 `"$1.$2.$3-$4"`. Both are described here by a template in which `#` stands
 for one captured digit and every other character is copied literally:
 `"#####-###"` and `"###.###.###-##"`.
 */
module Mask {
  import opened Text

  const Slot := '#'

  /** Number of digits the pattern matches. */
  function Slots(t: string): nat {
    if t == [] then 0
    else (if t[0] == Slot then 1 else 0) + Slots(t[1..])
  }

  /** Literal template characters are never digits, so a filled mask strips back to its digits. */
  predicate WellFormed(t: string) {
    forall i :: 0 <= i < |t| ==> t[i] == Slot || !IsDigit(t[i])
  }

  /** The replacement string with its capture groups filled from `d`. */
  function Fill(t: string, d: string): (r: string)
    requires |d| == Slots(t)
    ensures |r| == |t|
  {
    if t == [] then []
    else if t[0] == Slot then [d[0]] + Fill(t[1..], d[1..])
    else [t[0]] + Fill(t[1..], d)
  }

  /**
   Non-global `s.replace(pattern, replacement)`: the leftmost window of
   `Slots(t)` consecutive digits is replaced by the filled template; with no
   such window `s` is returned as it is.
   */
  function ReplaceFirst(s: string, t: string): (r: string)
    ensures !HasWindow(s, Slots(t)) ==> r == s
    ensures HasWindow(s, Slots(t)) ==> |r| == |s| - Slots(t) + |t|
    decreases |s|
  {
    var n := Slots(t);
    if |s| < n then s
    else if AllDigits(s[..n]) then
      assert s[0..n] == s[..n] && WindowAt(s, 0, n);
      Fill(t, s[..n]) + s[n..]
    else
      WindowShift(s, n);
      [s[0]] + ReplaceFirst(s[1..], t)
  }

  /** The `n` characters of `s` from position `i` are all digits. */
  predicate WindowAt(s: string, i: int, n: nat) {
    0 <= i && i + n <= |s| && AllDigits(s[i..i + n])
  }

  /** Somewhere in `s` there are `n` consecutive digits. */
  predicate HasWindow(s: string, n: nat) {
    exists i | 0 <= i <= |s| :: WindowAt(s, i, n)
  }

  /** When the window does not start at the front, it lies in the tail. */
  lemma WindowShift(s: string, n: nat)
    requires n <= |s| && !AllDigits(s[..n])
    ensures HasWindow(s, n) <==> HasWindow(s[1..], n)
  {
    if HasWindow(s, n) {
      var i :| 0 <= i <= |s| && WindowAt(s, i, n);
      assert s[1..][i - 1..i - 1 + n] == s[i..i + n];
      assert WindowAt(s[1..], i - 1, n);
    }
    if HasWindow(s[1..], n) {
      var i :| 0 <= i <= |s[1..]| && WindowAt(s[1..], i, n);
      assert s[1..][i..i + n] == s[i + 1..i + 1 + n];
      assert WindowAt(s, i + 1, n);
    }
  }

  /** `k` hash characters: `k` consecutive digit groups of width one. */
  function Hashes(k: nat): (r: string)
    ensures |r| == k
    ensures forall i :: 0 <= i < k ==> r[i] == Slot
  {
    seq(k, _ => Slot)
  }

  lemma {:induction false} SlotsAppend(a: string, b: string)
    ensures Slots(a + b) == Slots(a) + Slots(b)
  {
    if a == [] {
      assert a + b == b;
    } else {
      assert (a + b)[0] == a[0];
      assert (a + b)[1..] == a[1..] + b;
      SlotsAppend(a[1..], b);
    }
  }

  lemma {:induction false} SlotsHashes(k: nat)
    ensures Slots(Hashes(k)) == k
  {
    if k > 0 {
      assert Hashes(k)[1..] == Hashes(k - 1);
      SlotsHashes(k - 1);
    }
  }

  lemma {:induction false} SlotsLiteral(c: char, rest: string)
    requires c != Slot
    ensures Slots([c] + rest) == Slots(rest)
  {
    assert ([c] + rest)[1..] == rest;
  }

  /** A group of `k` slots takes the next `k` digits verbatim. */
  lemma {:induction false} FillHashes(k: nat, rest: string, d: string)
    requires |d| == k + Slots(rest)
    ensures Slots(Hashes(k) + rest) == k + Slots(rest)
    ensures Fill(Hashes(k) + rest, d) == d[..k] + Fill(rest, d[k..])
  {
    SlotsAppend(Hashes(k), rest);
    SlotsHashes(k);
    if k > 0 {
      var t := Hashes(k) + rest;
      assert t[0] == Slot;
      assert t[1..] == Hashes(k - 1) + rest;
      FillHashes(k - 1, rest, d[1..]);
      assert d[1..][k - 1..] == d[k..];
      assert d[..k] == [d[0]] + d[1..][..k - 1];
    } else {
      assert Hashes(0) + rest == rest;
    }
  }

  /** A literal separator is copied and consumes no digit. */
  lemma FillLiteral(c: char, rest: string, d: string)
    requires c != Slot
    requires |d| == Slots(rest)
    ensures Slots([c] + rest) == Slots(rest)
    ensures Fill([c] + rest, d) == [c] + Fill(rest, d)
  {
    SlotsLiteral(c, rest);
    assert ([c] + rest)[1..] == rest;
  }

  /** A group of `k` slots followed by a literal separator. */
  lemma FillGroup(k: nat, c: char, rest: string, d: string)
    requires c != Slot
    requires |d| == k + Slots(rest)
    ensures Slots(Hashes(k) + ([c] + rest)) == k + Slots(rest)
    ensures Fill(Hashes(k) + ([c] + rest), d) == d[..k] + [c] + Fill(rest, d[k..])
  {
    FillLiteral(c, rest, d[k..]);
    FillHashes(k, [c] + rest, d);
  }

  /** A final group of `k` slots. */
  lemma FillLastGroup(k: nat, d: string)
    requires |d| == k
    ensures Slots(Hashes(k)) == k
    ensures Fill(Hashes(k), d) == d
  {
    FillHashes(k, [], d);
    assert Hashes(k) + [] == Hashes(k);
    assert d[..k] == d;
  }

  /** Filling a well-formed mask and stripping non-digits gives the digits back. */
  lemma {:induction false} DigitsOfFill(t: string, d: string)
    requires WellFormed(t)
    requires |d| == Slots(t)
    requires AllDigits(d)
    ensures Digits(Fill(t, d)) == d
  {
    if t == [] {
    } else if t[0] == Slot {
      DigitsOfFill(t[1..], d[1..]);
      assert Fill(t, d)[1..] == Fill(t[1..], d[1..]);
      assert d == [d[0]] + d[1..];
    } else {
      DigitsOfFill(t[1..], d);
      assert Fill(t, d)[1..] == Fill(t[1..], d);
    }
  }

  /**
   On a string of digits the leftmost window is at the start: a string of at
   least `Slots(t)` digits has its first `Slots(t)` masked and the rest kept,
   a shorter one is left alone.
   */
  lemma ReplaceFirstOnDigits(s: string, t: string)
    requires AllDigits(s)
    ensures |s| < Slots(t) ==> ReplaceFirst(s, t) == s
    ensures |s| >= Slots(t) ==>
              ReplaceFirst(s, t) == Fill(t, s[..Slots(t)]) + s[Slots(t)..]
  {
    if |s| >= Slots(t) {
      assert AllDigits(s[..Slots(t)]);
    }
  }

  /** Masking a digit string never loses or invents a digit. */
  lemma DigitsOfReplaceFirst(s: string, t: string)
    requires AllDigits(s)
    requires WellFormed(t)
    ensures Digits(ReplaceFirst(s, t)) == s
  {
    ReplaceFirstOnDigits(s, t);
    var n := Slots(t);
    if |s| >= n {
      DigitsOfFill(t, s[..n]);
      DigitsAppend(Fill(t, s[..n]), s[n..]);
      DigitsOfDigits(s[n..]);
      assert s == s[..n] + s[n..];
    } else {
      DigitsOfDigits(s);
    }
  }
}
