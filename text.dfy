/**
 * The string operations the staging transformer applies to scraped text:
 * Python's `str.split` and `str.join` on a one-character separator,
 * `str.replace(pattern, "")`, keeping only the digits of a string, and the
 * decimal numerals that `int(...)` and a permissive numeric parse accept.
 */
module Text {
  import opened Wrappers

  /** Number of occurrences of `c` in `s`. */
  function Occurrences(s: string, c: char): nat
  {
    if s == [] then 0 else (if s[0] == c then 1 else 0) + Occurrences(s[1..], c)
  }

  // ---------------------------------------------------------------------------
  // split / join on one separator character

  /**
   * `s.split(sep)`: the pieces between separators, empty pieces kept, so a
   * string with k separators has k + 1 pieces and none of them holds `sep`.
   */
  function Split(s: string, sep: char): (parts: seq<string>)
    ensures |parts| == Occurrences(s, sep) + 1
    ensures forall i :: 0 <= i < |parts| ==> sep !in parts[i]
  {
    if s == [] then [""]
    else
      var rest := Split(s[1..], sep);
      if s[0] == sep then [""] + rest
      else [[s[0]] + rest[0]] + rest[1..]
  }

  /** `sep.join(parts)`. */
  function Join(parts: seq<string>, sep: char): string
  {
    if |parts| == 0 then ""
    else if |parts| == 1 then parts[0]
    else parts[0] + [sep] + Join(parts[1..], sep)
  }

  lemma {:induction false} SplitWithoutSeparator(s: string, sep: char)
    requires sep !in s
    ensures Split(s, sep) == [s]
  {
    if s != [] {
      assert s[0] != sep && sep !in s[1..];
      SplitWithoutSeparator(s[1..], sep);
      assert [s[0]] + s[1..] == s;
    }
  }

  lemma {:induction false} SplitAfterPiece(a: string, sep: char, b: string)
    requires sep !in a
    ensures Split(a + [sep] + b, sep) == [a] + Split(b, sep)
  {
    if a == [] {
      assert a + [sep] + b == [sep] + b;
      assert ([sep] + b)[1..] == b;
    } else {
      assert (a + [sep] + b)[1..] == a[1..] + [sep] + b;
      SplitAfterPiece(a[1..], sep, b);
      assert [a[0]] + a[1..] == a;
    }
  }

  /** Joining pieces free of the separator and splitting again gives the pieces back. */
  lemma {:induction false} SplitJoin(parts: seq<string>, sep: char)
    requires |parts| >= 1
    requires forall i :: 0 <= i < |parts| ==> sep !in parts[i]
    ensures Split(Join(parts, sep), sep) == parts
  {
    if |parts| == 1 {
      SplitWithoutSeparator(parts[0], sep);
    } else {
      SplitJoin(parts[1..], sep);
      SplitAfterPiece(parts[0], sep, Join(parts[1..], sep));
      assert [parts[0]] + parts[1..] == parts;
    }
  }

  /** Splitting and joining again gives the string back. */
  lemma {:induction false} JoinSplit(s: string, sep: char)
    ensures Join(Split(s, sep), sep) == s
  {
    if s != [] {
      JoinSplit(s[1..], sep);
      var rest := Split(s[1..], sep);
      if s[0] == sep {
        assert Join([""] + rest, sep) == "" + [sep] + Join(rest, sep);
        assert [s[0]] + s[1..] == s;
      } else {
        var parts := [[s[0]] + rest[0]] + rest[1..];
        if |rest| == 1 {
          assert Join(rest, sep) == rest[0];
        } else {
          assert Join(rest, sep) == rest[0] + [sep] + Join(rest[1..], sep);
          assert parts[1..] == rest[1..];
        }
        assert [s[0]] + s[1..] == s;
      }
    }
  }

  // ---------------------------------------------------------------------------
  // str.replace(pattern, "")

  /**
   * `s.replace(pattern, "")`: scanning left to right, every non-overlapping
   * occurrence of `pattern` is deleted.
   */
  function RemoveAll(s: string, pattern: string): string
    requires |pattern| > 0
    decreases |s|
  {
    if |s| < |pattern| then s
    else if s[..|pattern|] == pattern then RemoveAll(s[|pattern|..], pattern)
    else [s[0]] + RemoveAll(s[1..], pattern)
  }

  /** The characters of `s` other than `c`, in order. */
  function Without(s: string, c: char): string
  {
    if s == [] then [] else (if s[0] == c then [] else [s[0]]) + Without(s[1..], c)
  }

  lemma {:induction false} WithoutConcat(a: string, b: string, c: char)
    ensures Without(a + b, c) == Without(a, c) + Without(b, c)
  {
    if a != [] {
      assert (a + b)[0] == a[0];
      assert (a + b)[1..] == a[1..] + b;
      WithoutConcat(a[1..], b, c);
      var h := if a[0] == c then [] else [a[0]];
      assert Without(a + b, c) == h + Without(a[1..] + b, c);
      assert h + (Without(a[1..], c) + Without(b, c)) == (h + Without(a[1..], c)) + Without(b, c);
    } else {
      assert a + b == b;
    }
  }

  /** Removing a one-character pattern deletes exactly that character and keeps the rest in order. */
  lemma {:induction false} RemoveCharIsWithout(s: string, c: char)
    ensures RemoveAll(s, [c]) == Without(s, c)
    ensures c !in RemoveAll(s, [c])
  {
    if s != [] {
      RemoveCharIsWithout(s[1..], c);
      assert s[..1] == [s[0]];
    }
  }

  // ---------------------------------------------------------------------------
  // digits and decimal numerals

  predicate IsDigit(c: char)
  {
    '0' <= c <= '9'
  }

  predicate AllDigits(s: string)
  {
    forall i :: 0 <= i < |s| ==> IsDigit(s[i])
  }

  function DigitValue(c: char): nat
    requires IsDigit(c)
  {
    c as int - '0' as int
  }

  function DigitChar(d: nat): (c: char)
    requires d < 10
    ensures IsDigit(c) && DigitValue(c) == d
  {
    ('0' as int + d) as char
  }

  /** `re.sub("[^0-9]", "", s)`: the digits of `s`, in order. */
  function Digits(s: string): (d: string)
    ensures AllDigits(d)
    ensures |d| <= |s|
    ensures d == [] <==> forall i :: 0 <= i < |s| ==> !IsDigit(s[i])
  {
    if s == [] then []
    else
      var rest := Digits(s[1..]);
      assert forall i :: 1 <= i < |s| ==> s[i] == s[1..][i - 1];
      if IsDigit(s[0]) then [s[0]] + rest else rest
  }

  lemma {:induction false} DigitsConcat(a: string, b: string)
    ensures Digits(a + b) == Digits(a) + Digits(b)
  {
    if a != [] {
      assert (a + b)[0] == a[0];
      assert (a + b)[1..] == a[1..] + b;
      DigitsConcat(a[1..], b);
      var h := if IsDigit(a[0]) then [a[0]] else [];
      assert Digits(a + b) == h + Digits(a[1..] + b);
      assert Digits(a) == h + Digits(a[1..]);
      assert h + (Digits(a[1..]) + Digits(b)) == (h + Digits(a[1..])) + Digits(b);
    } else {
      assert a + b == b;
    }
  }

  lemma {:induction false} DigitsOfDigits(s: string)
    requires AllDigits(s)
    ensures Digits(s) == s
  {
    if s != [] {
      DigitsOfDigits(s[1..]);
      assert [s[0]] + s[1..] == s;
    }
  }

  /** The number a decimal numeral denotes, most significant digit first. */
  function NumeralValue(s: string): nat
    requires AllDigits(s)
  {
    if s == [] then 0 else 10 * NumeralValue(s[..|s| - 1]) + DigitValue(s[|s| - 1])
  }

  /** The decimal numeral of `n`, without leading zeros. */
  function ShowNat(n: nat): (s: string)
    ensures |s| >= 1 && AllDigits(s)
  {
    if n < 10 then [DigitChar(n)] else ShowNat(n / 10) + [DigitChar(n % 10)]
  }

  lemma {:induction false} NumeralOfShowNat(n: nat)
    ensures NumeralValue(ShowNat(n)) == n
  {
    if n >= 10 {
      var s := ShowNat(n);
      assert s[..|s| - 1] == ShowNat(n / 10);
      NumeralOfShowNat(n / 10);
    }
  }

  function Pow10(k: nat): nat
  {
    if k == 0 then 1 else 10 * Pow10(k - 1)
  }

  lemma ScaleStep(x: nat, p: nat, y: nat, d: nat)
    ensures 10 * (x * p + y) + d == x * (10 * p) + (10 * y + d)
  {
  }

  lemma {:induction false} NumeralConcat(a: string, b: string)
    requires AllDigits(a) && AllDigits(b)
    ensures AllDigits(a + b)
    ensures NumeralValue(a + b) == NumeralValue(a) * Pow10(|b|) + NumeralValue(b)
  {
    assert AllDigits(a + b) by {
      forall i | 0 <= i < |a + b| ensures IsDigit((a + b)[i]) {
        if i < |a| { assert (a + b)[i] == a[i]; } else { assert (a + b)[i] == b[i - |a|]; }
      }
    }
    if b == [] {
      assert a + b == a;
    } else {
      var b' := b[..|b| - 1];
      var d := DigitValue(b[|b| - 1]);
      assert (a + b)[..|a + b| - 1] == a + b';
      assert (a + b)[|a + b| - 1] == b[|b| - 1];
      NumeralConcat(a, b');
      assert NumeralValue(a + b) == 10 * NumeralValue(a + b') + d;
      assert NumeralValue(b) == 10 * NumeralValue(b') + d;
      ScaleStep(NumeralValue(a), Pow10(|b'|), NumeralValue(b'), d);
    }
  }

  /**
   * The permissive numeric parse of `pd.to_numeric(..., errors='coerce')`,
   * restricted to unsigned integers: a non-empty string of digits denotes its
   * number, anything else is unparsable.
   */
  function ParseNumber(s: string): Option<nat>
  {
    if |s| > 0 && AllDigits(s) then Some(NumeralValue(s)) else None
  }

  lemma ParseShowNat(n: nat)
    ensures ParseNumber(ShowNat(n)) == Some(n)
  {
    NumeralOfShowNat(n);
  }

  // ---------------------------------------------------------------------------
  // numbers written with thousands separators, as the site prints earnings

  /** The three-digit, zero-padded numeral of `k`. */
  function Pad3(k: nat): (s: string)
    requires k < 1000
    ensures |s| == 3 && AllDigits(s)
  {
    [DigitChar(k / 100), DigitChar(k / 10 % 10), DigitChar(k % 10)]
  }

  lemma Pad3Value(k: nat)
    requires k < 1000
    ensures NumeralValue(Pad3(k)) == k
  {
    var s := Pad3(k);
    assert s[..|s| - 1] == s[..2];
    assert s[..2][..1] == s[..1];
    assert s[..1][..0] == [];
    assert NumeralValue(s[..1]) == k / 100;
    assert NumeralValue(s[..2]) == 10 * (k / 100) + k / 10 % 10;
    assert k / 10 == 10 * (k / 100) + k / 10 % 10;
    assert k == 10 * (k / 10) + k % 10;
  }

  /** `n` written with a `,` between each group of three digits, as in "1,234,567". */
  function WithThousands(n: nat): string
  {
    if n < 1000 then ShowNat(n) else WithThousands(n / 1000) + "," + Pad3(n % 1000)
  }

  /** Deleting the separators from `WithThousands(n)` leaves the numeral of `n`. */
  lemma {:induction false} WithoutSeparatorsValue(n: nat)
    ensures |Without(WithThousands(n), ',')| > 0
    ensures AllDigits(Without(WithThousands(n), ','))
    ensures NumeralValue(Without(WithThousands(n), ',')) == n
  {
    if n < 1000 {
      WithoutNonMember(ShowNat(n), ',');
      NumeralOfShowNat(n);
    } else {
      var hi := Without(WithThousands(n / 1000), ',');
      var lo := Pad3(n % 1000);
      WithoutSeparatorsValue(n / 1000);
      WithoutGroup(WithThousands(n / 1000), lo);
      assert Without(WithThousands(n), ',') == hi + lo;
      NumeralConcat(hi, lo);
      Pad3Value(n % 1000);
      assert Pow10(3) == 1000;
      assert NumeralValue(hi + lo) == (n / 1000) * 1000 + n % 1000;
    }
  }

  lemma WithoutGroup(front: string, group: string)
    requires AllDigits(group)
    ensures Without(front + "," + group, ',') == Without(front, ',') + group
  {
    assert front + "," + group == front + ([','] + group);
    WithoutConcat(front, [','] + group, ',');
    WithoutLeadingSeparator(group);
  }

  lemma WithoutLeadingSeparator(group: string)
    requires AllDigits(group)
    ensures Without([','] + group, ',') == group
  {
    assert ([','] + group)[1..] == group;
    WithoutNonMember(group, ',');
  }

  lemma {:induction false} WithoutNonMember(s: string, c: char)
    requires AllDigits(s) && !IsDigit(c)
    ensures Without(s, c) == s
  {
    if s != [] {
      WithoutNonMember(s[1..], c);
      assert [s[0]] + s[1..] == s;
    }
  }
}
