/** Character-level helpers shared by the rest of the model: ASCII case folding
    (the source's `toLowerCase()` comparisons), the decimal rendering of ledger
    integers (`BigInt.prototype.toString()`), and the first-match search that
    `Array.prototype.find` performs on names. */
module Text {
  import opened Wrappers

  /** `toLowerCase` on one character, restricted to the ASCII letters. */
  function LowerChar(c: char): (r: char)
    ensures 'A' <= c <= 'Z' ==> 'a' <= r <= 'z' && r as int == c as int + 32
    ensures !('A' <= c <= 'Z') ==> r == c
  {
    if 'A' <= c <= 'Z' then (c as int + 32) as char else c
  }

  /** `toLowerCase` on a string: the same length, each ASCII capital replaced
      by its small letter, and no ASCII capital left. */
  function Lower(s: string): (r: string)
    ensures |r| == |s|
    ensures forall i :: 0 <= i < |s| ==> r[i] == LowerChar(s[i])
    ensures forall i :: 0 <= i < |r| ==> !('A' <= r[i] <= 'Z')
  {
    seq(|s|, i requires 0 <= i < |s| => LowerChar(s[i]))
  }

  /** Lower-casing twice is lower-casing once. */
  lemma LowerIdempotent(s: string)
    ensures Lower(Lower(s)) == Lower(s)
  {
    var l := Lower(s);
    forall i | 0 <= i < |l| ensures LowerChar(l[i]) == l[i] {
      assert !('A' <= l[i] <= 'Z');
    }
  }

  /** `String.prototype.length`: the number of UTF-16 code units, two for a
      character outside the Basic Multilingual Plane. */
  function Utf16Length(s: string): (n: nat)
    ensures |s| <= n <= 2 * |s|
    ensures n == 0 <==> s == []
    decreases |s|
  {
    if s == [] then 0 else (if s[0] as int > 0xFFFF then 2 else 1) + Utf16Length(s[1..])
  }

  /** A string of Basic Multilingual Plane characters has one code unit per character. */
  lemma {:induction false} Utf16LengthOfBmp(s: string)
    requires forall i :: 0 <= i < |s| ==> s[i] as int <= 0xFFFF
    ensures Utf16Length(s) == |s|
    decreases |s|
  {
    if s != [] {
      Utf16LengthOfBmp(s[1..]);
    }
  }

  /** `a.toLowerCase() === b.toLowerCase()`. */
  predicate SameIgnoringCase(a: string, b: string)
  {
    Lower(a) == Lower(b)
  }

  /** A name that `toLowerCase()`s to `word`. */
  predicate Names(name: string, word: string)
  {
    Lower(name) == word
  }

  lemma {:induction false} SameIgnoringCaseIsEquivalence(a: string, b: string, c: string)
    ensures SameIgnoringCase(a, a)
    ensures SameIgnoringCase(a, b) ==> SameIgnoringCase(b, a)
    ensures SameIgnoringCase(a, b) && SameIgnoringCase(b, c) ==> SameIgnoringCase(a, c)
  {
  }

  /** The ASCII spellings that `Names(_, "yes")` accepts are exactly the case variants of "yes". */
  lemma {:induction false} NamesYesIffCaseVariant(name: string)
    ensures Names(name, "yes") <==>
      |name| == 3 && name[0] in "yY" && name[1] in "eE" && name[2] in "sS"
  {
    if Names(name, "yes") {
      assert |name| == 3;
      assert LowerChar(name[0]) == 'y' && LowerChar(name[1]) == 'e' && LowerChar(name[2]) == 's';
    }
    if |name| == 3 && name[0] in "yY" && name[1] in "eE" && name[2] in "sS" {
      assert Lower(name) == "yes";
    }
  }

  /** No name is read both as "yes" and as "no". */
  lemma YesIsNotNo(name: string)
    ensures !(Names(name, "yes") && Names(name, "no"))
  {
  }

  // ----- decimal rendering of unsigned ledger integers -----

  function DigitChar(d: nat): (c: char)
    requires d < 10
    ensures '0' <= c <= '9'
  {
    ('0' as int + d) as char
  }

  predicate AllDigits(s: string)
  {
    forall i :: 0 <= i < |s| ==> '0' <= s[i] <= '9'
  }

  /** `n.toString()` for a non-negative BigInt: the shortest base-ten numeral. */
  function Decimal(n: nat): (s: string)
    ensures |s| >= 1 && AllDigits(s)
    ensures s[0] == '0' ==> n == 0 && s == "0"
    decreases n
  {
    if n < 10 then [DigitChar(n)] else Decimal(n / 10) + [DigitChar(n % 10)]
  }

  /** Reads a base-ten numeral; the inverse of `Decimal`. */
  function ParseDecimal(s: string): nat
    requires AllDigits(s)
  {
    if s == [] then 0
    else ParseDecimal(s[..|s| - 1]) * 10 + (s[|s| - 1] as int - '0' as int)
  }

  lemma {:induction false} ParseDecimalOfDecimal(n: nat)
    ensures ParseDecimal(Decimal(n)) == n
    decreases n
  {
    if n >= 10 {
      var s := Decimal(n);
      assert s[..|s| - 1] == Decimal(n / 10);
      ParseDecimalOfDecimal(n / 10);
    }
  }

  /** Distinct ledger integers are rendered as distinct identifiers. */
  lemma DecimalInjective(m: nat, n: nat)
    ensures Decimal(m) == Decimal(n) ==> m == n
  {
    ParseDecimalOfDecimal(m);
    ParseDecimalOfDecimal(n);
  }

  // ----- first match, as Array.prototype.find -----

  /** The index of the first name that lower-cases to `word`, if any. */
  function FirstNamed(names: seq<string>, word: string): (r: Option<nat>)
    ensures r.Some? ==> r.value < |names| && Names(names[r.value], word)
    ensures r.Some? ==> forall j :: 0 <= j < r.value ==> !Names(names[j], word)
    ensures r.None? <==> forall j :: 0 <= j < |names| ==> !Names(names[j], word)
  {
    if names == [] then None
    else if Names(names[0], word) then Some(0)
    else match FirstNamed(names[1..], word)
      case None => None
      case Some(k) => Some(k + 1)
  }
}
