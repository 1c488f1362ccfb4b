/** The IBAN check (crates/sv-patterns/src/validators.rs; ISO 13616-1, with the
MOD 97-10 system of ISO 7064). */
module Iban {
  import opened Checksums

  // ---- the compact form ----------------------------------------------------------------

  predicate IsUpper(c: char) {
    'A' <= c <= 'Z'
  }

  function Upper(c: char): char {
    if 'a' <= c <= 'z' then ((c as int - 'a' as int) + 'A' as int) as char else c
  }

  /** Without spaces and hyphens, in upper case. */
  function Compact(s: string): string {
    if s == [] then []
    else
      var init, c := Compact(s[..|s| - 1]), s[|s| - 1];
      if IsSeparator(c) then init else init + [Upper(c)]
  }

  predicate IsAlphanumeric(s: string) {
    forall i :: 0 <= i < |s| ==> IsDigit(s[i]) || IsUpper(s[i])
  }

  predicate HasIbanShape(t: string) {
    && 15 <= |t| <= 34
    && IsUpper(t[0]) && IsUpper(t[1]) && IsDigit(t[2]) && IsDigit(t[3])
    && IsAlphanumeric(t)
  }

  function Rearranged(t: string): string
    requires |t| >= 4
  {
    t[4..] + t[..4]
  }

  // ---- the number it stands for -----------------------------------------------------------

  function ValueOf(c: char): nat
    requires IsDigit(c) || IsUpper(c)
  {
    if IsDigit(c) then c as int - '0' as int else c as int - 'A' as int + 10
  }

  /** The decimal digits of one character: one for a digit, two for a letter. */
  function DigitsOf(c: char): seq<Digit>
    requires IsDigit(c) || IsUpper(c)
  {
    if IsDigit(c) then [ValueOf(c)] else [ValueOf(c) / 10, ValueOf(c) % 10]
  }

  function Expand(u: string): seq<Digit>
    requires IsAlphanumeric(u)
  {
    if u == [] then [] else Expand(u[..|u| - 1]) + DigitsOf(u[|u| - 1])
  }

  /** A decimal numeral read from the left. */
  function Decimal(ds: seq<Digit>): nat {
    if ds == [] then 0 else 10 * Decimal(ds[..|ds| - 1]) + ds[|ds| - 1]
  }

  function NumberOf(u: string): nat
    requires IsAlphanumeric(u)
  {
    Decimal(Expand(u))
  }

  ghost predicate IsIban(candidate: string) {
    var t := Compact(candidate);
    HasIbanShape(t) && NumberOf(Rearranged(t)) % 97 == 1
  }

  // ---- streaming ----------------------------------------------------------------------------

  lemma StreamStep(n: nat, d: Digit)
    ensures (10 * (n % 97) + d) % 97 == (10 * n + d) % 97
  {
    var q := n / 97;
    assert 10 * n + d == 97 * (10 * q) + (10 * (n % 97) + d);
  }

  /** Feed digits to the running remainder; `ds` is what it has seen. */
  method Feed(remainder: nat, digits: seq<Digit>, ghost ds: seq<Digit>) returns (r: nat)
    requires remainder == Decimal(ds) % 97
    ensures r == Decimal(ds + digits) % 97
  {
    r := remainder;
    assert ds + digits[..0] == ds;
    for i := 0 to |digits|
      invariant r == Decimal(ds + digits[..i]) % 97
    {
      ghost var sofar := ds + digits[..i];
      assert ds + digits[..i + 1] == sofar + [digits[i]];
      DecimalAppend(sofar, digits[i]);
      StreamStep(Decimal(sofar), digits[i]);
      r := (10 * r + digits[i]) % 97;
    }
    assert digits[..|digits|] == digits;
  }

  method ValidateIban(candidate: string) returns (ok: bool)
    ensures ok <==> IsIban(candidate)
  {
    var t := Compact(candidate);
    if !HasIbanShape(t) {
      return false;
    }
    var u := Rearranged(t);
    var remainder := 0;
    for i := 0 to |u|
      invariant remainder == NumberOf(u[..i]) % 97
    {
      assert u[..i + 1][..i] == u[..i];
      remainder := Feed(remainder, DigitsOf(u[i]), Expand(u[..i]));
    }
    assert u[..|u|] == u;
    return remainder == 1;
  }

  // ---- what it detects ------------------------------------------------------------------------

  lemma DecimalAppend(ds: seq<Digit>, d: Digit)
    ensures Decimal(ds + [d]) == 10 * Decimal(ds) + d
  {
    assert (ds + [d])[..|ds|] == ds;
  }

  /** The number after one more character. */
  function Shifted(n: int, c: char): int {
    if IsDigit(c) then 10 * n + (c as int - '0' as int) else 100 * n + (c as int - 'A' as int + 10)
  }

  function Fold(shift: (int, char) -> int, u: string): int {
    if u == [] then 0 else shift(Fold(shift, u[..|u| - 1]), u[|u| - 1])
  }

  lemma {:induction false} NumberIsFold(u: string)
    requires IsAlphanumeric(u)
    ensures NumberOf(u) == Fold(Shifted, u)
  {
    if u != [] {
      NumberIsFold(u[..|u| - 1]);
      ExpandStep(Expand(u[..|u| - 1]), u[|u| - 1]);
    }
  }

  lemma ExpandStep(ds: seq<Digit>, c: char)
    requires IsDigit(c) || IsUpper(c)
    ensures Decimal(ds + DigitsOf(c)) == Shifted(Decimal(ds), c)
  {
    if IsDigit(c) {
      DecimalAppend(ds, ValueOf(c));
    } else {
      var q, r := ValueOf(c) / 10, ValueOf(c) % 10;
      DecimalAppend(ds, q);
      DecimalAppend(ds + [q], r);
      assert ds + DigitsOf(c) == (ds + [q]) + [r];
    }
  }

  /** Ten is invertible modulo 97, so a difference is never multiplied away. */
  lemma TenIsInvertible(n: int)
    requires n % 97 != 0
    ensures (10 * n) % 97 != 0 && (100 * n) % 97 != 0
  {
    TenCancels(n);
    TenCancels(10 * n);
  }

  lemma TenCancels(n: int)
    ensures (10 * n) % 97 == 0 ==> n % 97 == 0
  {
    if (10 * n) % 97 == 0 {
      var q := 10 * n / 97;
      assert 10 * n == 97 * q;
      assert n == 680 * n - 679 * n == 97 * (68 * q - 7 * n);
    }
  }

  /** Both digits, or both letters. */
  predicate SameKind(c: char, d: char) {
    (IsDigit(c) && IsDigit(d)) || (IsUpper(c) && IsUpper(d))
  }

  /** Different modulo 97. */
  predicate Apart(m: int, n: int) {
    (m - n) % 97 != 0
  }

  ghost predicate KeepsApart(shift: (int, char) -> int, apart: (int, int) -> bool) {
    forall m: int, n: int, c: char :: apart(m, n) ==> apart(shift(m, c), shift(n, c))
  }

  lemma ShiftKeepsApart()
    ensures KeepsApart(Shifted, Apart)
  {
    forall m: int, n: int, c: char | Apart(m, n) ensures Apart(Shifted(m, c), Shifted(n, c)) {
      TenIsInvertible(m - n);
      assert 10 * m - 10 * n == 10 * (m - n) && 100 * m - 100 * n == 100 * (m - n);
    }
  }

  /** The same characters after a difference keep it. */
  lemma {:induction false} DifferenceStays(shift: (int, char) -> int, apart: (int, int) -> bool, u: string, v: string,
                                           w: string)
    requires KeepsApart(shift, apart) && apart(Fold(shift, u), Fold(shift, v))
    ensures apart(Fold(shift, u + w), Fold(shift, v + w))
    decreases |w|
  {
    if w == [] {
      assert u + w == u && v + w == v;
    } else {
      var init := w[..|w| - 1];
      assert (u + w)[..|u + w| - 1] == u + init && (v + w)[..|v + w| - 1] == v + init;
      DifferenceStays(shift, apart, u, v, init);
    }
  }

  /** Two characters of one kind after the same number differ by less than 97. */
  lemma SubstitutionDiffers(n: int, c: char, d: char)
    requires SameKind(c, d) && c != d
    ensures Apart(Shifted(n, c), Shifted(n, d))
  {
    assert Shifted(n, c) - Shifted(n, d) == c as int - d as int;
  }

  lemma SwapDiffers(n: int, c: char, d: char)
    requires IsDigit(c) && IsDigit(d) && c != d
    ensures Apart(Shifted(Shifted(n, c), d), Shifted(Shifted(n, d), c))
  {
    assert Shifted(Shifted(n, c), d) - Shifted(Shifted(n, d), c) == 9 * (c as int - d as int);
  }

  lemma FoldOne(shift: (int, char) -> int, u: string, c: char)
    ensures Fold(shift, u + [c]) == shift(Fold(shift, u), c)
  {
    assert (u + [c])[..|u|] == u;
  }

  lemma ApartRemainders(m: int, n: int)
    ensures m % 97 == n % 97 ==> !Apart(m, n)
  {
    if m % 97 == n % 97 {
      assert m - n == 97 * (m / 97 - n / 97);
    }
  }

  lemma NumberSubstitution(u: string, k: nat, c: char)
    requires IsAlphanumeric(u) && k < |u| && SameKind(u[k], c) && u[k] != c
    ensures IsAlphanumeric(u[k := c]) && NumberOf(u[k := c]) % 97 != NumberOf(u) % 97
  {
    var p, w := u[..k], u[k + 1..];
    assert u == (p + [u[k]]) + w && u[k := c] == (p + [c]) + w;
    FoldOne(Shifted, p, u[k]);
    FoldOne(Shifted, p, c);
    SubstitutionDiffers(Fold(Shifted, p), u[k], c);
    ShiftKeepsApart();
    DifferenceStays(Shifted, Apart, p + [u[k]], p + [c], w);
    NumberIsFold(u);
    NumberIsFold(u[k := c]);
    ApartRemainders(Fold(Shifted, u), Fold(Shifted, u[k := c]));
  }

  lemma NumberSwap(u: string, k: nat)
    requires IsAlphanumeric(u) && k + 1 < |u| && IsDigit(u[k]) && IsDigit(u[k + 1]) && u[k] != u[k + 1]
    ensures
      var v := Swapped(u, k, k + 1);
      IsAlphanumeric(v) && NumberOf(v) % 97 != NumberOf(u) % 97
  {
    var v, p, w, c, d := Swapped(u, k, k + 1), u[..k], u[k + 2..], u[k], u[k + 1];
    assert u == ((p + [c]) + [d]) + w && v == ((p + [d]) + [c]) + w;
    FoldTwo(Shifted, p, c, d);
    FoldTwo(Shifted, p, d, c);
    SwapDiffers(Fold(Shifted, p), c, d);
    ShiftKeepsApart();
    DifferenceStays(Shifted, Apart, (p + [c]) + [d], (p + [d]) + [c], w);
    NumberIsFold(u);
    NumberIsFold(v);
    ApartRemainders(Fold(Shifted, u), Fold(Shifted, v));
  }

  lemma FoldTwo(shift: (int, char) -> int, u: string, c: char, d: char)
    ensures Fold(shift, (u + [c]) + [d]) == shift(shift(Fold(shift, u), c), d)
  {
    FoldOne(shift, u, c);
    FoldOne(shift, u + [c], d);
  }

  // ---- which check digits it takes --------------------------------------------------------------

  lemma ShiftTwo(u: string, c: char, d: char)
    requires IsAlphanumeric(u) && IsDigit(c) && IsDigit(d)
    ensures IsAlphanumeric(u + [c, d])
    ensures NumberOf(u + [c, d]) == 100 * NumberOf(u) + 10 * ValueOf(c) + ValueOf(d)
  {
    assert u + [c, d] == (u + [c]) + [d];
    FoldTwo(Shifted, u, c, d);
    NumberIsFold(u);
    NumberIsFold(u + [c, d]);
  }

  lemma LeavesOne(n: nat, k: nat)
    ensures (n + k) % 97 == 1 <==> k % 97 == (98 - n % 97) % 97
  {
    var q, r, p, s := n / 97, n % 97, k / 97, k % 97;
    assert n + k == 97 * (q + p) + (r + s);
    assert (n + k) % 97 == (r + s) % 97;
  }

  /** The check digits of an account are determined modulo 97: what is left of 98 when the
  country code is moved behind the account number, expanded, and followed by two zeros. */
  lemma IbanCheckDigits(s: string)
    requires HasIbanShape(Compact(s))
    ensures
      var t := Compact(s);
      && IsAlphanumeric(t[4..] + t[..2])
      && (IsIban(s) <==>
            (10 * ValueOf(t[2]) + ValueOf(t[3])) % 97 == (98 - (100 * NumberOf(t[4..] + t[..2])) % 97) % 97)
  {
    var t := Compact(s);
    var u := t[4..] + t[..2];
    assert Rearranged(t) == u + [t[2], t[3]];
    ShiftTwo(u, t[2], t[3]);
    LeavesOne(100 * NumberOf(u), 10 * ValueOf(t[2]) + ValueOf(t[3]));
  }

  lemma ShiftLetter(u: string, c: char)
    requires IsAlphanumeric(u) && IsUpper(c)
    ensures IsAlphanumeric(u + [c]) && NumberOf(u + [c]) == 100 * NumberOf(u) + ValueOf(c)
  {
    FoldOne(Shifted, u, c);
    NumberIsFold(u);
    NumberIsFold(u + [c]);
  }

  lemma {:induction false} CompactIsItself(s: string)
    requires IsAlphanumeric(s)
    ensures Compact(s) == s
  {
    if s != [] { CompactIsItself(s[..|s| - 1]); }
  }

  lemma ShiftFour(u: string, a: char, b: char, c: char, d: char)
    requires IsAlphanumeric(u) && IsDigit(a) && IsDigit(b) && IsDigit(c) && IsDigit(d)
    ensures IsAlphanumeric(u + [a, b, c, d])
    ensures NumberOf(u + [a, b, c, d])
            == 10000 * NumberOf(u) + 1000 * ValueOf(a) + 100 * ValueOf(b) + 10 * ValueOf(c) + ValueOf(d)
  {
    ShiftTwo(u, a, b);
    ShiftTwo(u + [a, b], c, d);
    assert u + [a, b, c, d] == (u + [a, b]) + [c, d];
  }

  lemma FirstDigits(u: string)
    requires u == "37040044"
    ensures IsAlphanumeric(u) && NumberOf(u) == 37040044
  {
    ShiftFour("", '3', '7', '0', '4');
    ShiftFour("" + ['3', '7', '0', '4'], '0', '0', '4', '4');
    assert u == "" + ['3', '7', '0', '4'] + ['0', '0', '4', '4'];
  }

  lemma LastDigits(u: string, v: string)
    requires IsAlphanumeric(u) && v == u + "0532013000"
    ensures IsAlphanumeric(v) && NumberOf(v) == 10000000000 * NumberOf(u) + 532013000
  {
    ShiftFour(u, '0', '5', '3', '2');
    ShiftFour(u + ['0', '5', '3', '2'], '0', '1', '3', '0');
    ShiftTwo(u + ['0', '5', '3', '2'] + ['0', '1', '3', '0'], '0', '0');
    assert v == u + ['0', '5', '3', '2'] + ['0', '1', '3', '0'] + ['0', '0'];
  }

  lemma CountryLetters(v: string)
    requires IsAlphanumeric(v)
    ensures IsAlphanumeric(v + "DE") && NumberOf(v + "DE") == 10000 * NumberOf(v) + 1314
  {
    ShiftLetter(v, 'D');
    ShiftLetter(v + ['D'], 'E');
    assert v + "DE" == v + ['D'] + ['E'];
  }

  lemma AccountNumber(v: string)
    requires v == "370400440532013000"
    ensures IsAlphanumeric(v + "DE") && NumberOf(v + "DE") == 3704004405320130001314
  {
    FirstDigits(v[..8]);
    LastDigits(v[..8], v);
    CountryLetters(v);
  }

  /** An account of which the source's own tests give the check digits: no other two digits
  are accepted. */
  lemma IbanExample(t: string)
    requires |t| == 22 && t[..2] == "DE" && IsDigit(t[2]) && IsDigit(t[3]) && t[4..] == "370400440532013000"
    ensures IsIban(t) <==> t[2] == '8' && t[3] == '9'
  {
    AccountNumber(t[4..]);
    ExampleShape(t);
    IbanCheckDigits(t);
    assert (100 * NumberOf(t[4..] + t[..2])) % 97 == 9;
  }

  lemma ExampleShape(t: string)
    requires |t| == 22 && t[..2] == "DE" && IsDigit(t[2]) && IsDigit(t[3]) && IsAlphanumeric(t[4..] + t[..2])
    ensures Compact(t) == t && HasIbanShape(t)
  {
    var u := t[4..] + t[..2];
    forall i | 0 <= i < |t| ensures IsDigit(t[i]) || IsUpper(t[i]) {
      if i >= 4 { assert t[i] == u[i - 4]; } else if i < 2 { assert t[i] == u[18 + i]; }
    }
    CompactIsItself(t);
    assert t[0] == t[..2][0] && t[1] == t[..2][1];
  }

  // ---- from the compact form to the candidate -------------------------------------------------

  /** How many characters of the compact form come before position `i`. */
  ghost function KeptBefore(s: string, i: nat): nat
    requires i <= |s|
  {
    |Compact(s[..i])|
  }

  lemma {:induction false} CompactUpdate(s: string, i: nat, c: char)
    requires i < |s| && !IsSeparator(s[i]) && !IsSeparator(c)
    ensures KeptBefore(s, i) < |Compact(s)| && Compact(s)[KeptBefore(s, i)] == Upper(s[i])
    ensures Compact(s[i := c]) == Compact(s)[KeptBefore(s, i) := Upper(c)]
    decreases |s|
  {
    var n := |s| - 1;
    if i == n {
      assert s[i := c][..n] == s[..n];
    } else {
      assert s[i := c][..n] == s[..n][i := c];
      assert s[..n][..i] == s[..i];
      CompactUpdate(s[..n], i, c);
      var init, k := Compact(s[..n]), KeptBefore(s, i);
      assert (init + [Upper(s[n])])[k := Upper(c)] == init[k := Upper(c)] + [Upper(s[n])];
    }
  }

  lemma RearrangedUpdate(t: string, k: nat, c: char) returns (p: nat)
    requires |t| >= 4 && k < |t|
    ensures p < |t| && Rearranged(t)[p] == t[k] && Rearranged(t[k := c]) == Rearranged(t)[p := c]
    ensures k >= 4 ==> p == k - 4
  {
    p := if k >= 4 then k - 4 else |t| - 4 + k;
    assert Rearranged(t[k := c]) == Rearranged(t)[p := c];
  }

  /** Replacing a digit by another digit, or a letter by another letter, makes an
  accepted IBAN rejected. */
  lemma IbanDetectsSubstitution(s: string, i: nat, c: char)
    requires IsIban(s) && i < |s| && SameKind(Upper(s[i]), Upper(c)) && Upper(s[i]) != Upper(c)
    ensures !IsIban(s[i := c])
  {
    CompactUpdate(s, i, c);
    var t, k := Compact(s), KeptBefore(s, i);
    var p := RearrangedUpdate(t, k, Upper(c));
    NumberSubstitution(Rearranged(t), p, Upper(c));
  }

  lemma {:induction false} KeptAcross(s: string, i: nat, j: nat)
    requires i < j <= |s| && !IsSeparator(s[i])
    requires forall k :: i < k < j ==> IsSeparator(s[k])
    ensures KeptBefore(s, j) == KeptBefore(s, i) + 1
    decreases j
  {
    assert s[..j][..j - 1] == s[..j - 1];
    if j > i + 1 {
      KeptAcross(s, i, j - 1);
    }
  }

  /** Swapping two neighbouring distinct digits after the first four characters
  makes an accepted IBAN rejected. */
  lemma IbanDetectsSwap(s: string, i: nat, j: nat)
    requires IsIban(s) && NextDigit(s, i, j) && s[i] != s[j] && KeptBefore(s, i) >= 4
    ensures !IsIban(Swapped(s, i, j))
  {
    var t, k := Compact(s), KeptBefore(s, i);
    CompactSwap(s, i, j);
    RearrangedSwap(t, k);
    NumberSwap(Rearranged(t), k - 4);
  }

  lemma CompactSwap(s: string, i: nat, j: nat)
    requires NextDigit(s, i, j)
    ensures
      var t, k := Compact(s), KeptBefore(s, i);
      && k + 1 < |t| && t[k] == s[i] && t[k + 1] == s[j]
      && Compact(Swapped(s, i, j)) == Swapped(t, k, k + 1)
  {
    var r, k := s[i := s[j]], KeptBefore(s, i);
    CompactUpdate(s, i, s[j]);
    KeptAcross(s, i, j);
    CompactUpdate(s, j, s[j]);
    assert KeptBefore(r, j) == k + 1 by {
      assert r[..i] == s[..i];
      KeptAcross(r, i, j);
    }
    CompactUpdate(r, j, s[i]);
  }

  lemma RearrangedSwap(t: string, k: nat)
    requires 4 <= k && k + 1 < |t|
    ensures Rearranged(Swapped(t, k, k + 1)) == Swapped(Rearranged(t), k - 4, k - 3)
    ensures Rearranged(t)[k - 4] == t[k] && Rearranged(t)[k - 3] == t[k + 1]
  {
    var p := RearrangedUpdate(t, k, t[k + 1]);
    var q := RearrangedUpdate(t[k := t[k + 1]], k + 1, t[k]);
  }
}
