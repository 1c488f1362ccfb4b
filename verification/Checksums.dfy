/** Digit strings with separators, and the Luhn and Verhoeff checksums
(crates/sv-patterns/src/validators.rs). */
module Checksums {
  import opened Crypto

  type Digit = n: int | 0 <= n < 10 witness 0

  // ---- separators --------------------------------------------------------------------

  predicate IsDigit(c: char) {
    '0' <= c <= '9'
  }

  function DigitOf(c: char): Digit
    requires IsDigit(c)
  {
    c as int - '0' as int
  }

  predicate IsSeparator(c: char) {
    c == ' ' || c == '-'
  }

  /** The digits of `s`, or nothing if it holds anything but digits and
  separators. */
  function Strip(s: string): Option<seq<Digit>> {
    if s == [] then Some([])
    else
      var init, c := Strip(s[..|s| - 1]), s[|s| - 1];
      if init.None? then None
      else if IsDigit(c) then Some(init.value + [DigitOf(c)])
      else if IsSeparator(c) then init
      else None
  }

  method DigitsOnly(candidate: string) returns (r: Option<seq<Digit>>)
    ensures r == Strip(candidate)
  {
    var out: seq<Digit> := [];
    for i := 0 to |candidate|
      invariant Strip(candidate[..i]) == Some(out)
    {
      assert candidate[..i + 1][..i] == candidate[..i];
      if IsDigit(candidate[i]) {
        out := out + [DigitOf(candidate[i])];
      } else if !IsSeparator(candidate[i]) {
        StripFails(candidate, i + 1);
        return None;
      }
    }
    assert candidate[..|candidate|] == candidate;
    return Some(out);
  }

  lemma {:induction false} StripFails(s: string, i: nat)
    requires i <= |s| && Strip(s[..i]).None?
    ensures Strip(s).None?
    decreases |s|
  {
    if i == |s| {
      assert s[..i] == s;
    } else {
      assert s[..|s| - 1][..i] == s[..i];
      StripFails(s[..|s| - 1], i);
    }
  }

  /** The digits of `s` from the left. */
  function DigitsIn(s: string): seq<Digit> {
    if s == [] then []
    else if '0' <= s[0] <= '9' then [s[0] as int - '0' as int] + DigitsIn(s[1..])
    else DigitsIn(s[1..])
  }

  lemma {:induction false} DigitsInAppend(s: string, c: char)
    ensures DigitsIn(s + [c]) == DigitsIn(s) + if '0' <= c <= '9' then [c as int - '0' as int] else []
    decreases |s|
  {
    if s == [] {
      assert [c][1..] == [];
    } else {
      assert (s + [c])[1..] == s[1..] + [c];
      DigitsInAppend(s[1..], c);
    }
  }

  /** Digits, spaces and hyphens are accepted and nothing else, and the digits are kept in
  their order. */
  lemma {:induction false} StripMeans(s: string)
    ensures Strip(s).Some? <==> forall i :: 0 <= i < |s| ==> '0' <= s[i] <= '9' || s[i] == ' ' || s[i] == '-'
    ensures Strip(s).Some? ==> Strip(s).value == DigitsIn(s)
    decreases |s|
  {
    if s != [] {
      var n := |s| - 1;
      StripMeans(s[..n]);
      DigitsInAppend(s[..n], s[n]);
      assert s == s[..n] + [s[n]];
    }
  }

  lemma StripAppend(s: string, c: char)
    requires Strip(s).Some? && IsDigit(c)
    ensures Strip(s + [c]) == Some(Strip(s).value + [DigitOf(c)])
  {
    assert (s + [c])[..|s|] == s;
  }

  /** How many digits come before position `i`. */
  ghost function DigitsBefore(s: string, i: nat): nat
    requires i <= |s|
  {
    if Strip(s[..i]).Some? then |Strip(s[..i]).value| else 0
  }

  /** Replacing a digit character replaces one digit. */
  lemma {:induction false} StripUpdate(s: string, i: nat, c: char)
    requires i < |s| && IsDigit(s[i]) && IsDigit(c) && Strip(s).Some?
    ensures DigitsBefore(s, i) < |Strip(s).value| && Strip(s).value[DigitsBefore(s, i)] == DigitOf(s[i])
    ensures Strip(s[i := c]) == Some(Strip(s).value[DigitsBefore(s, i) := DigitOf(c)])
    decreases |s|
  {
    var n := |s| - 1;
    if i == n {
      assert s[i := c][..n] == s[..n];
      var init := Strip(s[..n]).value;
      assert (init + [DigitOf(s[n])])[|init| := DigitOf(c)] == init + [DigitOf(c)];
    } else {
      assert s[i := c][..n] == s[..n][i := c];
      assert s[..n][..i] == s[..i];
      StripUpdate(s[..n], i, c);
      if IsDigit(s[n]) {
        var init, k := Strip(s[..n]).value, DigitsBefore(s, i);
        assert (init + [DigitOf(s[n])])[k := DigitOf(c)] == init[k := DigitOf(c)] + [DigitOf(s[n])];
      }
    }
  }

  ghost predicate NextDigit(s: string, i: nat, j: nat) {
    && i < j < |s| && IsDigit(s[i]) && IsDigit(s[j])
    && forall k :: i < k < j ==> IsSeparator(s[k])
  }

  lemma {:induction false} BeforeNextDigit(s: string, i: nat, j: nat)
    requires i < j <= |s| && IsDigit(s[i]) && Strip(s).Some?
    requires forall k :: i < k < j ==> IsSeparator(s[k])
    ensures Strip(s[..j]).Some? && DigitsBefore(s, j) == DigitsBefore(s, i) + 1
    decreases j
  {
    if Strip(s[..j]).None? { StripFails(s, j); }
    assert s[..j][..j - 1] == s[..j - 1];
    if j > i + 1 {
      BeforeNextDigit(s, i, j - 1);
    }
  }

  function Swapped<T>(s: seq<T>, i: nat, j: nat): seq<T>
    requires i < |s| && j < |s|
  {
    s[i := s[j]][j := s[i]]
  }

  /** Swapping two digit characters with nothing but separators between them
  swaps two neighbouring digits. */
  lemma StripSwap(s: string, i: nat, j: nat)
    requires NextDigit(s, i, j) && Strip(s).Some?
    ensures
      var k, ds := DigitsBefore(s, i), Strip(s).value;
      && k + 1 < |ds| && ds[k] == DigitOf(s[i]) && ds[k + 1] == DigitOf(s[j])
      && Strip(Swapped(s, i, j)) == Some(Swapped(ds, k, k + 1))
  {
    var t, k := s[i := s[j]], DigitsBefore(s, i);
    StripUpdate(s, i, s[j]);
    BeforeNextDigit(s, i, j);
    StripUpdate(s, j, s[j]);
    assert DigitsBefore(t, j) == k + 1 by {
      assert t[..i] == s[..i];
      BeforeNextDigit(t, i, j);
    }
    StripUpdate(t, j, s[i]);
  }

  // ---- Luhn ------------------------------------------------------------------------------

  function Doubled(d: Digit): Digit {
    if 2 * d > 9 then 2 * d - 9 else 2 * d
  }

  /** What the digit at `place` from the right adds. */
  function LuhnTerm(place: nat, d: Digit): Digit {
    if place % 2 == 1 then Doubled(d) else d
  }

  /** The sum over the last `n` digits. */
  function LuhnSum(ds: seq<Digit>, n: nat): nat
    requires n <= |ds|
  {
    if n == 0 then 0 else LuhnSum(ds, n - 1) + LuhnTerm(n - 1, ds[|ds| - n])
  }

  predicate LuhnHolds(ds: seq<Digit>) {
    |ds| >= 2 && LuhnSum(ds, |ds|) % 10 == 0
  }

  ghost predicate IsLuhn(candidate: string) {
    Strip(candidate).Some? && LuhnHolds(Strip(candidate).value)
  }

  method ValidateLuhn(candidate: string) returns (ok: bool)
    ensures ok <==> IsLuhn(candidate)
  {
    var digits := DigitsOnly(candidate);
    if digits.None? || |digits.value| < 2 {
      return false;
    }
    var ds := digits.value;
    var total, double := 0, false;
    for n := 0 to |ds|
      invariant total == LuhnSum(ds, n) && double == (n % 2 == 1)
    {
      var v: int := ds[|ds| - 1 - n];
      if double {
        v := v * 2;
        if v > 9 {
          v := v - 9;
        }
      }
      total := total + v;
      double := !double;
    }
    return total % 10 == 0;
  }

  lemma {:induction false} LuhnUpdate(ds: seq<Digit>, k: nat, d: Digit, n: nat)
    requires k < |ds| && n <= |ds|
    ensures
      var place := |ds| - 1 - k;
      LuhnSum(ds[k := d], n) - LuhnSum(ds, n) == if place < n then LuhnTerm(place, d) - LuhnTerm(place, ds[k]) else 0
  {
    if n > 0 {
      LuhnUpdate(ds, k, d, n - 1);
    }
  }

  /** Replacing one digit of a valid number by another makes it invalid. */
  lemma LuhnDetectsSubstitution(s: string, i: nat, c: char)
    requires IsLuhn(s) && i < |s| && IsDigit(s[i]) && IsDigit(c) && c != s[i]
    ensures !IsLuhn(s[i := c])
  {
    StripUpdate(s, i, c);
    var ds, k := Strip(s).value, DigitsBefore(s, i);
    LuhnUpdate(ds, k, DigitOf(c), |ds|);
    LuhnTermInjective(|ds| - 1 - k, DigitOf(c), ds[k]);
    NoSmallMultiple(LuhnSum(ds, |ds|), LuhnTerm(|ds| - 1 - k, DigitOf(c)) - LuhnTerm(|ds| - 1 - k, ds[k]));
  }

  // The check digit, as it is computed from the left.

  /** The digit sum of twice a digit. */
  const TWICE: seq<Digit> := [0, 2, 4, 6, 8, 1, 3, 5, 7, 9]

  /** Every second digit counts as its double, the last one included. */
  function PayloadSum(ds: seq<Digit>): nat {
    if ds == [] then 0 else (if |ds| % 2 == 1 then TWICE[ds[0]] else ds[0]) + PayloadSum(ds[1..])
  }

  lemma {:induction false} LuhnOfTail(ds: seq<Digit>, n: nat)
    requires n < |ds|
    ensures LuhnSum(ds[1..], n) == LuhnSum(ds, n)
  {
    if n > 0 { LuhnOfTail(ds, n - 1); }
  }

  lemma DoubledIsTwice(d: Digit)
    ensures TWICE[d] == Doubled(d)
  {
  }

  lemma {:induction false} LuhnFromLeft(ds: seq<Digit>, k: Digit)
    ensures LuhnSum(ds + [k], |ds| + 1) == PayloadSum(ds) + k
    decreases |ds|
  {
    var all := ds + [k];
    if ds == [] {
      assert LuhnSum(all, 0) == 0;
    } else {
      assert all[1..] == ds[1..] + [k];
      LuhnFromLeft(ds[1..], k);
      LuhnOfTail(all, |ds|);
      DoubledIsTwice(ds[0]);
    }
  }

  lemma Complement(sum: nat, k: Digit)
    ensures (sum + k) % 10 == 0 <==> k == (10 - sum % 10) % 10
  {
    var q, r := sum / 10, sum % 10;
    assert sum + k == 10 * q + (r + k);
  }

  /** A number is completed by exactly one digit: what its payload sum lacks to a multiple
  of ten. */
  lemma LuhnCheckDigit(s: string, c: char)
    requires Strip(s).Some? && Strip(s).value != [] && IsDigit(c)
    ensures IsLuhn(s + [c]) <==> DigitOf(c) == (10 - PayloadSum(Strip(s).value) % 10) % 10
  {
    StripAppend(s, c);
    LuhnCompletes(Strip(s).value, DigitOf(c));
  }

  lemma LuhnCompletes(ds: seq<Digit>, k: Digit)
    requires ds != []
    ensures LuhnHolds(ds + [k]) <==> k == (10 - PayloadSum(ds) % 10) % 10
  {
    LuhnFromLeft(ds, k);
    Complement(PayloadSum(ds), k);
  }

  lemma LuhnTermInjective(place: nat, a: Digit, b: Digit)
    requires a != b
    ensures LuhnTerm(place, a) != LuhnTerm(place, b)
  {
  }

  lemma NoSmallMultiple(total: int, change: int)
    requires total % 10 == 0 && -20 < change < 20
    ensures (total + change) % 10 == 0 <==> change == 0 || change == 10 || change == -10
  {
  }

  lemma SwapTerms(place: nat, a: Digit, b: Digit)
    requires a != b && place > 0
    ensures
      var change := LuhnTerm(place, b) + LuhnTerm(place - 1, a) - LuhnTerm(place, a) - LuhnTerm(place - 1, b);
      && -20 < change < 20
      && (change == 0 || change == 10 || change == -10 <==> {a, b} == {0, 9})
  {
    assert {a, b} == {0, 9} <==> (a == 0 && b == 9) || (a == 9 && b == 0) by {
      if {a, b} == {0, 9} {
        assert a in {0, 9} && b in {0, 9};
      }
    }
  }

  /** Swapping two neighbouring distinct digits of a valid number goes unnoticed
  exactly if they are 0 and 9. */
  lemma LuhnMissesExactly09(s: string, i: nat, j: nat)
    requires IsLuhn(s) && NextDigit(s, i, j) && s[i] != s[j]
    ensures IsLuhn(Swapped(s, i, j)) <==> {s[i], s[j]} == {'0', '9'}
  {
    StripSwap(s, i, j);
    var ds, k := Strip(s).value, DigitsBefore(s, i);
    var a, b, place := ds[k], ds[k + 1], |ds| - 1 - k;
    LuhnUpdate(ds, k, b, |ds|);
    LuhnUpdate(ds[k := b], k + 1, a, |ds|);
    SwapChange(LuhnSum(ds, |ds|), place, a, b);
    SameDigits(s[i], s[j]);
  }

  lemma SwapChange(total: int, place: nat, a: Digit, b: Digit)
    requires a != b && place > 0 && total % 10 == 0
    ensures
      var change := LuhnTerm(place, b) + LuhnTerm(place - 1, a) - LuhnTerm(place, a) - LuhnTerm(place - 1, b);
      (total + change) % 10 == 0 <==> {a, b} == {0, 9}
  {
    SwapTerms(place, a, b);
    NoSmallMultiple(total, LuhnTerm(place, b) + LuhnTerm(place - 1, a) - LuhnTerm(place, a) - LuhnTerm(place - 1, b));
  }

  lemma SameDigits(x: char, y: char)
    requires IsDigit(x) && IsDigit(y)
    ensures {x, y} == {'0', '9'} <==> {DigitOf(x), DigitOf(y)} == {0, 9}
  {
    if {x, y} == {'0', '9'} {
      assert x in {'0', '9'} && y in {'0', '9'} && '0' in {x, y} && '9' in {x, y};
    }
    if {DigitOf(x), DigitOf(y)} == {0, 9} {
      assert DigitOf(x) in {0, 9} && DigitOf(y) in {0, 9};
      assert 0 in {DigitOf(x), DigitOf(y)} && 9 in {DigitOf(x), DigitOf(y)};
    }
  }

  // ---- Verhoeff --------------------------------------------------------------------------

  const D: seq<seq<Digit>> := [
    [0, 1, 2, 3, 4, 5, 6, 7, 8, 9],
    [1, 2, 3, 4, 0, 6, 7, 8, 9, 5],
    [2, 3, 4, 0, 1, 7, 8, 9, 5, 6],
    [3, 4, 0, 1, 2, 8, 9, 5, 6, 7],
    [4, 0, 1, 2, 3, 9, 5, 6, 7, 8],
    [5, 9, 8, 7, 6, 0, 4, 3, 2, 1],
    [6, 5, 9, 8, 7, 1, 0, 4, 3, 2],
    [7, 6, 5, 9, 8, 2, 1, 0, 4, 3],
    [8, 7, 6, 5, 9, 3, 2, 1, 0, 4],
    [9, 8, 7, 6, 5, 4, 3, 2, 1, 0]
  ]

  const P: seq<seq<Digit>> := [
    [0, 1, 2, 3, 4, 5, 6, 7, 8, 9],
    [1, 5, 7, 6, 2, 8, 3, 0, 9, 4],
    [5, 8, 0, 3, 7, 9, 6, 1, 4, 2],
    [8, 9, 1, 6, 0, 4, 3, 5, 2, 7],
    [9, 4, 5, 3, 1, 2, 6, 8, 7, 0],
    [4, 2, 8, 6, 5, 7, 3, 9, 0, 1],
    [2, 7, 9, 3, 8, 0, 6, 4, 1, 5],
    [7, 0, 4, 6, 9, 1, 3, 2, 5, 8]
  ]

  function Mod5(n: int): (r: int)
    requires -5 <= n < 10
    ensures 0 <= r < 5 && r == n % 5
  {
    if n < 0 then n + 5 else if n < 5 then n else n - 5
  }

  /** The product of the dihedral group of the pentagon: 0 to 4 are rotations,
  5 to 9 reflections. */
  function Dihedral(a: Digit, b: Digit): Digit {
    if a < 5 then
      if b < 5 then Mod5(a + b) else 5 + Mod5(a + b - 5)
    else
      if b < 5 then 5 + Mod5(a - 5 - b) else Mod5(a - b)
  }

  /** One step of the position permutation. */
  function Permute(d: Digit): Digit {
    match d
    case 0 => 1
    case 1 => 5
    case 2 => 7
    case 3 => 6
    case 4 => 2
    case 5 => 8
    case 6 => 3
    case 7 => 0
    case 8 => 9
    case _ => 4
  }

  function Iterate(f: Digit -> Digit, n: nat, d: Digit): Digit {
    if n == 0 then d else f(Iterate(f, n - 1, d))
  }

  function Permuted(steps: nat, d: Digit): Digit {
    Iterate(Permute, steps, d)
  }

  lemma TableIsDihedral(a: Digit, b: Digit)
    ensures |D| == 10 && |D[a]| == 10 && D[a][b] == Dihedral(a, b)
  {
  }

  lemma DihedralAssociates(a: Digit, b: Digit, c: Digit)
    ensures Dihedral(Dihedral(a, b), c) == Dihedral(a, Dihedral(b, c))
  {
    if a < 5 {
      RotationAssociates(a, b, c);
    } else {
      ReflectionAssociates(a, b, c);
    }
  }

  lemma RotationAssociates(a: Digit, b: Digit, c: Digit)
    requires a < 5
    ensures Dihedral(Dihedral(a, b), c) == Dihedral(a, Dihedral(b, c))
  {
  }

  lemma ReflectionAssociates(a: Digit, b: Digit, c: Digit)
    requires a >= 5
    ensures Dihedral(Dihedral(a, b), c) == Dihedral(a, Dihedral(b, c))
  {
  }

  lemma DihedralCancels(a: Digit, b: Digit, c: Digit)
    ensures b != c ==> Dihedral(a, b) != Dihedral(a, c) && Dihedral(b, a) != Dihedral(c, a)
  {
  }

  lemma PermuteIsInjective(a: Digit, b: Digit)
    requires a != b
    ensures Permute(a) != Permute(b)
  {
  }

  lemma {:induction false} PermutedIsInjective(steps: nat, a: Digit, b: Digit)
    requires a != b
    ensures Permuted(steps, a) != Permuted(steps, b)
  {
    if steps > 0 {
      PermutedIsInjective(steps - 1, a, b);
      PermuteIsInjective(Permuted(steps - 1, a), Permuted(steps - 1, b));
    }
  }

  /** Row `i` of the table is `i` steps of the permutation. */
  lemma TableStep(i: nat, d: Digit)
    requires i < 7
    ensures |P| == 8 && |P[i]| == 10 && |P[i + 1]| == 10 && P[i + 1][d] == Permute(P[i][d])
  {
  }

  /** The eighth step leads back to the start. */
  lemma TableWraps(d: Digit)
    ensures |P| == 8 && |P[7]| == 10 && |P[0]| == 10 && P[0][d] == d == Permute(P[7][d])
  {
  }

  lemma {:induction false} TableIsPermutedBelow8(i: nat, d: Digit)
    requires i < 8
    ensures |P| == 8 && |P[i]| == 10 && P[i][d] == Permuted(i, d)
  {
    if i == 0 {
      TableWraps(d);
    } else {
      TableIsPermutedBelow8(i - 1, d);
      TableStep(i - 1, d);
    }
  }

  lemma {:induction false} IterateAdds(f: Digit -> Digit, m: nat, n: nat, d: Digit)
    ensures Iterate(f, m + n, d) == Iterate(f, m, Iterate(f, n, d))
  {
    if m > 0 {
      IterateAdds(f, m - 1, n, d);
    }
  }

  lemma {:induction false} IterateIsPeriodic(f: Digit -> Digit, n: nat, i: nat, d: Digit)
    requires n == 8 && Iterate(f, n, d) == d
    ensures Iterate(f, i, d) == Iterate(f, i % 8, d)
    decreases i
  {
    if i >= n {
      IterateAdds(f, i - n, n, d);
      IterateIsPeriodic(f, n, i - n, d);
    }
  }

  lemma EightStepsReturn(n: nat, d: Digit)
    requires n == 8
    ensures Permuted(n, d) == d
  {
    TableIsPermutedBelow8(n - 1, d);
    TableWraps(d);
  }

  lemma TableIsPermuted(i: nat, d: Digit)
    ensures |P| == 8 && |P[i % 8]| == 10 && P[i % 8][d] == Permuted(i, d)
  {
    var n := 8;
    EightStepsReturn(n, d);
    IterateIsPeriodic(Permute, n, i, d);
    TableIsPermutedBelow8(i % 8, d);
  }

  /** The check value after the last `n` digits: each digit is turned according
  to its place and then combined with the value so far. */
  function FoldBack(combine: (Digit, Digit) -> Digit, turn: (nat, Digit) -> Digit, ds: seq<Digit>, n: nat): Digit
    requires n <= |ds|
  {
    if n == 0 then 0 else combine(FoldBack(combine, turn, ds, n - 1), turn(n - 1, ds[|ds| - n]))
  }

  function VerhoeffFold(ds: seq<Digit>, n: nat): Digit
    requires n <= |ds|
  {
    FoldBack(Dihedral, Permuted, ds, n)
  }

  ghost predicate IsVerhoeff(candidate: string) {
    && Strip(candidate).Some?
    && var ds := Strip(candidate).value;
    && |ds| >= 2 && VerhoeffFold(ds, |ds|) == 0
  }

  method ValidateVerhoeff(candidate: string) returns (ok: bool)
    ensures ok <==> IsVerhoeff(candidate)
  {
    var digits := DigitsOnly(candidate);
    if digits.None? || |digits.value| < 2 {
      return false;
    }
    var ds := digits.value;
    var c: Digit := 0;
    for i := 0 to |ds|
      invariant c == VerhoeffFold(ds, i)
    {
      c := TableLookup(c, i, ds[|ds| - 1 - i]);
    }
    return c == 0;
  }

  /** One table step of the loop. */
  function TableLookup(c: Digit, i: nat, d: Digit): (r: Digit)
    ensures r == Dihedral(c, Permuted(i, d))
  {
    TableIsPermuted(i, d);
    TableIsDihedral(c, P[i % 8][d]);
    D[c][P[i % 8][d]]
  }

  // The check digit, as it is computed from the left.

  /** What undoes a digit in the group: rotations turn back, reflections undo themselves. */
  function Inverse(d: Digit): Digit {
    if 0 < d < 5 then 5 - d else d
  }

  lemma InverseUndoes(a: Digit, b: Digit)
    ensures Dihedral(a, b) == 0 <==> a == Inverse(b)
  {
  }

  /** The payload combined from its last digit, turned once, to its first. */
  function Turned(ds: seq<Digit>): Digit {
    if ds == [] then 0 else Dihedral(Turned(ds[1..]), Permuted(|ds|, ds[0]))
  }

  lemma {:induction false} FoldOfTail(ds: seq<Digit>, n: nat)
    requires n < |ds|
    ensures VerhoeffFold(ds[1..], n) == VerhoeffFold(ds, n)
  {
    if n > 0 { FoldOfTail(ds, n - 1); }
  }

  lemma {:induction false} VerhoeffFromLeft(ds: seq<Digit>, k: Digit)
    ensures VerhoeffFold(ds + [k], |ds| + 1) == Dihedral(k, Turned(ds))
    decreases |ds|
  {
    var all, n := ds + [k], |ds|;
    assert VerhoeffFold(all, n + 1) == Dihedral(VerhoeffFold(all, n), Permuted(n, all[0]));
    if ds == [] {
      assert VerhoeffFold(all, 0) == 0 && Permuted(0, k) == k;
    } else {
      assert all[1..] == ds[1..] + [k];
      VerhoeffFromLeft(ds[1..], k);
      FoldOfTail(all, n);
      DihedralAssociates(k, Turned(ds[1..]), Permuted(n, ds[0]));
    }
  }

  /** A number is completed by exactly one digit: the inverse of its payload. */
  lemma VerhoeffCheckDigit(s: string, c: char)
    requires Strip(s).Some? && Strip(s).value != [] && IsDigit(c)
    ensures IsVerhoeff(s + [c]) <==> DigitOf(c) == Inverse(Turned(Strip(s).value))
  {
    StripAppend(s, c);
    VerhoeffFromLeft(Strip(s).value, DigitOf(c));
    InverseUndoes(DigitOf(c), Turned(Strip(s).value));
  }

  /** The customary example: 236 is completed by 3. */
  lemma VerhoeffExample(c: char)
    requires IsDigit(c)
    ensures IsVerhoeff("236" + [c]) <==> c == '3'
  {
    StripMeans("236");
    assert DigitsIn("236") == [2, 3, 6] by {
      assert "236"[1..] == "36" && "36"[1..] == "6" && "6"[1..] == "";
    }
    assert [2, 3, 6][1..] == [3, 6] && [3, 6][1..] == [6] && [6][1..] == [];
    TableIsPermutedBelow8(1, 6);
    TableIsPermutedBelow8(2, 3);
    TableIsPermutedBelow8(3, 2);
    assert Turned([6]) == 3 && Turned([3, 6]) == 1 && Turned([2, 3, 6]) == 2;
    VerhoeffCheckDigit("236", c);
  }

  ghost predicate Cancels(combine: (Digit, Digit) -> Digit) {
    && (forall a: Digit, b: Digit, c: Digit :: b != c ==> combine(a, b) != combine(a, c))
    && (forall a: Digit, b: Digit, c: Digit :: b != c ==> combine(b, a) != combine(c, a))
  }

  ghost predicate KeepsApart(turn: (nat, Digit) -> Digit) {
    forall n: nat, a: Digit, b: Digit :: a != b ==> turn(n, a) != turn(n, b)
  }

  /** Two digits in neighbouring places never combine alike when swapped. */
  ghost predicate Untwisted(combine: (Digit, Digit) -> Digit, turn: (nat, Digit) -> Digit) {
    forall n: nat, c: Digit, a: Digit, b: Digit :: a != b ==>
      combine(combine(c, turn(n, a)), turn(n + 1, b)) != combine(combine(c, turn(n, b)), turn(n + 1, a))
  }

  /** Check values that differ stay different when the same digits follow. */
  lemma {:induction false} DifferenceSurvives(combine: (Digit, Digit) -> Digit, turn: (nat, Digit) -> Digit,
                                              a: seq<Digit>, b: seq<Digit>, m: nat, n: nat)
    requires Cancels(combine) && |a| == |b| && m <= n <= |a|
    requires FoldBack(combine, turn, a, m) != FoldBack(combine, turn, b, m)
    requires a[..|a| - m] == b[..|b| - m]
    ensures FoldBack(combine, turn, a, n) != FoldBack(combine, turn, b, n)
    decreases n
  {
    if m < n {
      DifferenceSurvives(combine, turn, a, b, m, n - 1);
      assert a[|a| - n] == a[..|a| - m][|a| - n] == b[..|b| - m][|a| - n] == b[|a| - n];
    }
  }

  lemma {:induction false} FoldDependsOnTail(combine: (Digit, Digit) -> Digit, turn: (nat, Digit) -> Digit,
                                             a: seq<Digit>, b: seq<Digit>, n: nat)
    requires |a| == |b| && n <= |a| && a[|a| - n..] == b[|b| - n..]
    ensures FoldBack(combine, turn, a, n) == FoldBack(combine, turn, b, n)
  {
    if n > 0 {
      assert a[|a| - (n - 1)..] == a[|a| - n..][1..] == b[|b| - n..][1..] == b[|b| - (n - 1)..];
      assert a[|a| - n] == a[|a| - n..][0] == b[|b| - n..][0] == b[|b| - n];
      FoldDependsOnTail(combine, turn, a, b, n - 1);
    }
  }

  lemma FoldSubstitution(combine: (Digit, Digit) -> Digit, turn: (nat, Digit) -> Digit, a: seq<Digit>, k: nat, d: Digit)
    requires Cancels(combine) && KeepsApart(turn) && k < |a| && a[k] != d
    ensures FoldBack(combine, turn, a[k := d], |a|) != FoldBack(combine, turn, a, |a|)
  {
    var b, place := a[k := d], |a| - 1 - k;
    assert a[|a| - place..] == b[|b| - place..] && a[..|a| - (place + 1)] == b[..|b| - (place + 1)];
    FoldDependsOnTail(combine, turn, a, b, place);
    DifferenceSurvives(combine, turn, a, b, place + 1, |a|);
  }

  lemma FoldSwap(combine: (Digit, Digit) -> Digit, turn: (nat, Digit) -> Digit, a: seq<Digit>, k: nat)
    requires Cancels(combine) && Untwisted(combine, turn) && k + 1 < |a| && a[k] != a[k + 1]
    ensures FoldBack(combine, turn, Swapped(a, k, k + 1), |a|) != FoldBack(combine, turn, a, |a|)
  {
    var b, place := Swapped(a, k, k + 1), |a| - 2 - k;
    assert a[|a| - place..] == b[|b| - place..] && a[..|a| - (place + 2)] == b[..|b| - (place + 2)];
    FoldDependsOnTail(combine, turn, a, b, place);
    FoldTwo(combine, turn, a, place);
    FoldTwo(combine, turn, b, place);
    DifferenceSurvives(combine, turn, a, b, place + 2, |a|);
  }

  lemma FoldTwo(combine: (Digit, Digit) -> Digit, turn: (nat, Digit) -> Digit, a: seq<Digit>, n: nat)
    requires n + 2 <= |a|
    ensures FoldBack(combine, turn, a, n + 2) ==
            combine(combine(FoldBack(combine, turn, a, n), turn(n, a[|a| - 1 - n])), turn(n + 1, a[|a| - 2 - n]))
  {
    assert FoldBack(combine, turn, a, n + 1) == combine(FoldBack(combine, turn, a, n), turn(n, a[|a| - 1 - n]));
  }

  // ---- the two tables have what this needs ----------------------------------------------------

  lemma DihedralQualifies()
    ensures Cancels(Dihedral) && KeepsApart(Permuted)
  {
    forall a: Digit, b: Digit, c: Digit | b != c
      ensures Dihedral(a, b) != Dihedral(a, c) && Dihedral(b, a) != Dihedral(c, a)
    {
      DihedralCancels(a, b, c);
    }
    forall n: nat, a: Digit, b: Digit | a != b ensures Permuted(n, a) != Permuted(n, b) {
      PermutedIsInjective(n, a, b);
    }
  }

  lemma TwistNeverCommutes(u: Digit, v: Digit)
    requires u != v
    ensures Dihedral(u, Permute(v)) != Dihedral(v, Permute(u))
  {
  }

  lemma TwoStepsDiffer(c: Digit, u: Digit, v: Digit)
    requires u != v
    ensures Dihedral(Dihedral(c, u), Permute(v)) != Dihedral(Dihedral(c, v), Permute(u))
  {
    TwistNeverCommutes(u, v);
    DihedralAssociates(c, u, Permute(v));
    DihedralAssociates(c, v, Permute(u));
    DihedralCancels(c, Dihedral(u, Permute(v)), Dihedral(v, Permute(u)));
  }

  lemma DihedralIsUntwisted()
    ensures Untwisted(Dihedral, Permuted)
  {
    forall n: nat, c: Digit, a: Digit, b: Digit | a != b
      ensures Dihedral(Dihedral(c, Permuted(n, a)), Permuted(n + 1, b))
              != Dihedral(Dihedral(c, Permuted(n, b)), Permuted(n + 1, a))
    {
      PermutedIsInjective(n, a, b);
      TwoStepsDiffer(c, Permuted(n, a), Permuted(n, b));
    }
  }

  /** Replacing one digit of a valid number by another makes it invalid. */
  lemma VerhoeffDetectsSubstitution(s: string, i: nat, c: char)
    requires IsVerhoeff(s) && i < |s| && IsDigit(s[i]) && IsDigit(c) && c != s[i]
    ensures !IsVerhoeff(s[i := c])
  {
    StripUpdate(s, i, c);
    DihedralQualifies();
    FoldSubstitution(Dihedral, Permuted, Strip(s).value, DigitsBefore(s, i), DigitOf(c));
  }

  /** Swapping two neighbouring distinct digits of a valid number makes it
  invalid, at every place and across the wrap of the table. */
  lemma VerhoeffDetectsSwap(s: string, i: nat, j: nat)
    requires IsVerhoeff(s) && NextDigit(s, i, j) && s[i] != s[j]
    ensures !IsVerhoeff(Swapped(s, i, j))
  {
    StripSwap(s, i, j);
    DihedralQualifies();
    DihedralIsUntwisted();
    FoldSwap(Dihedral, Permuted, Strip(s).value, DigitsBefore(s, i));
  }
}
