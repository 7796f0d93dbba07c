/** The one-pass card number check of the log sanitizer. */
module Pan {
  const PAN_MIN_DIGITS: nat := 13
  const PAN_MAX_DIGITS: nat := 19
  const PAN_MAX_RAW_LENGTH: nat := PAN_MAX_DIGITS * 2

  predicate IsDigit(c: char) {
    '0' <= c <= '9'
  }

  /** Hyphen, space, tab to carriage return, and the non-ASCII members of the JavaScript class `\s`. */
  predicate IsSeparator(c: char) {
    || c == '-' || c == ' '
    || '\t' <= c <= '\r'
    || c in {'\U{00A0}', '\U{1680}', '\U{2028}', '\U{2029}', '\U{202F}', '\U{205F}', '\U{3000}', '\U{FEFF}'}
    || '\U{2000}' <= c <= '\U{200A}'
  }

  type Digit = d: nat | d <= 9

  function DigitValue(c: char): Digit
    requires IsDigit(c)
  {
    c as int - '0' as int
  }

  /** The digits-only copy of a raw value. */
  function DigitsOf(raw: string): seq<Digit> {
    if raw == "" then []
    else if IsDigit(raw[0]) then [DigitValue(raw[0])] + DigitsOf(raw[1..])
    else DigitsOf(raw[1..])
  }

  /**
   Annex B of ISO/IEC 7812-1: every second digit, counted from the right and starting at the one beside
   the check digit, is doubled, and the individual digits of the product are added up.
   */
  function Contribution(d: Digit, fromRight: nat): nat {
    if fromRight % 2 == 1 then (2 * d) / 10 + (2 * d) % 10 else d
  }

  function LuhnSum(digits: seq<Digit>): nat {
    if digits == [] then 0
    else Contribution(digits[0], |digits| - 1) + LuhnSum(digits[1..])
  }

  predicate AllowedFrom(raw: string, start: nat) {
    forall k | start <= k < |raw| :: IsDigit(raw[k]) || IsSeparator(raw[k])
  }

  predicate AcceptedPan(raw: string) {
    && PAN_MIN_DIGITS <= |raw| <= PAN_MAX_RAW_LENGTH
    && AllowedFrom(raw, 0)
    && PAN_MIN_DIGITS <= |DigitsOf(raw)| <= PAN_MAX_DIGITS
    && LuhnSum(DigitsOf(raw)) % 10 == 0
  }

  /** A logged value: a string, a number given by its text, or anything else. */
  datatype Logged = Text(text: string) | Numeral(text: string) | Other

  predicate PanValue(value: Logged) {
    !value.Other? && AcceptedPan(value.text)
  }

  /** The digit as it counts, doubled at every other place. */
  method Weigh(d: Digit, alternate: bool) returns (digit: nat)
    ensures digit == Contribution(d, if alternate then 1 else 0)
  {
    digit := d;
    if alternate {
      digit := digit * 2;
      if digit > 9 {
        digit := digit - 9;
      }
    }
    Doubling(d);
  }

  /** What the loop knows of the characters from `start` on. */
  predicate Scanned(raw: string, start: nat, digits: nat, sum: nat, alternate: bool) {
    && start <= |raw| && AllowedFrom(raw, start)
    && digits == |DigitsOf(raw[start..])| && sum == LuhnSum(DigitsOf(raw[start..])) && alternate == (digits % 2 == 1)
  }

  lemma ScanSeparator(raw: string, index: nat, digits: nat, sum: nat, alternate: bool)
    requires index < |raw| && Scanned(raw, index + 1, digits, sum, alternate)
    requires IsSeparator(raw[index]) && !IsDigit(raw[index])
    ensures Scanned(raw, index, digits, sum, alternate)
  {
    DigitsOfStep(raw, index);
  }

  lemma ScanDigit(raw: string, index: nat, digits: nat, sum: nat, alternate: bool)
    requires index < |raw| && Scanned(raw, index + 1, digits, sum, alternate) && IsDigit(raw[index])
    ensures Scanned(raw, index, digits + 1, sum + Contribution(DigitValue(raw[index]), digits), !alternate)
  {
    DigitsOfStep(raw, index);
  }

  lemma TooManyDigits(raw: string, index: nat, digits: nat, sum: nat, alternate: bool)
    requires Scanned(raw, index, digits, sum, alternate) && digits > PAN_MAX_DIGITS
    ensures !AcceptedPan(raw)
  {
    DigitsOfSplit(raw[..index], raw[index..]);
    assert raw == raw[..index] + raw[index..];
  }

  lemma WrongCharacter(raw: string, index: nat)
    requires index < |raw| && !IsDigit(raw[index]) && !IsSeparator(raw[index])
    ensures !AcceptedPan(raw)
  {
  }

  lemma ScanComplete(raw: string, digits: nat, sum: nat, alternate: bool)
    requires Scanned(raw, 0, digits, sum, alternate)
    ensures AllowedFrom(raw, 0) && digits == |DigitsOf(raw)| && sum == LuhnSum(DigitsOf(raw))
  {
    assert raw[0..] == raw;
  }

  method IsPAN(value: Logged) returns (accepted: bool)
    ensures accepted <==> PanValue(value)
  {
    if value.Other? {
      return false;
    }
    var raw := value.text;
    var length := |raw|;
    if length < PAN_MIN_DIGITS || length > PAN_MAX_RAW_LENGTH {
      return false;
    }
    var digits: nat, sum: nat, alternate := 0, 0, false;
    var index := length - 1;
    while index >= 0
      invariant -1 <= index < length == |raw| && digits <= PAN_MAX_DIGITS
      invariant Scanned(raw, index + 1, digits, sum, alternate)
    {
      var c := raw[index];
      if c < '0' || c > '9' {
        if IsSeparator(c) {
          ScanSeparator(raw, index, digits, sum, alternate);
          index := index - 1;
          continue;
        }
        WrongCharacter(raw, index);
        return false;
      }
      ScanDigit(raw, index, digits, sum, alternate);
      var digit := Weigh(DigitValue(c), alternate);
      sum := sum + digit;
      alternate := !alternate;
      digits := digits + 1;
      if digits > PAN_MAX_DIGITS {
        TooManyDigits(raw, index, digits, sum, alternate);
        return false;
      }
      index := index - 1;
    }
    ScanComplete(raw, digits, sum, alternate);
    if digits < PAN_MIN_DIGITS {
      return false;
    }
    return sum % 10 == 0;
  }

  /** Subtracting nine from a product above nine adds up its two digits. */
  lemma Doubling(d: Digit)
    ensures Contribution(d, 1) == if 2 * d > 9 then 2 * d - 9 else 2 * d
  {
  }

  lemma DigitsOfStep(raw: string, index: nat)
    requires index < |raw|
    ensures var rest := DigitsOf(raw[index + 1..]);
            && DigitsOf(raw[index..]) == (if IsDigit(raw[index]) then [DigitValue(raw[index])] + rest else rest)
            && (IsDigit(raw[index]) ==>
                LuhnSum(DigitsOf(raw[index..])) == Contribution(DigitValue(raw[index]), |rest|) + LuhnSum(rest))
  {
    var tail := raw[index..];
    assert tail[0] == raw[index] && tail[1..] == raw[index + 1..];
    if IsDigit(raw[index]) {
      var digits := [DigitValue(raw[index])] + DigitsOf(raw[index + 1..]);
      assert digits[1..] == DigitsOf(raw[index + 1..]);
    }
  }

  lemma {:induction false} DigitsOfSplit(a: string, b: string)
    ensures DigitsOf(a + b) == DigitsOf(a) + DigitsOf(b)
  {
    if a == "" {
      assert a + b == b;
    } else {
      assert (a + b)[1..] == a[1..] + b;
      DigitsOfSplit(a[1..], b);
    }
  }

  lemma {:induction false} LuhnSumUpdate(digits: seq<Digit>, i: nat, d: Digit)
    requires i < |digits|
    ensures LuhnSum(digits[i := d]) - Contribution(d, |digits| - 1 - i)
            == LuhnSum(digits) - Contribution(digits[i], |digits| - 1 - i)
  {
    if i == 0 {
      assert digits[0 := d][1..] == digits[1..];
    } else {
      assert digits[i := d][1..] == digits[1..][i - 1 := d];
      LuhnSumUpdate(digits[1..], i - 1, d);
    }
  }

  lemma DigitsOfUpdate(raw: string, i: nat, c: char)
    requires i < |raw| && IsDigit(raw[i]) && IsDigit(c)
    ensures var at := |DigitsOf(raw[..i])|;
            && at < |DigitsOf(raw)| && DigitsOf(raw)[at] == DigitValue(raw[i])
            && DigitsOf(raw[i := c]) == DigitsOf(raw)[at := DigitValue(c)]
  {
    var before, after := raw[..i], raw[i + 1..];
    assert raw == before + [raw[i]] + after && raw[i := c] == before + [c] + after;
    DigitsOfSplit(before + [raw[i]], after);
    DigitsOfSplit(before, [raw[i]]);
    DigitsOfSplit(before + [c], after);
    DigitsOfSplit(before, [c]);
  }

  /** The ten digits contribute ten different amounts between 0 and 9. */
  lemma ContributionsDiffer(d: Digit, e: Digit, fromRight: nat)
    ensures Contribution(d, fromRight) <= 9
    ensures Contribution(d, fromRight) == Contribution(e, fromRight) ==> d == e
  {
  }

  lemma DifferentRemainder(sum: int, shift: int)
    requires sum % 10 == 0 && -10 < shift < 10
    ensures (sum + shift) % 10 == 0 <==> shift == 0
  {
  }

  /** Changing any one digit of an accepted value makes it rejected. */
  lemma OneDigitErrorIsCaught(raw: string, i: nat, c: char)
    requires AcceptedPan(raw) && i < |raw| && IsDigit(raw[i]) && IsDigit(c) && c != raw[i]
    ensures !AcceptedPan(raw[i := c])
  {
    var digits, at, d, e := DigitsOf(raw), |DigitsOf(raw[..i])|, DigitValue(raw[i]), DigitValue(c);
    DigitsOfUpdate(raw, i, c);
    LuhnSumUpdate(digits, at, e);
    var fromRight := |digits| - 1 - at;
    ContributionsDiffer(d, e, fromRight);
    ContributionsDiffer(e, d, fromRight);
    DifferentRemainder(LuhnSum(digits), Contribution(e, fromRight) - Contribution(d, fromRight));
  }

  function Gain(d: Digit): int {
    Contribution(d, 1) - d
  }

  lemma GainTable(d: Digit)
    ensures Gain(d) == if d <= 4 then d else d - 9
  {
  }

  lemma GainsDiffer(a: Digit, b: Digit)
    ensures -10 < Gain(b) - Gain(a) < 10
    ensures Gain(a) == Gain(b) <==> a == b || (a == 0 && b == 9) || (a == 9 && b == 0)
  {
    GainTable(a);
    GainTable(b);
  }

  lemma NeighbourContributions(d: Digit, fromRight: nat)
    ensures Contribution(d, fromRight + 1) - Contribution(d, fromRight)
            == if fromRight % 2 == 1 then -Gain(d) else Gain(d)
  {
  }

  lemma LuhnSumSwap(digits: seq<Digit>, at: nat)
    requires at + 1 < |digits|
    ensures var (a, b) := (digits[at], digits[at + 1]);
            var swapped := LuhnSum(digits[at := b][at + 1 := a]);
            || swapped == LuhnSum(digits) + (Gain(b) - Gain(a))
            || swapped == LuhnSum(digits) - (Gain(b) - Gain(a))
  {
    var a, b, k := digits[at], digits[at + 1], |digits| - 2 - at;
    LuhnSumUpdate(digits, at, b);
    LuhnSumUpdate(digits[at := b], at + 1, a);
    NeighbourContributions(a, k);
    NeighbourContributions(b, k);
  }

  lemma SwapKeepsRemainder(digits: seq<Digit>, at: nat)
    requires at + 1 < |digits| && LuhnSum(digits) % 10 == 0
    ensures var (a, b) := (digits[at], digits[at + 1]);
            LuhnSum(digits[at := b][at + 1 := a]) % 10 == 0 <==> a == b || (a == 0 && b == 9) || (a == 9 && b == 0)
  {
    var shift := Gain(digits[at + 1]) - Gain(digits[at]);
    LuhnSumSwap(digits, at);
    GainsDiffer(digits[at], digits[at + 1]);
    DifferentRemainder(LuhnSum(digits), shift);
    DifferentRemainder(LuhnSum(digits), -shift);
  }

  lemma DigitsOfSwap(raw: string, i: nat)
    requires i + 1 < |raw| && IsDigit(raw[i]) && IsDigit(raw[i + 1])
    ensures var (digits, at) := (DigitsOf(raw), |DigitsOf(raw[..i])|);
            && at + 1 < |digits|
            && digits[at] == DigitValue(raw[i]) && digits[at + 1] == DigitValue(raw[i + 1])
            && DigitsOf(raw[i := raw[i + 1]][i + 1 := raw[i]]) == digits[at := digits[at + 1]][at + 1 := digits[at]]
  {
    var a, b := raw[i], raw[i + 1];
    var once := raw[i := b];
    DigitsOfUpdate(raw, i, b);
    DigitsOfUpdate(once, i + 1, a);
    assert once[..i + 1] == raw[..i] + [b];
    DigitsOfSplit(raw[..i], [b]);
  }

  /**
   Exchanging two neighbouring digits of an accepted value is caught, except for equal digits and for the
   pair of 0 and 9, which the formula cannot tell apart.
   */
  lemma TranspositionCaughtExactly(raw: string, i: nat)
    requires AcceptedPan(raw) && i + 1 < |raw| && IsDigit(raw[i]) && IsDigit(raw[i + 1])
    ensures AcceptedPan(raw[i := raw[i + 1]][i + 1 := raw[i]])
            <==> raw[i] == raw[i + 1] || raw[i..i + 2] == "09" || raw[i..i + 2] == "90"
  {
    var digits, at := DigitsOf(raw), |DigitsOf(raw[..i])|;
    DigitsOfSwap(raw, i);
    SwapKeepsRemainder(digits, at);
    assert AllowedFrom(raw[i := raw[i + 1]][i + 1 := raw[i]], 0);
    assert raw[i..i + 2] == [raw[i], raw[i + 1]];
  }

  // ---------------------------------------------------------------- the formula in figures

  /** The bounds in figures. */
  lemma AcceptedExactly(raw: string)
    ensures AcceptedPan(raw) <==>
            && 13 <= |raw| <= 38 && (forall i | 0 <= i < |raw| :: IsDigit(raw[i]) || IsSeparator(raw[i]))
            && 13 <= |DigitsOf(raw)| <= 19 && LuhnSum(DigitsOf(raw)) % 10 == 0
  {
  }

  function Ones(n: nat): (r: seq<Digit>)
    ensures |r| == n && forall i | 0 <= i < n :: r[i] == 1
  {
    seq(n, _ => 1)
  }

  /** Every other one counts double, the last one single. */
  lemma {:induction false} LuhnSumOfOnes(n: nat)
    ensures LuhnSum(Ones(n)) == n + n / 2
  {
    if n > 0 {
      LuhnSumOfOnes(n - 1);
      assert Ones(n)[1..] == Ones(n - 1);
    }
  }

  lemma {:induction false} DigitsOfDigits(raw: string)
    requires forall i | 0 <= i < |raw| :: IsDigit(raw[i])
    ensures |DigitsOf(raw)| == |raw| && forall i | 0 <= i < |raw| :: DigitsOf(raw)[i] == DigitValue(raw[i])
  {
    if raw != "" {
      DigitsOfDigits(raw[1..]);
    }
  }

  function ManyOnes(n: nat): (r: string)
    ensures |r| == n && forall i | 0 <= i < n :: r[i] == '1'
  {
    seq(n, _ => '1')
  }

  /** The well-known test number 4111 1111 1111 1111 is accepted, and no other first digit is. */
  lemma TestNumberIsAccepted(first: char)
    requires IsDigit(first)
    ensures AcceptedPan([first] + ManyOnes(15)) <==> first == '4'
  {
    var raw := [first] + ManyOnes(15);
    DigitsOfDigits(raw);
    assert DigitsOf(raw)[1..] == Ones(15);
    LuhnSumOfOnes(15);
    assert LuhnSum(DigitsOf(raw)) == Contribution(DigitValue(first), 15) + 22;
  }
}
