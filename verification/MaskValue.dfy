/** The three masks of the log sanitizer. */
module MaskValue {
  import opened Pan
  import opened KeyClassifier

  function Stars(n: nat): (r: string)
    ensures |r| == n
  {
    seq(n, _ => '*')
  }

  /** `value.replace(/\D/g, '')`. */
  function DigitsText(value: string): (r: string)
    ensures |r| == |DigitsOf(value)|
    ensures forall c | c in r :: IsDigit(c)
    ensures forall i | 0 <= i < |r| :: DigitValue(r[i]) == DigitsOf(value)[i]
  {
    if value == "" then ""
    else if IsDigit(value[0]) then [value[0]] + DigitsText(value[1..])
    else DigitsText(value[1..])
  }

  function MaskCard(value: string): string {
    var digits := DigitsText(value);
    if |digits| < 10 then Stars(|digits|)
    else digits[..6] + Stars(|digits| - 10) + digits[|digits| - 4..]
  }

  /** `max(1, floor(0.8 * length))` characters are hidden. */
  function MaskCount(length: nat): nat {
    if 4 * length / 5 < 1 then 1 else 4 * length / 5
  }

  function MaskPartial(value: string): string {
    if value == "" then value else Stars(MaskCount(|value|)) + value[MaskCount(|value|)..]
  }

  function ApplyMask(value: string, type_: SensitiveKeyType): string {
    match type_
    case Card => MaskCard(value)
    case Redact => "[REDACTED]"
    case Partial => MaskPartial(value)
  }

  /** A masked card shows the value's own first six and last four digits, if it has at least ten, and nothing else. */
  lemma CardShowsTenDigits(value: string, i: nat)
    requires i < |MaskCard(value)|
    ensures |MaskCard(value)| == |DigitsOf(value)|
    ensures MaskCard(value)[i] != '*'
            <==> |DigitsOf(value)| >= 10 && (i < 6 || i >= |DigitsOf(value)| - 4)
    ensures MaskCard(value)[i] != '*' ==> MaskCard(value)[i] == DigitsText(value)[i]
  {
    var digits := DigitsText(value);
    if |digits| >= 10 && (i < 6 || i >= |digits| - 4) {
      assert MaskCard(value)[i] == digits[i];
      assert IsDigit(digits[i]);
    }
  }

  /** A partial mask hides at least one character and shows at most one character in five, rounded up. */
  lemma PartialShowsOneFifth(value: string)
    requires value != ""
    ensures var (masked, hidden) := (MaskPartial(value), MaskCount(|value|));
            && |masked| == |value| && 1 <= hidden <= |value| && 5 * (|value| - hidden) <= |value| + 4
            && masked[..hidden] == Stars(hidden) && masked[hidden..] == value[hidden..]
  {
  }

  /** What each type of mask shows of a value. */
  lemma MaskMeans(value: string, other: string)
    ensures ApplyMask(value, Redact) == "[REDACTED]" == ApplyMask(other, Redact)
    ensures |ApplyMask(value, Card)| == |DigitsOf(value)|
    ensures forall i | 0 <= i < |DigitsOf(value)| ::
              ApplyMask(value, Card)[i] == if |DigitsOf(value)| >= 10 && (i < 6 || i >= |DigitsOf(value)| - 4)
                                           then DigitsText(value)[i] else '*'
    ensures |ApplyMask(value, Partial)| == |value|
    ensures forall i | 0 <= i < |value| ::
              ApplyMask(value, Partial)[i] == if i == 0 || 5 * (i + 1) <= 4 * |value| then '*' else value[i]
  {
  }
}
