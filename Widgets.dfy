/** The three deterministic interaction locks, each as a pure step from
    the shared input text to either "unlock" or "store this new text":
    the ten-tap counter, the fixed four-digit code and the four switches. */
module Widgets {

  /** What one press on a widget does: open the lock, or keep it closed
      and store a new input text. */
  datatype Outcome = Unlocks | Store(input: string)

  // Decimal text, as Number.prototype.toString and parseInt use it for
  // non-negative integers.

  predicate IsDigit(c: char) { '0' <= c <= '9' }

  predicate AllDigits(s: string) {
    forall i :: 0 <= i < |s| ==> IsDigit(s[i])
  }

  function DigitChar(d: nat): (c: char)
    requires d < 10
    ensures IsDigit(c)
  {
    ('0' as int + d) as char
  }

  function DigitValue(c: char): (d: nat)
    requires IsDigit(c)
    ensures d < 10 && DigitChar(d) == c
  {
    c as int - '0' as int
  }

  /** The decimal text of `n`, without leading zeros. */
  function NatToString(n: nat): (s: string)
    ensures |s| >= 1 && AllDigits(s)
    decreases n
  {
    if n < 10 then [DigitChar(n)] else NatToString(n / 10) + [DigitChar(n % 10)]
  }

  /** Ten to the power `n`. */
  function Pow10(n: nat): (p: nat)
    ensures p >= 1
  {
    if n == 0 then 1 else 10 * Pow10(n - 1)
  }

  /** The value of a text made of decimal digits (0 for the empty text); a
      text of `n` digits denotes a number below ten to the `n`. */
  function DecimalValue(s: string): (v: nat)
    requires AllDigits(s)
    ensures v < Pow10(|s|)
  {
    if s == [] then 0 else 10 * DecimalValue(s[..|s| - 1]) + DigitValue(s[|s| - 1])
  }

  /** Reading back the decimal text of a number gives the number. */
  lemma {:induction false} DecimalRoundTrip(n: nat)
    ensures DecimalValue(NatToString(n)) == n
    decreases n
  {
    if n >= 10 {
      DecimalRoundTrip(n / 10);
      var s := NatToString(n);
      assert s[..|s| - 1] == NatToString(n / 10);
    }
  }

  // The click lock.

  /** The texts the click lock's button can show: "" before the first tap,
      then the single digits 1 to 9. */
  predicate ClickInput(s: string) {
    s == "" || (|s| == 1 && '1' <= s[0] <= '9')
  }

  /** The count the button shows, read as parseInt(input || '0'): 0 before
      the first tap, and a single digit's own value afterwards. */
  function ShownCount(input: string): (n: nat)
    requires AllDigits(input)
    ensures input == "" ==> n == 0
    ensures |input| == 1 ==> n == DigitValue(input[0])
  {
    DecimalValue(if input == "" then "0" else input)
  }

  /** One tap on the click lock: the count goes up by one; the lock opens
      once it reaches 10, otherwise the new count is stored as text. */
  function ClickStep(input: string): (o: Outcome)
    requires AllDigits(input)
    ensures o.Unlocks? <==> ShownCount(input) + 1 >= 10
    ensures o.Store? ==> AllDigits(o.input) && ShownCount(o.input) == ShownCount(input) + 1
    ensures ClickInput(input) && o.Store? ==> ClickInput(o.input)
  {
    var count := ShownCount(input) + 1;
    DecimalRoundTrip(count);
    if count >= 10 then Unlocks else Store(NatToString(count))
  }

  /** The click lock after `taps` taps on a freshly opened lock (whose
      input was cleared); taps after it opened change nothing. */
  function ClickAfter(taps: nat): (o: Outcome)
    ensures o.Store? ==> AllDigits(o.input)
  {
    if taps == 0 then Store("")
    else match ClickAfter(taps - 1)
      case Unlocks => Unlocks
      case Store(s) => ClickStep(s)
  }

  /** Taps 1 to 9 leave the lock closed with the button showing the number
      of taps; the tenth tap opens it, and no earlier tap does. */
  lemma {:induction false} ClickOpensAtTen(taps: nat)
    ensures taps < 10 ==> ClickAfter(taps) == Store(if taps == 0 then "" else NatToString(taps))
    ensures ClickAfter(taps).Unlocks? <==> taps >= 10
  {
    if taps > 0 {
      ClickOpensAtTen(taps - 1);
      if taps - 1 < 10 {
        var shown := if taps - 1 == 0 then "" else NatToString(taps - 1);
        DecimalRoundTrip(taps - 1);
        assert ShownCount(shown) == taps - 1;
      }
    }
  }

  // The code lock.

  /** The code the lock waits for. */
  const SecretCode: string := "1234"

  /** A new value typed into the code lock: exactly the secret code opens
      it; any other value is only stored. */
  function CodeStep(value: string): (o: Outcome)
    ensures o.Unlocks? <==> value == SecretCode
    ensures o.Store? ==> o.input == value
  {
    if value == SecretCode then Unlocks else Store(value)
  }

  // The toggle lock.

  /** The four switches, as the characters the program writes for them. */
  const Switches: string := "1234"

  function SwitchChar(k: int): (c: char)
    requires 1 <= k <= 4
    ensures c == Switches[k - 1]
  {
    DigitChar(k)
  }

  /** A toggle text holds distinct switch characters only. */
  predicate ToggleInput(s: string) {
    multiset(s) <= multiset(Switches)
  }

  /** The position of the first occurrence of `c` in `s`. */
  function FirstIndex(s: string, c: char): (k: nat)
    requires c in s
    ensures k < |s| && s[k] == c && c !in s[..k]
  {
    if s[0] == c then 0
    else
      var k := 1 + FirstIndex(s[1..], c);
      assert s[..k] == [s[0]] + s[1..][..k - 1];
      k
  }

  /** The text without the first occurrence of `c`, as String.prototype.replace
      does with a one-character pattern and an empty replacement: the first
      copy is cut out and the rest keeps its order. */
  function RemoveFirst(s: string, c: char): (r: string)
    ensures c !in s ==> r == s
    ensures c in s ==> r == s[..FirstIndex(s, c)] + s[FirstIndex(s, c) + 1..]
  {
    if s == [] then []
    else if s[0] == c then s[1..]
    else
      var t := RemoveFirst(s[1..], c);
      assert c in s[1..] ==>
        var k := FirstIndex(s[1..], c);
        && FirstIndex(s, c) == 1 + k
        && s[..1 + k] == [s[0]] + s[1..][..k]
        && s[2 + k..] == s[1..][k + 1..];
      assert c !in s[1..] ==> s == [s[0]] + s[1..];
      [s[0]] + t
  }

  /** Cutting out the element at `k` takes one copy of it from the multiset. */
  lemma CutOne(s: string, k: nat)
    requires k < |s|
    ensures multiset(s[..k] + s[k + 1..]) == multiset(s) - multiset{s[k]}
  {
    assert s == s[..k] + [s[k]] + s[k + 1..];
  }

  /** Pressing switch `c`: one copy of `c` is taken out when present,
      and one is added otherwise; nothing else changes. */
  function ToggleNext(s: string, c: char): (r: string)
    ensures c in s ==> multiset(r) == multiset(s) - multiset{c}
    ensures c !in s ==> multiset(r) == multiset(s) + multiset{c}
  {
    if c in s then
      CutOne(s, FirstIndex(s, c));
      RemoveFirst(s, c)
    else s + [c]
  }

  /** A press flips exactly the pressed switch, and keeps the text a toggle text. */
  lemma ToggleFlipsOne(s: string, k: int)
    requires ToggleInput(s) && 1 <= k <= 4
    ensures ToggleInput(ToggleNext(s, SwitchChar(k)))
    ensures forall j :: 1 <= j <= 4 ==>
      (SwitchChar(j) in ToggleNext(s, SwitchChar(k)) <==> (SwitchChar(j) in s) != (j == k))
  {
    var c := SwitchChar(k);
    var r := ToggleNext(s, c);
    var m := multiset(Switches);
    assert m == multiset{'1', '2', '3', '4'};
    if c in s {
      assert multiset(r) == multiset(s) - multiset{c};
      assert multiset(s)[c] == 1;
    } else {
      assert multiset(r) == multiset(s) + multiset{c};
    }
    forall j | 1 <= j <= 4
      ensures SwitchChar(j) in r <==> (SwitchChar(j) in s) != (j == k)
    {
      var d := SwitchChar(j);
      assert d in multiset(r) <==> d in r;
      assert d in multiset(s) <==> d in s;
      if j != k { assert d != c; }
    }
  }

  /** A toggle text is at most four long, and four long exactly when all
      four switches are on. */
  lemma ToggleFullIffAllOn(s: string)
    requires ToggleInput(s)
    ensures |s| <= 4
    ensures |s| == 4 <==> forall j :: 1 <= j <= 4 ==> SwitchChar(j) in s
  {
    var m := multiset(Switches);
    var ms := multiset(s);
    assert m == multiset{'1', '2', '3', '4'};
    assert |m| == 4;
    assert m == ms + (m - ms);
    assert |ms| == |s|;
    if forall j :: 1 <= j <= 4 ==> SwitchChar(j) in s {
      assert '1' in s && '2' in s && '3' in s && '4' in s by {
        assert SwitchChar(1) in s && SwitchChar(2) in s && SwitchChar(3) in s && SwitchChar(4) in s;
      }
      assert m <= ms;
      assert ms == m;
    }
    if |s| == 4 {
      assert |m - ms| == 0;
      assert ms == m;
      forall j | 1 <= j <= 4 ensures SwitchChar(j) in s {
        assert SwitchChar(j) in ms;
      }
    }
  }

  /** After a press on a toggle text, the new text is a toggle text and is
      four long exactly when every switch is on. */
  lemma PressKeepsToggleInput(s: string, k: int)
    requires 1 <= k <= 4
    ensures ToggleInput(s) ==> ToggleInput(ToggleNext(s, SwitchChar(k)))
    ensures ToggleInput(s) ==> |ToggleNext(s, SwitchChar(k))| <= 4
    ensures ToggleInput(s) ==>
      (|ToggleNext(s, SwitchChar(k))| == 4 <==> forall j :: 1 <= j <= 4 ==> SwitchChar(j) in ToggleNext(s, SwitchChar(k)))
  {
    if ToggleInput(s) {
      ToggleFlipsOne(s, k);
      ToggleFullIffAllOn(ToggleNext(s, SwitchChar(k)));
    }
  }

  /** One press on switch `k`: the lock opens exactly when the new text
      has all four switches on; otherwise the new text is stored, and a
      stored text never has four switches on. */
  function FlipStep(input: string, k: int): (o: Outcome)
    requires 1 <= k <= 4
    ensures ToggleInput(input) ==>
      (o.Unlocks? <==> forall j :: 1 <= j <= 4 ==> SwitchChar(j) in ToggleNext(input, SwitchChar(k)))
    ensures ToggleInput(input) && o.Store? ==>
      o.input == ToggleNext(input, SwitchChar(k)) && ToggleInput(o.input) && |o.input| < 4
  {
    var next := ToggleNext(input, SwitchChar(k));
    PressKeepsToggleInput(input, k);
    if |next| == 4 then Unlocks else Store(next)
  }
}
