/** The invisible marker that says whose a row is: an account id in 64 zero-width characters at a title's end. */
module TitleMarker {
  import opened Options

  /** A zero-width space for 0, a zero-width non-joiner for 1. */
  const ZERO := '\U{200B}'
  const ONE := '\U{200C}'
  const WIDTH := 64

  function Pow2(n: nat): nat {
    if n == 0 then 1 else 2 * Pow2(n - 1)
  }

  /** The id shifted right, as Python shifts: towards minus infinity. */
  function Shift(id: int, bit: nat): int {
    if bit == 0 then id else Shift(id, bit - 1) / 2
  }

  function Digit(id: int, bit: nat): char {
    if Shift(id, bit) % 2 == 0 then ZERO else ONE
  }

  function RowMarker(id: int): (marker: string)
    ensures |marker| == WIDTH
  {
    seq(WIDTH, bit requires 0 <= bit => Digit(id, bit))
  }

  predicate Invisible(s: string) {
    forall i :: 0 <= i < |s| ==> s[i] == ZERO || s[i] == ONE
  }

  /** The last 64 characters of a title, or all of a shorter one. */
  function Suffix(title: string): string {
    if |title| < WIDTH then title else title[|title| - WIDTH..]
  }

  function StripMarker(title: string): string {
    var suffix := Suffix(title);
    if |suffix| == WIDTH && Invisible(suffix) then title[..|title| - WIDTH] else title
  }

  predicate HasMarker(title: string) {
    StripMarker(title) != title
  }

  /** The powers of two of the ones in `s` from `bit` on. */
  function SumBits(s: string, bit: nat): nat
    requires bit <= |s|
    decreases |s| - bit
  {
    if bit == |s| then 0 else (if s[bit] == ONE then Pow2(bit) else 0) + SumBits(s, bit + 1)
  }

  function MarkerAccount(title: string): Option<int> {
    if !HasMarker(title) then None else Some(SumBits(Suffix(title), 0))
  }

  // ----- the code as a number written from its lowest digit -----

  /** `n` binary digits, lowest first. */
  function Digits(id: int, n: nat): (s: string)
    ensures |s| == n && Invisible(s)
    decreases n
  {
    if n == 0 then "" else [if id % 2 == 0 then ZERO else ONE] + Digits(id / 2, n - 1)
  }

  function Value(s: string): nat {
    if |s| == 0 then 0 else (if s[0] == ONE then 1 else 0) + 2 * Value(s[1..])
  }

  lemma {:induction false} ShiftLater(id: int, bit: nat)
    ensures Shift(id, bit + 1) == Shift(id / 2, bit)
  {
    if bit > 0 {
      ShiftLater(id, bit - 1);
    }
  }

  lemma {:induction false} DigitAt(id: int, n: nat, bit: nat)
    requires bit < n
    ensures Digits(id, n)[bit] == Digit(id, bit)
    decreases n
  {
    if bit > 0 {
      DigitAt(id / 2, n - 1, bit - 1);
      ShiftLater(id, bit - 1);
    }
  }

  lemma MarkerIsDigits(id: int)
    ensures RowMarker(id) == Digits(id, WIDTH)
  {
    forall bit | 0 <= bit < WIDTH
      ensures RowMarker(id)[bit] == Digits(id, WIDTH)[bit]
    {
      DigitAt(id, WIDTH, bit);
    }
  }

  lemma {:induction false} SumIsValue(s: string, bit: nat)
    requires bit <= |s|
    ensures SumBits(s, bit) == Pow2(bit) * Value(s[bit..])
    decreases |s| - bit
  {
    if bit < |s| {
      SumIsValue(s, bit + 1);
      assert s[bit..][1..] == s[bit + 1..];
      assert s[bit..][0] == s[bit];
      hide Value;
      Doubled(Pow2(bit), Value(s[bit + 1..]));
    }
  }

  lemma Doubled(p: nat, v: nat)
    ensures p * (2 * v) == 2 * p * v && p * (1 + 2 * v) == p + 2 * p * v
  {
  }

  lemma SumOfAll(s: string)
    ensures SumBits(s, 0) == Value(s)
  {
    SumIsValue(s, 0);
    assert s[0..] == s;
  }

  lemma {:induction false} ValueOfDigits(id: int, n: nat)
    ensures Value(Digits(id, n)) == id <==> 0 <= id < Pow2(n)
    decreases n
  {
    if n > 0 {
      ValueOfDigits(id / 2, n - 1);
      assert Digits(id, n)[1..] == Digits(id / 2, n - 1);
    }
  }

  lemma {:induction false} DigitsOfValue(s: string)
    requires Invisible(s)
    ensures Digits(Value(s), |s|) == s
  {
    if |s| > 0 {
      DigitsOfValue(s[1..]);
      assert Value(s) / 2 == Value(s[1..]);
      assert s == [s[0]] + s[1..];
    }
  }

  // ----- what the marker promises -----

  lemma {:induction false} PowersTogether(m: nat, n: nat)
    ensures Pow2(m + n) == Pow2(m) * Pow2(n)
  {
    if m > 0 {
      PowersTogether(m - 1, n);
    }
  }

  lemma SixtyFour()
    ensures Pow2(WIDTH) == 0x1_0000_0000_0000_0000
  {
    assert Pow2(4) == 16;
    PowersTogether(4, 4);
    PowersTogether(8, 8);
    PowersTogether(16, 16);
    PowersTogether(32, 32);
  }

  /** Bit by bit from the lowest, a zero-width non-joiner for each one and a zero-width space for each nought. */
  lemma MarkerBits(id: int, bit: nat)
    requires bit < 64
    ensures |RowMarker(id)| == 64
    ensures RowMarker(id)[bit] == if Shift(id, bit) % 2 == 1 then '\U{200C}' else '\U{200B}'
  {
  }

  lemma SuffixOfMarked(display: string, id: int)
    ensures Suffix(display + RowMarker(id)) == RowMarker(id) && Invisible(RowMarker(id))
    ensures StripMarker(display + RowMarker(id)) == display && HasMarker(display + RowMarker(id))
  {
    var title := display + RowMarker(id);
    MarkerIsDigits(id);
    assert title[|title| - WIDTH..] == RowMarker(id);
    assert title[..|title| - WIDTH] == display;
    assert |StripMarker(title)| < |title|;
  }

  /** Stripping a marked title gives back its display title, even one that itself ends invisibly. */
  lemma StripUndoesMark(display: string, id: int)
    ensures StripMarker(display + RowMarker(id)) == display && HasMarker(display + RowMarker(id))
  {
    SuffixOfMarked(display, id);
  }

  /** A marked title gives back its account id exactly when the id fits in 64 bits. */
  lemma AccountOfMarked(display: string, id: int)
    ensures MarkerAccount(display + RowMarker(id)) == Some(id) <==> 0 <= id < 0x1_0000_0000_0000_0000
  {
    SixtyFour();
    hide Pow2;
    hide Digits;
    hide SumBits;
    hide Value;
    hide RowMarker;
    hide StripMarker;
    SuffixOfMarked(display, id);
    MarkerIsDigits(id);
    SumOfAll(RowMarker(id));
    ValueOfDigits(id, WIDTH);
  }

  /** Two marked titles are the same only for the same account and the same display title. */
  lemma MarkedTitlesDiffer(a: string, i: int, b: string, j: int)
    requires 0 <= i < 0x1_0000_0000_0000_0000 && 0 <= j < 0x1_0000_0000_0000_0000
    ensures a + RowMarker(i) == b + RowMarker(j) <==> a == b && i == j
  {
    if a + RowMarker(i) == b + RowMarker(j) {
      StripUndoesMark(a, i);
      StripUndoesMark(b, j);
      AccountOfMarked(a, i);
      AccountOfMarked(b, j);
    }
  }

  /** Every title that carries a marker is one this code wrote: its display title, marked for its account. */
  lemma MarkedTitleRebuilds(title: string)
    requires HasMarker(title)
    ensures MarkerAccount(title).Some? && 0 <= MarkerAccount(title).value < 0x1_0000_0000_0000_0000
    ensures title == StripMarker(title) + RowMarker(MarkerAccount(title).value)
  {
    SixtyFour();
    hide Pow2;
    hide Digits;
    hide SumBits;
    hide Value;
    hide RowMarker;
    var suffix := Suffix(title);
    SumOfAll(suffix);
    DigitsOfValue(suffix);
    ValueOfDigits(Value(suffix), WIDTH);
    MarkerIsDigits(Value(suffix));
    assert title == title[..|title| - WIDTH] + suffix;
  }
}
