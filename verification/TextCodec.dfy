/** One way of reading label text, close to Python's: percent-decoding, lower-casing, and a case-folding that equates
    more than lower-casing does. */
module TextCodec {
  import opened MergeTheorems
  import opened SyncPrune

  const PREFIX := "shortlist"
  const SHARED_PREFIX := "shortlist__shared_"

  /** A long `s`, which folds to `s` and lower-cases to itself. */
  const LONG_S := '\U{17F}'

  // ----- percent-decoding of ASCII -----

  function HexValue(c: char): int {
    if '0' <= c <= '9' then c as int - '0' as int
    else if 'a' <= c <= 'f' then c as int - 'a' as int + 10
    else if 'A' <= c <= 'F' then c as int - 'A' as int + 10
    else -1
  }

  /** The text opens with an encoded ASCII character. */
  predicate EscapeFirst(s: string) {
    |s| >= 3 && s[0] == '%' && 0 <= HexValue(s[1]) < 8 && HexValue(s[2]) >= 0
  }

  function Decode(s: string): (d: string)
    ensures |d| <= |s|
  {
    if |s| == 0 then ""
    else if EscapeFirst(s) then [(16 * HexValue(s[1]) + HexValue(s[2])) as char] + Decode(s[3..])
    else [s[0]] + Decode(s[1..])
  }

  const HEX := "0123456789abcdef"
  const UPPER_HEX := "0123456789ABCDEF"

  lemma HexTexts()
    ensures forall d: nat :: d < 10 ==> HEX[d] == ('0' as int + d) as char == UPPER_HEX[d]
    ensures forall d: nat :: 10 <= d < 16 ==>
              HEX[d] == ('a' as int + d - 10) as char && UPPER_HEX[d] == ('A' as int + d - 10) as char
  {
    assert HEX[0] == '0' && HEX[1] == '1' && HEX[2] == '2' && HEX[3] == '3' && HEX[4] == '4' && HEX[5] == '5'
           && HEX[6] == '6' && HEX[7] == '7' && HEX[8] == '8' && HEX[9] == '9' && HEX[10] == 'a' && HEX[11] == 'b'
           && HEX[12] == 'c' && HEX[13] == 'd' && HEX[14] == 'e' && HEX[15] == 'f';
    assert UPPER_HEX[..10] == HEX[..10];
    assert forall d: nat :: d < 10 ==> UPPER_HEX[d] == UPPER_HEX[..10][d] && HEX[d] == HEX[..10][d];
    assert UPPER_HEX[10] == 'A' && UPPER_HEX[11] == 'B' && UPPER_HEX[12] == 'C' && UPPER_HEX[13] == 'D'
           && UPPER_HEX[14] == 'E' && UPPER_HEX[15] == 'F';
  }

  lemma HexDigits(c: char, d: nat)
    requires d < 16
    ensures HexValue(c) == d <==> c == HEX[d] || c == UPPER_HEX[d]
  {
    hide HEX;
    hide UPPER_HEX;
    HexTexts();
  }

  lemma HexBounds(c: char)
    ensures -1 <= HexValue(c) < 16
  {
  }

  ghost predicate OpensWith(s: string, c: nat)
    requires c < 128
  {
    && |s| >= 3 && s[0] == '%'
    && s[1] in {HEX[c / 16], UPPER_HEX[c / 16]} && s[2] in {HEX[c % 16], UPPER_HEX[c % 16]}
  }

  lemma OpensExactly(s: string, c: nat)
    requires c < 128
    ensures OpensWith(s, c) <==> EscapeFirst(s) && 16 * HexValue(s[1]) + HexValue(s[2]) == c
  {
    hide HexValue;
    hide HEX;
    hide UPPER_HEX;
    if |s| >= 3 {
      HexBounds(s[1]);
      HexBounds(s[2]);
      HexDigits(s[1], c / 16);
      HexDigits(s[2], c % 16);
    }
  }

  /** A text decodes at its front exactly when that is the escape of an ASCII character, its digits in either case. */
  lemma DecodesAtFront(s: string)
    requires |s| > 0
    ensures forall c: nat :: c < 128 && OpensWith(s, c) ==> Decode(s) == [c as char] + Decode(s[3..])
    ensures (forall c: nat :: c < 128 ==> !OpensWith(s, c)) ==> Decode(s) == [s[0]] + Decode(s[1..])
  {
    hide HexValue;
    hide OpensWith;
    forall c: nat | c < 128
      ensures OpensWith(s, c) <==> EscapeFirst(s) && 16 * HexValue(s[1]) + HexValue(s[2]) == c
    {
      OpensExactly(s, c);
    }
    if EscapeFirst(s) {
      HexBounds(s[2]);
      var c: nat := 16 * HexValue(s[1]) + HexValue(s[2]);
      assert OpensWith(s, c);
    }
  }

  // ----- lower-casing and folding -----

  function LowerChar(c: char): char {
    if 'A' <= c <= 'Z' then (c as int + 32) as char else c
  }

  /** Lower-casing changes the 26 capitals alone, each to its small letter. */
  lemma LowersCapitals(c: char)
    ensures var place := c as int - 'A' as int;
            LowerChar(c) == if place < 0 || place >= 26 then c else ('a' as int + place) as char
  {
  }

  /** What folding does beyond lower-casing. */
  function Unlong(c: char): char {
    if c == LONG_S then 's' else c
  }

  function Lower(s: string): (l: string)
    ensures |l| == |s| && forall i :: 0 <= i < |s| ==> l[i] == LowerChar(s[i])
  {
    seq(|s|, i requires 0 <= i < |s| => LowerChar(s[i]))
  }

  function Fold(s: string): (f: string)
    ensures |f| == |s| && forall i :: 0 <= i < |s| ==> f[i] == Unlong(LowerChar(s[i]))
  {
    seq(|s|, i requires 0 <= i < |s| => Unlong(LowerChar(s[i])))
  }

  /** Lower-case text without a long `s` lower-cases and folds to itself. */
  lemma SameLetters(w: string)
    requires forall i :: 0 <= i < |w| ==> LowerChar(w[i]) == w[i] != LONG_S
    ensures Lower(w) == w == Fold(w)
  {
  }

  function Shortlist(): Codec {
    Codec(Decode, Lower, Fold, PREFIX, SHARED_PREFIX)
  }

  // ----- it meets what the sync asks of a codec -----

  lemma DecodesFirst(s: string)
    requires |s| > 0 && !EscapeFirst(s)
    ensures Decode(s) == [s[0]] + Decode(s[1..])
  {
  }

  lemma PlainStartsUnescaped(s: string)
    requires Decode(s) == s
    ensures !EscapeFirst(s)
  {
  }

  lemma AlikeStarts(a: string, b: string)
    requires Lower(a) == Lower(b)
    ensures |a| == |b| && (EscapeFirst(a) <==> EscapeFirst(b))
    ensures |a| > 0 ==> Lower(a[1..]) == Lower(b[1..])
  {
    assert |a| >= 3 ==> Lower(a)[0] == Lower(b)[0] && Lower(a)[1] == Lower(b)[1] && Lower(a)[2] == Lower(b)[2];
    if |a| > 0 {
      forall i | 0 <= i < |a| - 1
        ensures Lower(a[1..])[i] == Lower(b[1..])[i]
      {
        assert Lower(a)[i + 1] == Lower(b)[i + 1];
      }
    }
  }

  lemma {:induction false} AlikeIsPlain(a: string, b: string)
    requires Lower(a) == Lower(b) && Decode(b) == b
    ensures Decode(a) == a
  {
    hide Decode;
    hide EscapeFirst;
    hide Lower;
    AlikeStarts(a, b);
    if |b| > 0 {
      PlainStartsUnescaped(b);
      DecodesFirst(a);
      DecodesFirst(b);
      assert Decode(b)[1..] == Decode(b[1..]);
      AlikeIsPlain(a[1..], b[1..]);
    } else {
      NothingEncoded(a);
    }
  }

  lemma AlikeFoldsAlike(a: string, b: string)
    requires Lower(a) == Lower(b)
    ensures Fold(a) == Fold(b)
  {
    forall i | 0 <= i < |a|
      ensures Fold(a)[i] == Fold(b)[i]
    {
      assert Lower(a)[i] == Lower(b)[i];
    }
  }

  lemma {:induction false} NothingEncoded(s: string)
    requires forall i :: 0 <= i < |s| ==> s[i] != '%'
    ensures Decode(s) == s
  {
    if |s| > 0 {
      NothingEncoded(s[1..]);
    }
  }

  lemma {:induction false} DecodesPlainStart(a: string, b: string)
    requires forall i :: 0 <= i < |a| ==> a[i] != '%'
    ensures Decode(a + b) == a + Decode(b)
  {
    hide Decode;
    if |a| > 0 {
      DecodesFirst(a + b);
      assert (a + b)[1..] == a[1..] + b;
      DecodesPlainStart(a[1..], b);
      assert [a[0]] + (a[1..] + Decode(b)) == a + Decode(b);
    } else {
      assert a + b == b;
    }
  }

  lemma LowerCons(c: char, s: string)
    ensures Lower([c] + s) == [LowerChar(c)] + Lower(s)
  {
  }

  /** Text in plain sight survives decoding. */
  lemma {:induction false} DecodeKeepsStart(p: string, s: string)
    requires p <= Lower(s) && forall i :: 0 <= i < |p| ==> p[i] != '%'
    ensures p <= Lower(Decode(s))
  {
    hide Decode;
    hide Lower;
    if |p| > 0 {
      assert s == [s[0]] + s[1..] && Lower(s)[0] == p[0];
      LowerCons(s[0], s[1..]);
      DecodesFirst(s);
      DecodeKeepsStart(p[1..], s[1..]);
      LowerCons(s[0], Decode(s[1..]));
      assert p == [p[0]] + p[1..];
    }
  }

  lemma FoldKeepsStart(p: string, s: string)
    requires p <= Lower(s) && forall i :: 0 <= i < |p| ==> p[i] != LONG_S
    ensures p <= Fold(s)
  {
    forall i | 0 <= i < |p|
      ensures Fold(s)[i] == p[i]
    {
      assert Lower(s)[i] == p[i];
    }
  }

  lemma SharedPrefixInSight(s: string)
    requires SHARED_PREFIX <= Lower(s)
    ensures SHARED_PREFIX <= Fold(Decode(s))
  {
    hide Decode;
    hide Lower;
    hide Fold;
    assert forall i :: 0 <= i < |SHARED_PREFIX| ==> SHARED_PREFIX[i] !in {'%', LONG_S};
    DecodeKeepsStart(SHARED_PREFIX, s);
    FoldKeepsStart(SHARED_PREFIX, Decode(s));
  }

  lemma PrefixIsLower()
    ensures Lower(SHARED_PREFIX) == SHARED_PREFIX && Lower(PREFIX + "_") == PREFIX + "_"
  {
    assert forall i :: 0 <= i < |SHARED_PREFIX| ==> LowerChar(SHARED_PREFIX[i]) == SHARED_PREFIX[i];
  }

  lemma ShortlistIsFaithful()
    ensures Faithful(Shortlist()) && SaneNaming(NamingOf(Shortlist()))
  {
    PrefixIsLower();
    forall a, b | PlainLabel(Shortlist(), b) && Lower(a) == Lower(b)
      ensures Norm(Shortlist(), a) == Norm(Shortlist(), b)
    {
      AlikeIsPlain(a, b);
      AlikeFoldsAlike(a, b);
    }
    forall a | SHARED_PREFIX <= Lower(a)
      ensures SHARED_PREFIX <= Norm(Shortlist(), a)
    {
      SharedPrefixInSight(a);
    }
  }
}
