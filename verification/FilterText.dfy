/** Cutting text at separators and joining it back: the single-character separators between the conditions of a
    share filter, and the longer ones between a condition's values. Each cut is undone by its join and the other
    way round. */
module FilterText {

  // ----- splitting on condition separators -----

  /** A stretch of text and the separator before it; the first piece has `|` by convention. */
  datatype Piece = Piece(text: string, sep: char)

  function Pieces(s: string, seps: set<char>): (ps: seq<Piece>)
    ensures |ps| >= 1
  {
    if s == "" then [Piece("", '|')]
    else
      var ps := Pieces(s[..|s| - 1], seps);
      var c := s[|s| - 1];
      if c in seps then ps + [Piece("", c)]
      else ps[..|ps| - 1] + [Piece(ps[|ps| - 1].text + [c], ps[|ps| - 1].sep)]
  }

  function JoinPieces(ps: seq<Piece>): string {
    if |ps| == 0 then ""
    else
      var last := ps[|ps| - 1];
      JoinPieces(ps[..|ps| - 1]) + (if |ps| == 1 then "" else [last.sep]) + last.text
  }

  ghost predicate Free(s: string, chars: set<char>) {
    forall i :: 0 <= i < |s| ==> s[i] !in chars
  }

  /** The shape of every split: pieces hold no separator, and every piece but the first follows one. */
  ghost predicate SplitShape(ps: seq<Piece>, seps: set<char>) {
    && |ps| >= 1
    && ps[0].sep == '|'
    && (forall i :: 0 <= i < |ps| ==> Free(ps[i].text, seps))
    && (forall i :: 1 <= i < |ps| ==> ps[i].sep in seps)
  }

  lemma JoinSnoc(ps: seq<Piece>, p: Piece)
    ensures JoinPieces(ps + [p]) == JoinPieces(ps) + (if |ps| == 0 then "" else [p.sep]) + p.text
  {
    assert (ps + [p])[..|ps|] == ps;
  }

  lemma {:induction false} PiecesShape(s: string, seps: set<char>)
    ensures SplitShape(Pieces(s, seps), seps)
  {
    if s != "" {
      PiecesShape(s[..|s| - 1], seps);
    }
  }

  /** Reading one more character adds it to what the pieces join to. */
  lemma JoinOfNext(ps: seq<Piece>, c: char)
    requires |ps| >= 1
    ensures JoinPieces(ps + [Piece("", c)]) == JoinPieces(ps) + [c]
    ensures var last := ps[|ps| - 1];
            JoinPieces(ps[..|ps| - 1] + [Piece(last.text + [c], last.sep)]) == JoinPieces(ps) + [c]
  {
    var init, last := ps[..|ps| - 1], ps[|ps| - 1];
    SplitLast(ps);
    JoinSnoc(ps, Piece("", c));
    JoinSnoc(init, last);
    JoinSnoc(init, Piece(last.text + [c], last.sep));
    var front := JoinPieces(init) + (if |init| == 0 then "" else [last.sep]);
    Assoc(front, last.text, [c]);
    assert JoinPieces(ps) + [c] + "" == JoinPieces(ps) + [c];
  }

  lemma {:induction false} JoinOfPieces(s: string, seps: set<char>)
    ensures JoinPieces(Pieces(s, seps)) == s
  {
    if s != "" {
      var t, c := s[..|s| - 1], s[|s| - 1];
      SplitLast(s);
      JoinOfPieces(t, seps);
      PiecesSnoc(t, c, seps);
      JoinOfNext(Pieces(t, seps), c);
    }
  }

  lemma {:induction false} PiecesAppend(s: string, c: char, t: string, seps: set<char>)
    requires c in seps && Free(t, seps)
    ensures Pieces(s + [c] + t, seps) == Pieces(s, seps) + [Piece(t, c)]
  {
    if t == "" {
      assert s + [c] + t == s + [c];
      PiecesSnoc(s, c, seps);
    } else {
      var u, d := t[..|t| - 1], t[|t| - 1];
      SplitLast(t);
      PiecesAppend(s, c, u, seps);
      PiecesSnoc(s + [c] + u, d, seps);
      Assoc(s + [c], u, [d]);
    }
  }

  lemma PiecesSnoc(s: string, c: char, seps: set<char>)
    ensures var ps := Pieces(s, seps);
            Pieces(s + [c], seps) == if c in seps then ps + [Piece("", c)]
                                     else ps[..|ps| - 1] + [Piece(ps[|ps| - 1].text + [c], ps[|ps| - 1].sep)]
  {
    assert (s + [c])[..|s|] == s;
  }

  lemma Assoc<T>(a: seq<T>, b: seq<T>, c: seq<T>)
    ensures a + b + c == a + (b + c)
  {
  }

  lemma SplitLast<T>(s: seq<T>)
    requires |s| > 0
    ensures s == s[..|s| - 1] + [s[|s| - 1]]
  {
  }

  lemma {:induction false} PiecesOfFree(t: string, seps: set<char>)
    requires Free(t, seps)
    ensures Pieces(t, seps) == [Piece(t, '|')]
  {
    if t != "" {
      SplitLast(t);
      PiecesOfFree(t[..|t| - 1], seps);
      PiecesSnoc(t[..|t| - 1], t[|t| - 1], seps);
    }
  }

  /** Splitting undoes joining. */
  lemma {:induction false} SplitOfJoin(ps: seq<Piece>, seps: set<char>)
    requires SplitShape(ps, seps)
    ensures Pieces(JoinPieces(ps), seps) == ps
  {
    var init, last := ps[..|ps| - 1], ps[|ps| - 1];
    SplitLast(ps);
    JoinSnoc(init, last);
    if |init| == 0 {
      PiecesOfFree(last.text, seps);
      assert init + [last] == [last] && JoinPieces(init) + "" + last.text == last.text;
    } else {
      SplitOfJoin(init, seps);
      PiecesAppend(JoinPieces(init), last.sep, last.text, seps);
    }
  }

  // ----- splitting a value list -----

  /** Length of the value separator starting at `i`: `,` is one character, an encoded comma three, else none. */
  function SepLen(s: string, i: nat): (n: nat)
    requires i < |s|
    ensures i + n <= |s|
  {
    if s[i] == ',' then 1
    else if i + 3 <= |s| && (s[i..i + 3] == "%2C" || s[i..i + 3] == "%2c") then 3
    else 0
  }

  datatype ValueList = ValueList(values: seq<string>, seps: seq<string>)

  function SplitValues(s: string): (r: ValueList)
    ensures |r.values| == |r.seps| + 1
    decreases |s|
  {
    if s == "" then ValueList([""], [])
    else
      var n := SepLen(s, 0);
      if n > 0 then
        var r := SplitValues(s[n..]);
        ValueList([""] + r.values, [s[..n]] + r.seps)
      else
        var r := SplitValues(s[1..]);
        ValueList([[s[0]] + r.values[0]] + r.values[1..], r.seps)
  }

  function JoinValues(values: seq<string>, seps: seq<string>): string
    requires |values| == |seps| + 1
    decreases |values|
  {
    if |seps| == 0 then values[0]
    else values[0] + seps[0] + JoinValues(values[1..], seps[1..])
  }

  predicate IsValueSep(s: string) {
    s == "," || s == "%2C" || s == "%2c"
  }

  ghost predicate NoValueSep(v: string) {
    forall i :: 0 <= i < |v| ==> SepLen(v, i) == 0
  }

  ghost predicate ValueShape(values: seq<string>, seps: seq<string>) {
    && |values| == |seps| + 1
    && (forall i :: 0 <= i < |values| ==> NoValueSep(values[i]))
    && (forall i :: 0 <= i < |seps| ==> IsValueSep(seps[i]))
  }

  lemma SepLenPrefix(v: string, w: string, i: nat)
    requires i < |v| && v <= w
    requires SepLen(w, i) == 0
    ensures SepLen(v, i) == 0
  {
    if i + 3 <= |v| {
      assert v[i..i + 3] == w[i..i + 3];
    }
  }

  lemma SepLenShift(c: char, w: string, i: nat)
    requires i < |w|
    ensures SepLen([c] + w, i + 1) == SepLen(w, i)
  {
    if i + 3 <= |w| {
      assert ([c] + w)[i + 1..i + 4] == w[i..i + 3];
    }
  }

  lemma NoValueSepCons(c: char, w: string, s: string)
    requires NoValueSep(w) && [c] + w <= s && SepLen(s, 0) == 0
    ensures NoValueSep([c] + w)
  {
    forall i | 0 <= i < |w| + 1
      ensures SepLen([c] + w, i) == 0
    {
      if i == 0 {
        SepLenPrefix([c] + w, s, 0);
      } else {
        SepLenShift(c, w, i - 1);
      }
    }
  }

  lemma SplitsAtSep(s: string)
    requires s != "" && SepLen(s, 0) > 0
    ensures var n, r := SepLen(s, 0), SplitValues(s[SepLen(s, 0)..]);
            IsValueSep(s[..n]) && SplitValues(s) == ValueList([""] + r.values, [s[..n]] + r.seps)
  {
  }

  lemma SplitsInValue(s: string)
    requires s != "" && SepLen(s, 0) == 0
    ensures var r := SplitValues(s[1..]);
            SplitValues(s) == ValueList([[s[0]] + r.values[0]] + r.values[1..], r.seps)
  {
  }

  lemma {:induction false} SplitValuesShape(s: string)
    ensures ValueShape(SplitValues(s).values, SplitValues(s).seps)
    ensures SplitValues(s).values[0] <= s
    decreases |s|
  {
    if s == "" {
      assert SplitValues(s).values == [""];
    } else if SepLen(s, 0) > 0 {
      SplitValuesShape(s[SepLen(s, 0)..]);
      ShapeAfterSep(s);
    } else {
      SplitValuesShape(s[1..]);
      ShapeInValue(s);
    }
  }

  lemma ShapeAfterSep(s: string)
    requires s != "" && SepLen(s, 0) > 0
    requires var r := SplitValues(s[SepLen(s, 0)..]); ValueShape(r.values, r.seps)
    ensures ValueShape(SplitValues(s).values, SplitValues(s).seps) && SplitValues(s).values[0] <= s
  {
    hide SplitValues;
    hide SepLen;
    SplitsAtSep(s);
  }

  lemma ShapeInValue(s: string)
    requires s != "" && SepLen(s, 0) == 0
    requires var r := SplitValues(s[1..]); ValueShape(r.values, r.seps) && r.values[0] <= s[1..]
    ensures ValueShape(SplitValues(s).values, SplitValues(s).seps) && SplitValues(s).values[0] <= s
  {
    hide SplitValues;
    hide NoValueSep;
    hide SepLen;
    SplitsInValue(s);
    var t := SplitValues(s[1..]);
    assert s == [s[0]] + s[1..];
    NoValueSepCons(s[0], t.values[0], s);
  }

  lemma JoinValuesCons(v: string, sep: string, values: seq<string>, seps: seq<string>)
    requires |values| == |seps| + 1
    ensures JoinValues([v] + values, [sep] + seps) == v + sep + JoinValues(values, seps)
  {
    assert ([v] + values)[1..] == values;
    assert ([sep] + seps)[1..] == seps;
  }

  lemma JoinValuesPrepend(c: char, values: seq<string>, seps: seq<string>)
    requires |values| == |seps| + 1
    ensures JoinValues([[c] + values[0]] + values[1..], seps) == [c] + JoinValues(values, seps)
  {
    var grown := [[c] + values[0]] + values[1..];
    if |seps| > 0 {
      assert grown[1..] == values[1..];
      var rest := JoinValues(values[1..], seps[1..]);
      assert [c] + values[0] + seps[0] + rest == [c] + (values[0] + seps[0] + rest);
    }
  }

  lemma {:induction false} JoinOfSplitValues(s: string)
    ensures JoinValues(SplitValues(s).values, SplitValues(s).seps) == s
    decreases |s|
  {
    if s != "" {
      hide SplitValues;
      hide JoinValues;
      hide SepLen;
      var n := SepLen(s, 0);
      if n > 0 {
        JoinOfSplitValues(s[n..]);
        var r := SplitValues(s[n..]);
        SplitsAtSep(s);
        JoinValuesCons("", s[..n], r.values, r.seps);
        assert "" + s[..n] + s[n..] == s;
      } else {
        JoinOfSplitValues(s[1..]);
        var r := SplitValues(s[1..]);
        SplitsInValue(s);
        JoinValuesPrepend(s[0], r.values, r.seps);
        assert [s[0]] + s[1..] == s;
      }
    }
  }

  lemma NoValueSepTail(v: string)
    requires v != "" && NoValueSep(v)
    ensures NoValueSep(v[1..])
  {
    var w := v[1..];
    assert v == [v[0]] + w;
    forall i | 0 <= i < |w|
      ensures SepLen(w, i) == 0
    {
      SepLenShift(v[0], w, i);
    }
  }

  /** No separator can start in a value and end in the separator that follows it. */
  lemma SepLenAcross(v: string, sep: string, rest: string)
    requires v != "" && NoValueSep(v) && IsValueSep(sep)
    ensures SepLen(v + sep + rest, 0) == 0
  {
    var s := v + sep + rest;
    assert SepLen(v, 0) == 0;
    assert s[0] == v[0];
    if |v| >= 3 {
      assert s[0..3] == v[0..3];
    } else if |s| >= 3 {
      var t := s[0..3];
      assert t[1] == s[1] && t[2] == s[2];
      if |v| == 1 {
        assert s[1] == sep[0];
      } else {
        assert s[2] == sep[0];
      }
    }
  }

  lemma SplitValuesAtSep(sep: string, rest: string)
    requires IsValueSep(sep)
    ensures SplitValues(sep + rest) == ValueList([""] + SplitValues(rest).values, [sep] + SplitValues(rest).seps)
  {
    var s := sep + rest;
    if |sep| == 3 {
      assert s[0..3] == sep;
    }
    assert s[|sep|..] == rest && s[..|sep|] == sep;
  }

  lemma SplitValuesAtChar(c: char, rest: string)
    requires SepLen([c] + rest, 0) == 0
    ensures var r := SplitValues(rest);
            SplitValues([c] + rest) == ValueList([[c] + r.values[0]] + r.values[1..], r.seps)
  {
    assert ([c] + rest)[1..] == rest;
  }

  /** Reading a value that holds no separator, up to a real separator, yields exactly that value. */
  lemma {:induction false} SplitValuesCons(v: string, sep: string, rest: string)
    requires NoValueSep(v) && IsValueSep(sep)
    ensures var r := SplitValues(rest);
            SplitValues(v + sep + rest) == ValueList([v] + r.values, [sep] + r.seps)
    decreases |v|
  {
    if v == "" {
      assert v + sep + rest == sep + rest;
      SplitValuesAtSep(sep, rest);
    } else {
      var c, w := v[0], v[1..];
      assert v == [c] + w;
      assert v + sep + rest == [c] + (w + sep + rest);
      SepLenAcross(v, sep, rest);
      NoValueSepTail(v);
      SplitValuesCons(w, sep, rest);
      SplitValuesAtChar(c, w + sep + rest);
      assert ([w] + SplitValues(rest).values)[1..] == SplitValues(rest).values;
    }
  }

  lemma {:induction false} SplitOneValue(v: string)
    requires NoValueSep(v)
    ensures SplitValues(v) == ValueList([v], [])
    decreases |v|
  {
    if v != "" {
      assert SepLen(v, 0) == 0;
      NoValueSepTail(v);
      SplitOneValue(v[1..]);
      assert v == [v[0]] + v[1..];
      SplitValuesAtChar(v[0], v[1..]);
    }
  }

  /** Splitting a value list undoes joining it. */
  lemma {:induction false} SplitOfJoinValues(values: seq<string>, seps: seq<string>)
    requires ValueShape(values, seps)
    ensures SplitValues(JoinValues(values, seps)) == ValueList(values, seps)
    decreases |values|
  {
    if |seps| == 0 {
      SplitOneValue(values[0]);
      assert values == [values[0]];
    } else {
      var vs, ss := values[1..], seps[1..];
      assert values == [values[0]] + vs && seps == [seps[0]] + ss;
      SplitOfJoinValues(vs, ss);
      SplitValuesCons(values[0], seps[0], JoinValues(vs, ss));
    }
  }
}
