/** The text of a share filter: conditions joined by `|` or `&`, each a field, an operator and a list of
    values. `ParseFilter` reads one and `Serialize` prints it back with exactly the separators it was read with. */
module ShareFilter {
  import opened FilterText

  datatype Result<+T> = Ok(value: T) | Err(error: FilterError)

  /** Why a filter was refused: it does not parse, Plex itself cannot read it, or a merge failed its own check. */
  datatype FilterError = Unparseable | Ambiguous | SelfCheck

  datatype Op = Is | IsNot

  /** One condition, with the separator that joins it to the previous one and those between its values. */
  datatype Condition = Condition(field: string, op: Op, values: seq<string>, sep: char, valueSeps: seq<string>)

  const CONDITION_SEPS: set<char> := {'|', '&'}
  const PIPE_SEP: set<char> := {'|'}
  const FIELD_STOPS: set<char> := {'|', '&', '='}
  const AMPERSAND: set<char> := {'&'}

  // ----- printing -----

  function Fill(sep: string, n: nat): (seps: seq<string>)
    ensures |seps| == n && forall i :: 0 <= i < n ==> seps[i] == sep
  {
    seq(n, _ => sep)
  }

  /** One separator per gap between values, repeating the last one known when a condition carries too few. */
  function PaddedSeps(c: Condition): (seps: seq<string>)
    ensures |seps| == if |c.values| == 0 then 0 else |c.values| - 1
  {
    var needed := if |c.values| == 0 then 0 else |c.values| - 1;
    if |c.valueSeps| >= needed then c.valueSeps[..needed]
    else
      var fill := if |c.valueSeps| > 0 then c.valueSeps[|c.valueSeps| - 1] else ",";
      c.valueSeps + Fill(fill, needed - |c.valueSeps|)
  }

  function JoinedValues(c: Condition): string {
    if |c.values| == 0 then "" else JoinValues(c.values, PaddedSeps(c))
  }

  function OpText(op: Op): string {
    match op
    case Is => "="
    case IsNot => "!="
  }

  function ConditionText(c: Condition): string {
    c.field + OpText(c.op) + JoinedValues(c)
  }

  function ToPieces(cs: seq<Condition>): (ps: seq<Piece>)
    ensures |ps| == |cs|
    ensures forall i :: 0 <= i < |cs| ==> ps[i] == Piece(ConditionText(cs[i]), cs[i].sep)
  {
    seq(|cs|, i requires 0 <= i < |cs| => Piece(ConditionText(cs[i]), cs[i].sep))
  }

  function Serialize(cs: seq<Condition>): string {
    JoinPieces(ToPieces(cs))
  }

  // ----- reading -----

  predicate NeAt(s: string, i: nat) {
    i + 1 < |s| && s[i] == '!' && s[i + 1] == '='
  }

  ghost predicate NoNe(s: string) {
    forall i: nat :: !NeAt(s, i)
  }

  /** Where the first `!=` at or after `i` begins, or `|s|`. */
  function FindNe(s: string, i: nat): (k: nat)
    requires i <= |s|
    ensures i <= k <= |s| && (k < |s| ==> NeAt(s, k))
    ensures forall j: nat :: i <= j < k ==> !NeAt(s, j)
    ensures k == |s| ==> forall j: nat :: i <= j ==> !NeAt(s, j)
    decreases |s| - i
  {
    if i == |s| || NeAt(s, i) then i else FindNe(s, i + 1)
  }

  /** Where the first `=` at or after `i` is, or `|s|`. */
  function FindEq(s: string, i: nat): (k: nat)
    requires i <= |s|
    ensures i <= k <= |s| && (k < |s| ==> s[k] == '=')
    ensures forall j: nat :: i <= j < k ==> s[j] != '='
    decreases |s| - i
  {
    if i == |s| || s[i] == '=' then i else FindEq(s, i + 1)
  }

  predicate Stops(s: string) {
    exists i :: 0 <= i < |s| && s[i] in FIELD_STOPS
  }

  function BuildCondition(head: string, op: Op, tail: string, sep: char): Result<Condition> {
    if Stops(head) then Err(Unparseable)
    else if tail == "" then Ok(Condition(head, op, [], sep, []))
    else
      var list := SplitValues(tail);
      Ok(Condition(head, op, list.values, sep, list.seps))
  }

  function ParseCondition(part: string, sep: char): Result<Condition> {
    var k := FindNe(part, 0);
    if k < |part| then BuildCondition(part[..k], IsNot, part[k + 2..], sep)
    else
      var e := FindEq(part, 0);
      if e < |part| then BuildCondition(part[..e], Is, part[e + 1..], sep)
      else Err(Unparseable)
  }

  function ParsePieces(ps: seq<Piece>): (r: Result<seq<Condition>>)
    ensures r.Ok? ==> |r.value| == |ps|
  {
    if |ps| == 0 then Ok([])
    else
      var init, last := ParsePieces(ps[..|ps| - 1]), ParseCondition(ps[|ps| - 1].text, ps[|ps| - 1].sep);
      if init.Ok? && last.Ok? then Ok(init.value + [last.value]) else Err(Unparseable)
  }

  predicate AllHaveOperator(ps: seq<Piece>) {
    forall i :: 0 <= i < |ps| ==> '=' in ps[i].text
  }

  /** `&` separates conditions unless that leaves a piece with no operator; then it is text inside a value. */
  function SplitConditions(raw: string): seq<Piece> {
    var greedy := Pieces(raw, CONDITION_SEPS);
    if AllHaveOperator(greedy) then greedy else Pieces(raw, PIPE_SEP)
  }

  function ParseFilter(raw: string): Result<seq<Condition>> {
    if raw == "" then Ok([]) else ParsePieces(SplitConditions(raw))
  }

  // ----- what a successful parse looks like -----

  ghost predicate CleanValues(values: seq<string>, seps: seq<string>) {
    if |values| == 0 then |seps| == 0 else ValueShape(values, seps)
  }

  /** A condition whose text reads back as itself. */
  ghost predicate Clean(c: Condition) {
    && Free(c.field, FIELD_STOPS)
    && CleanValues(c.values, c.valueSeps)
    && c.values != [""]
    && (forall i :: 0 <= i < |c.values| ==> Free(c.values[i], PIPE_SEP))
    && (c.op == Is ==>
          && (c.field != "" ==> c.field[|c.field| - 1] != '!')
          && forall i :: 0 <= i < |c.values| ==> NoNe(c.values[i]))
  }

  ghost predicate NoAmpersand(cs: seq<Condition>) {
    forall i, j :: 0 <= i < |cs| && 0 <= j < |cs[i].values| ==> Free(cs[i].values[j], AMPERSAND)
  }

  ghost predicate SepsIn(cs: seq<Condition>, seps: set<char>) {
    forall i :: 1 <= i < |cs| ==> cs[i].sep in seps
  }

  /** Exactly the condition lists that reading some filter can give. */
  ghost predicate WellFormed(cs: seq<Condition>) {
    && AllClean(cs)
    && (|cs| > 0 ==> cs[0].sep == '|')
    && ( (SepsIn(cs, CONDITION_SEPS) && NoAmpersand(cs))
         || (SepsIn(cs, PIPE_SEP) && !AllHaveOperator(Pieces(Serialize(cs), CONDITION_SEPS))))
  }

  // ----- a joined value list and its values avoid the same things -----

  lemma {:induction false} JoinFree(values: seq<string>, seps: seq<string>, chars: set<char>)
    requires |values| == |seps| + 1
    requires forall i :: 0 <= i < |seps| ==> IsValueSep(seps[i])
    requires chars !! {',', '%', '2', 'C', 'c'}
    ensures Free(JoinValues(values, seps), chars) <==> forall i :: 0 <= i < |values| ==> Free(values[i], chars)
    decreases |values|
  {
    if |seps| > 0 {
      JoinFree(values[1..], seps[1..], chars);
      var rest := JoinValues(values[1..], seps[1..]);
      assert Free(seps[0], chars);
      FreeConcat(values[0] + seps[0], rest, chars);
      FreeConcat(values[0], seps[0], chars);
      assert values == [values[0]] + values[1..];
    }
  }

  lemma FreeConcat(a: string, b: string, chars: set<char>)
    ensures Free(a + b, chars) <==> Free(a, chars) && Free(b, chars)
  {
    assert forall i :: 0 <= i < |a| ==> (a + b)[i] == a[i];
    assert forall i :: 0 <= i < |b| ==> (a + b)[|a| + i] == b[i];
  }

  /** `!=` cannot straddle `a` and `b` when `b` does not start with `=`. */
  lemma NoNeConcat(a: string, b: string)
    requires b == "" || b[0] != '='
    ensures NoNe(a + b) <==> NoNe(a) && NoNe(b)
  {
    assert forall i: nat :: NeAt(a, i) ==> NeAt(a + b, i);
    assert forall i: nat :: NeAt(b, i) ==> NeAt(a + b, |a| + i);
    forall i: nat | NeAt(a + b, i)
      ensures NeAt(a, i) || (i >= |a| && NeAt(b, i - |a|))
    {
    }
  }

  lemma {:induction false} JoinNoNe(values: seq<string>, seps: seq<string>)
    requires |values| == |seps| + 1
    requires forall i :: 0 <= i < |seps| ==> IsValueSep(seps[i])
    ensures NoNe(JoinValues(values, seps)) <==> forall i :: 0 <= i < |values| ==> NoNe(values[i])
    decreases |values|
  {
    if |seps| > 0 {
      JoinNoNe(values[1..], seps[1..]);
      var rest := JoinValues(values[1..], seps[1..]);
      var sep := seps[0];
      SepBeforeRest(sep, rest);
      NoNeConcat(values[0], sep + rest);
      assert values[0] + sep + rest == values[0] + (sep + rest);
      assert values == [values[0]] + values[1..];
    }
  }

  lemma SepBeforeRest(sep: string, rest: string)
    requires IsValueSep(sep)
    ensures NoNe(sep + rest) <==> NoNe(rest)
    ensures sep + rest != "" && (sep + rest)[0] != '='
  {
    assert forall i: nat :: NeAt(rest, i) ==> NeAt(sep + rest, |sep| + i);
    forall i: nat | NeAt(sep + rest, i)
      ensures i >= |sep| && NeAt(rest, i - |sep|)
    {
    }
  }

  // ----- reading one condition -----

  lemma ExactSeps(c: Condition)
    requires CleanValues(c.values, c.valueSeps)
    ensures PaddedSeps(c) == c.valueSeps
  {
  }

  /** An allow condition's text holds no `!=` exactly when its field and values keep clear of one. */
  lemma AllowTextNoNe(field: string, tail: string)
    requires Free(field, FIELD_STOPS)
    ensures NoNe(field + "=" + tail) <==> (field != "" ==> field[|field| - 1] != '!') && NoNe(tail)
  {
    var s := field + "=" + tail;
    assert forall i :: 0 <= i < |field| ==> s[i] == field[i] && s[i] != '=';
    assert s[|field|] == '=';
    assert forall i: nat :: NeAt(tail, i) ==> NeAt(s, |field| + 1 + i);
    if field != "" && field[|field| - 1] == '!' {
      assert NeAt(s, |field| - 1);
    }
    forall i: nat | NeAt(s, i)
      ensures i == |field| - 1 || (i > |field| && NeAt(tail, i - |field| - 1))
    {
    }
  }

  lemma BuildConditionClean(head: string, op: Op, tail: string, sep: char)
    requires Free(tail, PIPE_SEP)
    requires op == Is ==> NoNe(head + "=" + tail)
    ensures var r := BuildCondition(head, op, tail, sep);
            r.Ok? ==> Clean(r.value) && ConditionText(r.value) == head + OpText(op) + tail && r.value.sep == sep
  {
    var r := BuildCondition(head, op, tail, sep);
    if r.Ok? {
      var c := r.value;
      assert Free(head, FIELD_STOPS);
      if op == Is {
        AllowTextNoNe(head, tail);
      }
      if tail != "" {
        SplitValuesShape(tail);
        JoinOfSplitValues(tail);
        ExactSeps(c);
        JoinFree(c.values, c.valueSeps, PIPE_SEP);
        JoinNoNe(c.values, c.valueSeps);
      }
    }
  }

  lemma ParseConditionClean(part: string, sep: char)
    requires Free(part, PIPE_SEP)
    ensures var r := ParseCondition(part, sep);
            r.Ok? ==> Clean(r.value) && ConditionText(r.value) == part && r.value.sep == sep
  {
    var k := FindNe(part, 0);
    if k < |part| {
      assert part == part[..k] + "!=" + part[k + 2..];
      BuildConditionClean(part[..k], IsNot, part[k + 2..], sep);
    } else {
      var e := FindEq(part, 0);
      if e < |part| {
        assert part == part[..e] + "=" + part[e + 1..];
        BuildConditionClean(part[..e], Is, part[e + 1..], sep);
      }
    }
  }

  /** A clean condition's tail splits into its values. */
  lemma TailSplits(c: Condition)
    requires Clean(c)
    ensures var tail := JoinedValues(c);
            && (|c.values| > 0 ==> tail != "" && SplitValues(tail) == ValueList(c.values, c.valueSeps))
            && (|c.values| == 0 ==> tail == "" && c.valueSeps == [])
            && (c.op == Is ==> NoNe(tail))
  {
    hide NoValueSep;
    ExactSeps(c);
    if |c.values| > 0 {
      SplitOfJoinValues(c.values, c.valueSeps);
      JoinNoNe(c.values, c.valueSeps);
      assert JoinedValues(c) == "" ==> SplitValues(JoinedValues(c)).values == [""];
    }
  }

  lemma BuildsBack(c: Condition)
    requires Clean(c)
    ensures BuildCondition(c.field, c.op, JoinedValues(c), c.sep) == Ok(c)
  {
    hide JoinedValues;
    hide SplitValues;
    TailSplits(c);
    assert !Stops(c.field);
  }

  lemma ParseOfConditionText(c: Condition)
    requires Clean(c)
    ensures ParseCondition(ConditionText(c), c.sep) == Ok(c)
    ensures '=' in ConditionText(c)
  {
    hide JoinedValues;
    hide BuildCondition;
    hide CleanValues;
    var part := ConditionText(c);
    var tail := JoinedValues(c);
    TailSplits(c);
    BuildsBack(c);
    assert forall i :: 0 <= i < |c.field| ==> part[i] == c.field[i] && part[i] != '=';
    if c.op == IsNot {
      assert NeAt(part, |c.field|);
      assert FindNe(part, 0) == |c.field|;
      assert part[..|c.field|] == c.field && part[|c.field| + 2..] == tail;
    } else {
      AllowTextNoNe(c.field, tail);
      assert part[|c.field|] == '=';
      assert FindNe(part, 0) == |part|;
      assert FindEq(part, 0) == |c.field|;
      assert part[..|c.field|] == c.field && part[|c.field| + 1..] == tail;
    }
  }

  // ----- reading a whole filter -----

  ghost predicate AllClean(cs: seq<Condition>) {
    forall i :: 0 <= i < |cs| ==> Clean(cs[i])
  }

  lemma CleanSnoc(cs: seq<Condition>, c: Condition)
    ensures AllClean(cs + [c]) <==> AllClean(cs) && Clean(c)
    ensures ToPieces(cs + [c]) == ToPieces(cs) + [Piece(ConditionText(c), c.sep)]
  {
    assert (cs + [c])[|cs|] == c;
    assert forall i :: 0 <= i < |cs| ==> (cs + [c])[i] == cs[i];
  }

  lemma ParsePiecesSnoc(ps: seq<Piece>, p: Piece)
    ensures ParsePieces(ps + [p]) == if ParsePieces(ps).Ok? && ParseCondition(p.text, p.sep).Ok?
                                     then Ok(ParsePieces(ps).value + [ParseCondition(p.text, p.sep).value])
                                     else Err(Unparseable)
  {
    assert (ps + [p])[..|ps|] == ps;
  }

  lemma {:induction false} ParsePiecesInverts(ps: seq<Piece>)
    requires forall i :: 0 <= i < |ps| ==> Free(ps[i].text, PIPE_SEP)
    ensures ParsePieces(ps).Ok? ==> AllClean(ParsePieces(ps).value) && ToPieces(ParsePieces(ps).value) == ps
  {
    if |ps| > 0 {
      var init, last := ps[..|ps| - 1], ps[|ps| - 1];
      assert ps == init + [last];
      ParsePiecesSnoc(init, last);
      if ParsePieces(ps).Ok? {
        ParsePiecesInverts(init);
        ParseConditionClean(last.text, last.sep);
        CleanSnoc(ParsePieces(init).value, ParseCondition(last.text, last.sep).value);
      }
    }
  }

  lemma {:induction false} ParsePiecesOfClean(cs: seq<Condition>)
    requires AllClean(cs)
    ensures ParsePieces(ToPieces(cs)) == Ok(cs)
  {
    if |cs| > 0 {
      var init, last := cs[..|cs| - 1], cs[|cs| - 1];
      assert cs == init + [last];
      CleanSnoc(init, last);
      ParsePiecesOfClean(init);
      ParseOfConditionText(last);
      ParsePiecesSnoc(ToPieces(init), Piece(ConditionText(last), last.sep));
    }
  }

  lemma CleanHasOperator(cs: seq<Condition>)
    requires AllClean(cs)
    ensures AllHaveOperator(ToPieces(cs))
  {
    forall i | 0 <= i < |cs|
      ensures '=' in ConditionText(cs[i])
    {
      ParseOfConditionText(cs[i]);
    }
  }

  lemma SerializeNonEmpty(cs: seq<Condition>)
    requires |cs| > 0 && Clean(cs[|cs| - 1])
    ensures Serialize(cs) != ""
  {
    ParseOfConditionText(cs[|cs| - 1]);
  }

  /** A clean condition's text avoids exactly what its values avoid, among `|` and `&`. */
  lemma TextFree(c: Condition, chars: set<char>)
    requires Clean(c) && chars <= CONDITION_SEPS
    ensures Free(ConditionText(c), chars) <==> forall i :: 0 <= i < |c.values| ==> Free(c.values[i], chars)
  {
    ExactSeps(c);
    if |c.values| > 0 {
      JoinFree(c.values, c.valueSeps, chars);
    }
    FreeConcat(c.field + OpText(c.op), JoinedValues(c), chars);
    FreeConcat(c.field, OpText(c.op), chars);
  }

  lemma FreeBoth(s: string)
    ensures Free(s, CONDITION_SEPS) <==> Free(s, PIPE_SEP) && Free(s, AMPERSAND)
  {
  }

  /** When the pieces of a filter hold no `&`, neither do the values read from them. */
  lemma NoAmpersandFromPieces(cs: seq<Condition>)
    requires AllClean(cs)
    requires forall i :: 0 <= i < |cs| ==> Free(ConditionText(cs[i]), AMPERSAND)
    ensures NoAmpersand(cs)
  {
    forall i, j | 0 <= i < |cs| && 0 <= j < |cs[i].values|
      ensures Free(cs[i].values[j], AMPERSAND)
    {
      TextFree(cs[i], AMPERSAND);
    }
  }

  lemma SplitIsPipeFree(raw: string)
    ensures forall i :: 0 <= i < |SplitConditions(raw)| ==> Free(SplitConditions(raw)[i].text, PIPE_SEP)
    ensures JoinPieces(SplitConditions(raw)) == raw
  {
    PiecesShape(raw, CONDITION_SEPS);
    PiecesShape(raw, PIPE_SEP);
    JoinOfPieces(raw, CONDITION_SEPS);
    JoinOfPieces(raw, PIPE_SEP);
  }

  lemma ParsedSeps(raw: string, cs: seq<Condition>)
    requires AllClean(cs) && ToPieces(cs) == SplitConditions(raw)
    requires Serialize(cs) == raw
    ensures WellFormed(cs)
  {
    var ps := ToPieces(cs);
    PiecesShape(raw, CONDITION_SEPS);
    PiecesShape(raw, PIPE_SEP);
    assert forall i :: 0 <= i < |cs| ==> cs[i].sep == ps[i].sep && ConditionText(cs[i]) == ps[i].text;
    if AllHaveOperator(Pieces(raw, CONDITION_SEPS)) {
      NoAmpersandFromPieces(cs);
    }
  }

  /** Printing what was read gives back the exact text, and what was read is well formed. */
  lemma ParseRoundTrip(raw: string)
    requires ParseFilter(raw).Ok?
    ensures Serialize(ParseFilter(raw).value) == raw
    ensures WellFormed(ParseFilter(raw).value)
  {
    if raw != "" {
      SplitIsPipeFree(raw);
      ParsePiecesInverts(SplitConditions(raw));
      ParsedSeps(raw, ParseFilter(raw).value);
    }
  }

  /** Reading what was printed gives back the exact conditions. */
  lemma SerializeRoundTrip(cs: seq<Condition>)
    requires WellFormed(cs)
    ensures ParseFilter(Serialize(cs)) == Ok(cs)
  {
    if |cs| > 0 {
      var raw := Serialize(cs);
      var ps := ToPieces(cs);
      SerializeNonEmpty(cs);
      ParsePiecesOfClean(cs);
      CleanHasOperator(cs);
      var amp := !(SepsIn(cs, CONDITION_SEPS) && NoAmpersand(cs));
      var seps := if amp then PIPE_SEP else CONDITION_SEPS;
      forall i | 0 <= i < |ps|
        ensures Free(ps[i].text, seps)
      {
        TextFree(cs[i], PIPE_SEP);
        TextFree(cs[i], AMPERSAND);
        FreeBoth(ps[i].text);
      }
      SplitOfJoin(ps, seps);
    }
  }

  /** Reading is a bijection between the filters that parse and the well-formed condition lists. */
  lemma ParseIsBijective(raw: string, cs: seq<Condition>)
    ensures ParseFilter(raw) == Ok(cs) <==> WellFormed(cs) && Serialize(cs) == raw
  {
    if ParseFilter(raw) == Ok(cs) {
      ParseRoundTrip(raw);
    }
    if WellFormed(cs) && Serialize(cs) == raw {
      SerializeRoundTrip(cs);
    }
  }
}
