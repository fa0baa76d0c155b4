/** Concrete filters at which the program falls short of what it promises, with labels read as it reads them. */
module Counterexamples {
  import opened Options
  import opened FilterText
  import opened ShareFilter
  import opened FilterSemantics
  import opened FilterEdits
  import opened FilterMerge
  import opened MergeTheorems
  import opened MergeStability
  import opened PassShape
  import opened SharePlan
  import opened PlanSteps
  import opened PlanPasses
  import opened SyncPrune
  import opened TextCodec

  // ----- labels -----

  function Label(x: char): string {
    "shortlist_" + [x]
  }

  function Labels(): Naming {
    NamingOf(Shortlist())
  }

  /** A label of ours reads as itself. */
  lemma LabelReads(x: char)
    requires 'a' <= x <= 'z'
    ensures Decode(Label(x)) == Label(x) && Fold(Label(x)) == Label(x) && IsOurs(Shortlist(), Label(x))
    ensures ShortlistLabel(Labels(), Label(x))
  {
    hide Decode;
    hide NoValueSep;
    hide Free;
    hide NoNe;
    var w := Label(x);
    LabelChars(x);
    NothingEncoded(w);
    PlainText(w);
    PrefixIsLower();
    assert PREFIX + "_" == "shortlist_" <= w;
    SameLetters(w);
  }

  lemma LabelChars(x: char)
    requires 'a' <= x <= 'z'
    ensures forall i :: 0 <= i < |Label(x)| ==>
              Label(x)[i] !in {'%', ',', '|', '&', '=', '!', LONG_S} && LowerChar(Label(x)[i]) == Label(x)[i]
  {
  }

  function Hiding(values: seq<string>, sep: char): Condition {
    Condition("label", IsNot, values, sep, [])
  }

  /** A clause of ours alone leaves nothing behind. */
  lemma LoneLabel(n: Naming, v: string, sep: char)
    requires n.ours(v)
    ensures OursAlone(n, Hiding([v], sep))
  {
    assert [v][..0] == [];
    assert Survivors([v][..0], [], n.ours).values == [];
    assert Mine(n, [v][..0]) == [];
    assert Mine(n, [v]) == [v];
  }

  /** A `label!=` clause of nothing but our labels. */
  predicate OursAlone(n: Naming, c: Condition) {
    IsExclude(c) && Mine(n, c.values) != [] && WithoutValues(c, n.ours) == None
  }

  // ----- clauses of ours at the front -----

  /** Clauses of ours joined by `&`, and behind them a `|` and a condition of the owner's. */
  ghost predicate FrontThenPipe(n: Naming, cs: seq<Condition>) {
    && |cs| >= 2 && (forall i :: 0 <= i < |cs| - 1 ==> OursAlone(n, cs[i]))
    && (forall i :: 1 <= i < |cs| - 1 ==> cs[i].sep == '&')
    && cs[|cs| - 1].sep == '|' && !IsExclude(cs[|cs| - 1])
  }

  lemma FrontVoided(n: Naming, cs: seq<Condition>, i: nat)
    requires FrontThenPipe(n, cs) && i < |cs|
    ensures Unenforced(n, cs, i) <==> i < |cs| - 1
    ensures LiftEdit(n, cs, i) == if i == 0 then None else Some(cs[i])
  {
    if i < |cs| - 1 {
      assert OursAlone(n, cs[i]);
      assert cs[|cs| - 1].sep != '&';
    }
  }

  lemma {:induction false} FrontRunFrom(n: Naming, cs: seq<Condition>, k: nat)
    requires k < |cs| && (forall i :: 0 <= i < |cs| ==> (Unenforced(n, cs, i) <==> i < |cs| - 1))
    ensures VoidedRun(n, cs, k) == |cs| - 1 - k
    decreases |cs| - k
  {
    if k < |cs| - 1 {
      FrontRunFrom(n, cs, k + 1);
    }
  }

  lemma FrontLosesFirst(n: Naming, cs: seq<Condition>)
    requires FrontThenPipe(n, cs) && |cs| > 2
    ensures Lifted(n, cs) == cs[1..] && FrontThenPipe(n, cs[1..])
  {
    hide OursAlone;
    forall i | 0 <= i < |cs|
      ensures LiftEdits(n, cs)[i] == if i == 0 then None else Some(cs[i])
    {
      FrontVoided(n, cs, i);
    }
    CollectWithoutFirst(cs, LiftEdits(n, cs));
    assert forall i :: 0 <= i < |cs| - 1 ==> cs[1..][i] == cs[i + 1];
  }

  lemma FrontLifts(n: Naming, cs: seq<Condition>)
    requires FrontThenPipe(n, cs) && |cs| > 2
    ensures Lifted(n, cs) == cs[1..] && FrontRun(n, cs) == |cs| - 2
    ensures forall i :: 0 <= i < |cs| - 1 ==> !IsTarget(cs[1..], i)
  {
    hide Lifted;
    hide OursAlone;
    FrontLosesFirst(n, cs);
    var kept := cs[1..];
    forall i | 0 <= i < |kept|
      ensures (Unenforced(n, kept, i) <==> i < |kept| - 1) && !IsTarget(kept, i)
    {
      FrontVoided(n, kept, i);
    }
    FrontRunFrom(n, kept, 0);
  }

  // ----- such filters -----

  const RATING := Condition("contentRating", IsNot, ["R"], '|', [])

  /** `label!=shortlist_x` for each letter, joined by `&`, and then the owner's `|contentRating!=R`. */
  function Fronted(letters: string): (cs: seq<Condition>)
    ensures |cs| == |letters| + 1
  {
    seq(|letters|, i requires 0 <= i < |letters| => Hiding([Label(letters[i])], if i == 0 then '|' else '&')) + [RATING]
  }

  /** A clause of text that separates nothing. */
  lemma PlainClause(c: Condition, v: string)
    requires c.field in {"label", "contentRating"} && c.op == IsNot && c.values == [v] && c.valueSeps == [] && v != ""
    requires forall j :: 0 <= j < |v| ==> v[j] !in {',', '%', '|', '&', '='}
    ensures Clean(c) && AmpersandFree(c)
  {
  }

  lemma LabelOurs(x: char)
    requires 'a' <= x <= 'z'
    ensures Labels().ours(Label(x))
  {
    hide IsOurs;
    hide Label;
    hide ShortlistLabel;
    hide Decode;
    LabelReads(x);
  }

  lemma FrontedClean(letters: string, i: nat)
    requires (forall j :: 0 <= j < |letters| ==> 'a' <= letters[j] <= 'z') && i <= |letters|
    ensures Clean(Fronted(letters)[i]) && AmpersandFree(Fronted(letters)[i])
    ensures i < |letters| ==> OursAlone(Labels(), Fronted(letters)[i])
  {
    hide Clean;
    hide AmpersandFree;
    hide OursAlone;
    hide Label;
    hide Labels;
    if i < |letters| {
      LabelChars(letters[i]);
      LabelOurs(letters[i]);
      LabelNotBlank(letters[i]);
      PlainClause(Fronted(letters)[i], Label(letters[i]));
      LoneLabel(Labels(), Label(letters[i]), Fronted(letters)[i].sep);
    } else {
      PlainClause(RATING, "R");
    }
  }

  lemma LabelNotBlank(x: char)
    ensures Label(x) != ""
  {
  }

  lemma FrontedReads(letters: string)
    requires |letters| > 0 && forall j :: 0 <= j < |letters| ==> 'a' <= letters[j] <= 'z'
    ensures ParseFilter(Serialize(Fronted(letters))) == Ok(Fronted(letters)) && !LiteralAmpersand(Fronted(letters))
    ensures FrontThenPipe(Labels(), Fronted(letters))
  {
    hide OursAlone;
    hide Clean;
    hide Label;
    hide Labels;
    hide LiteralAmpersand;
    hide Serialize;
    hide ParseFilter;
    var cs := Fronted(letters);
    forall i | 0 <= i < |cs|
      ensures Clean(cs[i]) && AmpersandFree(cs[i])
      ensures i < |letters| ==> OursAlone(Labels(), cs[i])
    {
      FrontedClean(letters, i);
    }
    assert NoAmpersand(cs);
    SerializeRoundTrip(cs);
    NoLiteralAmpersand(cs);
  }

  function LabelsFor(letters: string): (labels: seq<string>)
    ensures |labels| == |letters| && forall i :: 0 <= i < |letters| ==> labels[i] == Label(letters[i])
  {
    seq(|letters|, i requires 0 <= i < |letters| => Label(letters[i]))
  }

  lemma LabelsWritable(letters: string)
    requires forall j :: 0 <= j < |letters| ==> 'a' <= letters[j] <= 'z'
    ensures ShortlistLabels(Labels(), LabelsFor(letters)) && SaneNaming(Labels())
  {
    ShortlistIsFaithful();
    forall i | 0 <= i < |letters|
      ensures ShortlistLabel(Labels(), LabelsFor(letters)[i])
    {
      LabelReads(letters[i]);
    }
  }

  /** Merging once does not settle a filter in which two clauses of ours, joined by `&`, lead a `|`. */
  lemma MergeNeedsASecondPass() returns (raw: string, wanted: seq<string>)
    ensures ShortlistLabels(Labels(), wanted) && Merge(Labels(), raw, wanted).Ok?
    ensures Merge(Labels(), Merge(Labels(), raw, wanted).value, wanted) != Merge(Labels(), raw, wanted)
  {
    hide FrontThenPipe;
    hide Merge;
    var n, cs := Labels(), Fronted("ab");
    raw, wanted := Serialize(cs), LabelsFor("ab");
    LabelsWritable("ab");
    FrontedReads("ab");
    FrontLifts(n, cs);
    MergeNeverFailsItsCheck(n, raw, wanted);
    MergeIsIdempotent(n, raw, wanted);
  }

  // ----- a plan that four passes do not settle -----

  const NO_ROW := OwnRow(None, "", false)

  /** What a merge makes of a filter that clauses of ours lead: the front one goes, and what is wanted is appended. */
  lemma FrontMerged(n: Naming, raw: string, wanted: seq<string>)
    requires ShortlistLabels(n, wanted) && SaneNaming(n) && |wanted| > 0 && Merge(n, raw, wanted).Ok?
    requires ParseFilter(raw).Ok? && FrontThenPipe(n, ParseFilter(raw).value) && |ParseFilter(raw).value| > 2
    ensures var cs := ParseFilter(raw).value;
            var ds := MergedConditions(n, cs, wanted);
            |ds| == |cs| && ds[..|cs| - 1] == cs[1..] && IsExclude(ds[|cs| - 1]) && ds[|cs| - 1].sep == '&'
  {
    hide ParseFilter;
    hide Merge;
    hide Lifted;
    hide FrontRun;
    hide Serialize;
    hide FrontThenPipe;
    hide Missing;
    hide Wanted;
    var cs := ParseFilter(raw).value;
    FrontLifts(n, cs);
    MergeReadsBack(n, raw, wanted);
    MergeEnforces(n, raw, wanted, 0);
    var ds := ReadBack(MergedConditions(n, cs, wanted));
    var i :| 0 <= i < |ds| && IsTarget(ds, i) && FilterMerge.Listed(n, wanted[0], ds[i].values);
    if |Missing(n, Wanted(n, cs, wanted), cs[1..])| == 0 {
      SameTargets(cs[1..], i);
      assert false;
    }
  }

  lemma SameTargets(cs: seq<Condition>, i: nat)
    requires i < |cs|
    ensures IsTarget(ReadBack(cs), i) <==> IsTarget(cs, i)
  {
    var ds := ReadBack(cs);
    assert forall j :: 1 <= j < |cs| ==> ds[j].sep == cs[j].sep;
  }

  /** An item rated `R`, with no label of ours. */
  const RATED_R: Item := map["contentRating" := {"r"}]

  lemma HoldsOfRated(c: Condition)
    ensures IsExclude(c) ==> Holds(Labels(), c, RATED_R)
    ensures c.field == "contentRating" && c.op == IsNot && c.values == ["R"] ==> !Holds(Labels(), c, RATED_R)
  {
    assert Decode("R") == "R" by {
      NothingEncoded("R");
    }
    assert Fold("R") == "r";
    assert Norm(Shortlist(), "R") == "r";
    if c.values == ["R"] {
      assert Labels().norm(c.values[0]) == "r";
    }
  }

  lemma EvalSnoc(ts: seq<Term>, t: Term)
    ensures Grouped(ts + [t]) == if |ts| == 0 then Progress(true, t.holds)
                                 else if t.conj then Progress(Grouped(ts).closed && Grouped(ts).current, t.holds)
                                 else Progress(Grouped(ts).closed, Grouped(ts).current || t.holds)
    ensures Strict(ts + [t]) <==> if |ts| == 0 then t.holds
                                  else if t.conj then Strict(ts) && t.holds else Strict(ts) || t.holds
  {
    GroupedSnoc(ts, t);
    assert (ts + [t])[..|ts|] == ts;
  }

  lemma OredAway(g: Grouping, ts: seq<Term>)
    requires |ts| == 3 && ts[0].holds && !ts[1].conj && ts[2] == Term(true, true)
    ensures Eval(g, ts)
  {
    assert ts == [] + [ts[0]] + [ts[1]] + [ts[2]];
    EvalSnoc([], ts[0]);
    EvalSnoc([] + [ts[0]], ts[1]);
    EvalSnoc([] + [ts[0]] + [ts[1]], ts[2]);
  }

  lemma InForce(g: Grouping, ts: seq<Term>)
    requires |ts| == 2 && !ts[0].holds && ts[1] == Term(true, true)
    ensures !Eval(g, ts)
  {
    assert ts == [] + [ts[0]] + [ts[1]];
    EvalSnoc([], ts[0]);
    EvalSnoc([] + [ts[0]], ts[1]);
  }

  /** A first merge without the clauses that further passes take off its front. */
  function Fewer(n: Naming, cs: seq<Condition>, wanted: seq<string>, further: nat): seq<Condition>
    requires further <= |MergedConditions(n, cs, wanted)|
  {
    ReadBack(MergeFor(n, wanted, cs)[further..])
  }

  lemma FirstWithoutRow(n: Naming, cs: seq<Condition>, wanted: seq<string>)
    requires ShortlistLabels(n, wanted) && SaneNaming(n) && Plain(cs)
    ensures PassOver(n, wanted, NO_ROW, cs) == MergeFor(n, wanted, cs)
    ensures VoidedRun(n, MergeFor(n, wanted, cs), 0) == FrontRun(n, cs)
  {
    hide ShortlistLabels;
    hide SaneNaming;
    hide MergedConditions;
    hide Plain;
    hide Lifted;
    hide VoidedRun;
    hide Passes;
    hide ReadBack;
    hide ParseFilter;
    hide Serialize;
    hide LiteralAmpersand;
    hide Printable;
    hide PassOver;
    PlainSeps(cs);
    QuietPasses(n, wanted, NO_ROW, cs);
    SameRun(n, cs, wanted, 0);
  }

  lemma PlannedWithoutRow(n: Naming, cs: seq<Condition>, wanted: seq<string>, passes: nat)
    requires passes > 0
    ensures PlannedAs(n, wanted, NO_ROW, cs, passes) ==
            After(n, NO_ROW, PassOver(n, wanted, NO_ROW, cs), passes - 1)
  {
    hide After;
    hide PassOver;
  }

  lemma FewerIs(n: Naming, cs: seq<Condition>, wanted: seq<string>, passes: nat)
    requires ShortlistLabels(n, wanted) && SaneNaming(n) && Plain(cs) && 0 < passes <= 1 + FrontRun(n, cs)
    ensures passes - 1 <= |MergedConditions(n, cs, wanted)|
    ensures PlannedAs(n, wanted, NO_ROW, cs, passes) == Fewer(n, cs, wanted, passes - 1)
  {
    hide *;
    FirstWithoutRow(n, cs, wanted);
    PlannedWithoutRow(n, cs, wanted, passes);
    AfterUnfolds(n, NO_ROW, MergeFor(n, wanted, cs), passes - 1);
    FewerLength(n, cs, wanted);
    FewerDrops(n, cs, wanted, passes - 1);
  }

  lemma FewerLength(n: Naming, cs: seq<Condition>, wanted: seq<string>)
    ensures |MergeFor(n, wanted, cs)| == |MergedConditions(n, cs, wanted)|
  {
    hide MergedConditions;
  }

  lemma FewerDrops(n: Naming, cs: seq<Condition>, wanted: seq<string>, further: nat)
    requires further <= |MergedConditions(n, cs, wanted)| == |MergeFor(n, wanted, cs)|
    ensures Fewer(n, cs, wanted, further) == ReadBack(MergeFor(n, wanted, cs)[further..])
  {
    hide MergedConditions;
    hide MergeFor;
    hide ReadBack;
  }

  lemma FewerPlanned(n: Naming, raw: string, wanted: seq<string>, passes: nat)
    requires ShortlistLabels(n, wanted) && SaneNaming(n) && Readable(raw)
    requires 0 < passes <= 1 + FrontRun(n, ParseFilter(raw).value)
    ensures passes - 1 <= |MergedConditions(n, ParseFilter(raw).value, wanted)|
    ensures var planned := Fewer(n, ParseFilter(raw).value, wanted, passes - 1);
            PlanFrom(n, passes, raw, wanted, NO_ROW) == Ok(Serialize(planned)) &&
            ParseFilter(Serialize(planned)) == Ok(planned)
  {
    hide ParseFilter;
    hide LiteralAmpersand;
    hide ShortlistLabels;
    hide SaneNaming;
    hide PlanFrom;
    hide MergedConditions;
    hide Serialize;
    hide PlannedAs;
    hide Plain;
    hide Fewer;
    hide FrontRun;
    ReadablePlain(raw);
    FewerIs(n, ParseFilter(raw).value, wanted, passes);
    PlanInClosedForm(n, passes, raw, wanted, NO_ROW);
  }

  /** A plan of four passes and what one more makes of it, where nothing is to be admitted. */
  lemma OnePassOn(n: Naming, raw: string, wanted: seq<string>)
    requires ShortlistLabels(n, wanted) && SaneNaming(n) && Readable(raw)
    requires FrontRun(n, ParseFilter(raw).value) >= 4
    ensures 4 <= |MergedConditions(n, ParseFilter(raw).value, wanted)|
    ensures var four := Fewer(n, ParseFilter(raw).value, wanted, 3);
            var five := Fewer(n, ParseFilter(raw).value, wanted, 4);
            && Plan(n, raw, wanted, NO_ROW) == Ok(Serialize(four)) && ParseFilter(Serialize(four)) == Ok(four)
            && Pass(n, Serialize(four), wanted, NO_ROW) == Ok(Serialize(five))
            && ParseFilter(Serialize(five)) == Ok(five)
  {
    hide ParseFilter;
    hide LiteralAmpersand;
    hide ShortlistLabels;
    hide SaneNaming;
    hide Pass;
    hide PlanFrom;
    hide MergedConditions;
    hide Fewer;
    hide FrontRun;
    hide Serialize;
    FewerPlanned(n, raw, wanted, PLAN_PASSES);
    FewerPlanned(n, raw, wanted, PLAN_PASSES + 1);
    PassAfterPlan(n, PLAN_PASSES, raw, wanted, NO_ROW);
  }

  /** A filter that takes five passes, one more than a plan is allowed: what is planned lets through an item the
      owner's own `contentRating!=R` rules out, and one more pass would not. */
  lemma FivePassesNeeded() returns (raw: string, wanted: seq<string>, four: string, five: string)
    ensures ParseFilter(raw) == Ok(Fronted("abcde")) && wanted == LabelsFor("abcde")
    ensures Plan(Labels(), raw, wanted, NO_ROW) == Ok(four) && Pass(Labels(), four, wanted, NO_ROW) == Ok(five)
    ensures ParseFilter(four).Ok? && ParseFilter(five).Ok? && four != five
    ensures forall g :: Shows(g, Labels(), ParseFilter(four).value, RATED_R)
    ensures forall g :: !Shows(g, Labels(), ParseFilter(five).value, RATED_R)
  {
    hide LiteralAmpersand;
    hide ShortlistLabels;
    hide SaneNaming;
    hide FrontRun;
    hide Lifted;
    hide ParseFilter;
    hide Serialize;
    hide Merge;
    hide FrontThenPipe;
    hide Plan;
    hide Pass;
    hide Fewer;
    hide Fronted;
    hide Shows;
    hide Labels;
    hide MergedConditions;
    var n, cs := Labels(), Fronted("abcde");
    raw, wanted := Serialize(cs), LabelsFor("abcde");
    LabelsWritable("abcde");
    FrontedReads("abcde");
    FrontLifts(n, cs);
    MergeNeverFailsItsCheck(n, raw, wanted);
    OnePassOn(n, raw, wanted);
    FrontMerged(n, raw, wanted);
    four, five := Serialize(Fewer(n, cs, wanted, 3)), Serialize(Fewer(n, cs, wanted, 4));
    forall g
      ensures Shows(g, n, Fewer(n, cs, wanted, 3), RATED_R)
      ensures !Shows(g, n, Fewer(n, cs, wanted, 4), RATED_R)
    {
      FourthAndFifth(g, wanted);
    }
    assert Shows(LeftToRight, n, ParseFilter(four).value, RATED_R);
  }

  lemma FourthAndFifth(g: Grouping, wanted: seq<string>)
    requires var cs := Fronted("abcde");
             var ds := MergedConditions(Labels(), cs, wanted);
             && FrontRun(Labels(), cs) == 4
             && |ds| == |cs| && ds[..|cs| - 1] == cs[1..] && IsExclude(ds[|cs| - 1]) && ds[|cs| - 1].sep == '&'
    ensures Shows(g, Labels(), Fewer(Labels(), Fronted("abcde"), wanted, 3), RATED_R)
    ensures !Shows(g, Labels(), Fewer(Labels(), Fronted("abcde"), wanted, 4), RATED_R)
  {
    hide MergedConditions;
    hide FrontRun;
    hide Holds;
    var n, cs := Labels(), Fronted("abcde");
    var ds := MergedConditions(n, cs, wanted);
    var four, five := Fewer(n, cs, wanted, 3), Fewer(n, cs, wanted, 4);
    assert ds[..5][3] == cs[1..][3] && ds[..5][4] == cs[1..][4];
    assert ds[3] == cs[4] && ds[4] == cs[5] == RATING;
    assert |four| == 3 && |five| == 2;
    HoldsOfRated(four[0]);
    HoldsOfRated(four[1]);
    HoldsOfRated(four[2]);
    HoldsOfRated(five[0]);
    HoldsOfRated(five[1]);
    OredAway(g, Terms(n, four, RATED_R));
    InForce(g, Terms(n, five, RATED_R));
  }
}
