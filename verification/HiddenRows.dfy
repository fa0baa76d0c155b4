/** Filters whose plan takes more than the four passes it is allowed because of the account's own row, with labels read
    as the program reads them. */
module HiddenRows {
  import opened Options
  import opened FilterText
  import opened ShareFilter
  import opened FilterSemantics
  import opened FilterEdits
  import opened FilterGroups
  import opened FilterKin
  import opened FilterMerge
  import opened MergeTheorems
  import opened MergeStability
  import opened FilterAllow
  import opened AllowTheorems
  import opened AdmitIdle
  import opened AdmitOutcome
  import opened PassShape
  import FirstGroup
  import opened SharePlan
  import opened PlanSteps
  import opened PlanPasses
  import opened TextCodec
  import opened Counterexamples

  // ----- the account's own row -----

  function Own(): string {
    Label('z')
  }

  function OwnShown(): OwnRow {
    OwnRow(Some(Own()), PREFIX, true)
  }

  lemma LabelNorm(x: char)
    requires 'a' <= x <= 'z'
    ensures Labels().norm(Label(x)) == Label(x)
  {
    hide Decode;
    hide Fold;
    LabelReads(x);
  }

  lemma OwnPlannable()
    ensures PlannableRow(Labels(), OwnShown())
  {
    hide Decode;
    hide Fold;
    hide NoNe;
    hide NoValueSep;
    hide Free;
    LabelChars('z');
    PlainText(Own());
    LabelNorm('z');
    LabelOurs('z');
    ShortlistIsFaithful();
    LabelNotBlank('z');
  }

  /** The owner's "allow only" list. */
  const ALLOW := Condition("contentRating", Is, ["G"], '|', [])

  lemma AllowOwners(n: Naming, own: string, prefix: string, c: Condition)
    requires c.field == ALLOW.field && c.op == Is && c.values == ALLOW.values && !SameValue(n, "G", own)
    ensures OwnersAllow(n, own, c) && !Admits(n, c, [own, prefix]) && !IsExclude(c)
  {
    assert c.values[0] == "G";
  }

  lemma AllowNotOwn()
    ensures !SameValue(Labels(), "G", Own())
  {
    assert Decode("G") == "G" by {
      NothingEncoded("G");
    }
    assert Fold("G") == "g";
    LabelNorm('z');
    LabelNotBlank('z');
    assert |Label('z')| > 1;
  }

  /** Another account's row is not this one's. */
  lemma OtherAdmits(x: char, sep: char)
    requires 'a' <= x < 'z'
    ensures Admits(Labels(), Hiding([Label(x)], sep), [Own(), PREFIX])
  {
    hide Decode;
    hide Fold;
    LabelNorm(x);
    LabelNorm('z');
    PrefixNorm();
    var w, o := Label(x), Own();
    assert w[|w| - 1] == x && o[|o| - 1] == 'z';
    assert |w| == 11 && |PREFIX| == 9;
  }

  lemma PrefixNorm()
    ensures Labels().norm(PREFIX) == PREFIX
  {
    hide Decode;
    NothingEncoded(PREFIX);
    PrefixIsLower();
    SameLetters(PREFIX);
  }

  // ----- clauses of ours before an allow condition -----

  /** `label!=shortlist_x` for each letter, joined by `&`, and then the owner's `|contentRating=G`. */
  function Guarded(letters: string): (cs: seq<Condition>)
    ensures |cs| == |letters| + 1
  {
    Fronted(letters)[..|letters|] + [ALLOW]
  }

  lemma AllowClean()
    ensures Clean(ALLOW) && AmpersandFree(ALLOW)
  {
    PlainText("G");
    FreeBoth("G");
  }

  lemma GuardedReads(letters: string)
    requires |letters| > 0 && forall j :: 0 <= j < |letters| ==> 'a' <= letters[j] <= 'z'
    ensures Plain(Guarded(letters)) && FrontThenPipe(Labels(), Guarded(letters))
    ensures Readable(Serialize(Guarded(letters))) && ParseFilter(Serialize(Guarded(letters))) == Ok(Guarded(letters))
  {
    hide OursAlone;
    hide Clean;
    hide Label;
    hide Labels;
    hide LiteralAmpersand;
    hide Serialize;
    hide ParseFilter;
    var cs := Guarded(letters);
    AllowClean();
    forall i | 0 <= i < |cs|
      ensures Clean(cs[i]) && AmpersandFree(cs[i])
      ensures i < |letters| ==> OursAlone(Labels(), cs[i]) && cs[i] == Fronted(letters)[i]
    {
      FrontedClean(letters, i);
    }
    assert NoAmpersand(cs);
    PlainSeps(cs);
  }

  lemma FrontHeaded(n: Naming, cs: seq<Condition>)
    requires FrontThenPipe(n, cs)
    ensures Headed(n, cs)
  {
    forall k | 0 <= k < |cs| && OursExclude(n, cs[k])
      ensures (k == 0 || cs[k].sep == '&') && OursOnly(n, cs[k])
    {
      assert k < |cs| - 1 && OursAlone(n, cs[k]);
    }
  }

  /** The group of the allow condition lets the row pass while a clause of ours leads it. */
  lemma {:induction false} GuardedIdle(n: Naming, own: string, prefix: string, cs: seq<Condition>)
    requires FrontThenPipe(n, cs) && Admits(n, cs[|cs| - 2], [own, prefix]) && OwnersAllow(n, own, cs[|cs| - 1])
    ensures Idle(n, own, prefix, true, cs)
    decreases |cs|
  {
    hide Admits;
    hide OwnersAllow;
    hide OursAlone;
    hide Alone;
    assert IsExclude(cs[0]) by {
      assert OursAlone(n, cs[0]);
      OursAloneExcludes(n, cs[0]);
    }
    var t := cs[1..];
    assert cs == [cs[0]] + t;
    if |cs| == 2 {
      PairGroup(cs[0], cs[1]);
      assert cs == [cs[0], cs[1]];
      PairIdle(n, own, prefix, cs[0], cs[1]);
    } else {
      GroupsCons(cs[0], t);
      assert forall i :: 0 <= i < |t| ==> t[i] == cs[i + 1];
      GuardedIdle(n, own, prefix, t);
      LoneExcludeIdle(n, own, prefix, true, [cs[0]]);
      ConsIdle(n, own, prefix, [cs[0]], GroupsOf(t));
    }
  }

  lemma PairGroup(c: Condition, d: Condition)
    requires d.sep != '&'
    ensures GroupsOf([c, d]) == [[c, d]]
  {
    assert [c] + [d] == [c, d] && [] + [c] == [c];
    GroupsSnoc([], c);
    GroupsSnoc([c], d);
    assert GroupsOf([c]) == [[c]];
  }

  lemma ConsIdle(n: Naming, own: string, prefix: string, g: seq<Condition>, gs: seq<seq<Condition>>)
    requires IdleGroup(n, own, prefix, true, g) && IdleGroups(n, own, prefix, true, gs)
    ensures IdleGroups(n, own, prefix, true, [g] + gs)
  {
    hide IdleGroup;
  }

  lemma OursAloneExcludes(n: Naming, c: Condition)
    requires OursAlone(n, c)
    ensures IsExclude(c)
  {
  }

  lemma PairIdle(n: Naming, own: string, prefix: string, c: Condition, d: Condition)
    requires Admits(n, c, [own, prefix]) && OwnersAllow(n, own, d)
    ensures IdleGroup(n, own, prefix, true, [c, d])
  {
    hide Admits;
    hide OwnersAllow;
    var g := [c, d];
    assert g[0] == c && g[1] == d;
  }

  lemma GuardedOwnIdle(letters: string)
    requires |letters| > 0 && forall j :: 0 <= j < |letters| ==> 'a' <= letters[j] < 'z'
    ensures IdleFor(Labels(), OwnShown(), Guarded(letters))
  {
    hide OursAlone;
    hide OwnersAllow;
    hide FrontThenPipe;
    hide Label;
    hide Labels;
    hide Idle;
    hide Admits;
    hide ParseFilter;
    hide Serialize;
    hide Plain;
    hide LiteralAmpersand;
    var cs, m := Guarded(letters), |letters|;
    GuardedReads(letters);
    AllowNotOwn();
    AllowOwners(Labels(), Own(), PREFIX, cs[m]);
    OtherAdmits(letters[m - 1], cs[m - 1].sep);
    assert cs[m - 1] == Fronted(letters)[m - 1];
    GuardedIdle(Labels(), Own(), PREFIX, cs);
  }

  // ----- the plan hides the row from its own account -----

  /** What is left once all of ours but the last clause have gone from the front: the owner's allow list, and an
      exclude. */
  lemma AllowAloneHides(n: Naming, own: string, prefix: string, ds: seq<Condition>)
    requires |ds| == 2 && ds[0].field == ALLOW.field && ds[0].op == Is && ds[0].values == ALLOW.values
    requires ds[1].sep == '&' && !SameValue(n, "G", own)
    ensures !OwnRowAllowed(n, own, prefix, ds)
  {
    AllowOwners(n, own, prefix, ds[0]);
    hide Admits;
    hide OwnersAllow;
    assert ds == [ds[0]] + [ds[1]];
    GroupsSnoc([ds[0]], ds[1]);
    GroupsSnoc([], ds[0]);
    assert [] + [ds[0]] == [ds[0]];
    var g := GroupsOf(ds)[0];
    assert g == [ds[0]] && OwnersAllow(n, own, g[0]);
    assert !Allowed(n, own, prefix, g);
  }

  /** What the first pass makes of such a filter, and how many clauses of ours then lead it. */
  lemma GuardedFirst(letters: string, wanted: seq<string>)
    requires |letters| > 2 && forall j :: 0 <= j < |letters| ==> 'a' <= letters[j] < 'z'
    requires ShortlistLabels(Labels(), wanted) && SaneNaming(Labels()) && |wanted| > 0
    ensures var n, cs := Labels(), Guarded(letters);
            var ds := MergedConditions(n, cs, wanted);
            && PassOver(n, wanted, OwnShown(), cs) == MergeFor(n, wanted, cs)
            && IdleFor(n, OwnShown(), MergeFor(n, wanted, cs))
            && VoidedRun(n, MergeFor(n, wanted, cs), 0) == |letters| - 1
            && |ds| == |cs| && ds[..|cs| - 1] == cs[1..] && IsExclude(ds[|cs| - 1]) && ds[|cs| - 1].sep == '&'
  {
    hide Labels;
    hide Guarded;
    hide FrontThenPipe;
    hide MergedConditions;
    hide Idle;
    hide ParseFilter;
    hide Serialize;
    hide Plain;
    hide Headed;
    hide Lifted;
    hide ShortlistLabels;
    hide SaneNaming;
    hide LosesFirst;
    var n, cs := Labels(), Guarded(letters);
    GuardedReads(letters);
    GuardedOwnIdle(letters);
    IdleAdmitFor(n, OwnShown(), cs);
    FrontLifts(n, cs);
    MergeNeverFailsItsCheck(n, Serialize(cs), wanted);
    FrontMerged(n, Serialize(cs), wanted);
    PlainSeps(cs);
    SameRun(n, cs, wanted, 0);
    LeadingRun(n, MergeFor(n, wanted, cs));
    FrontHeaded(n, cs);
    MergeRestIdle(n, wanted, OwnShown(), cs);
  }

  /** A filter on which the fifth pass would let the account's own row into the owner's allow list, and no fifth pass
      is allowed: what is planned hides the row from its own account. */
  lemma OwnRowStaysHidden() returns (raw: string, wanted: seq<string>, four: string, five: string)
    ensures ParseFilter(raw) == Ok(Guarded("abcd")) && wanted == LabelsFor("abcd")
    ensures Plan(Labels(), raw, wanted, OwnShown()) == Ok(four)
    ensures Pass(Labels(), four, wanted, OwnShown()) == Ok(five)
    ensures ParseFilter(four).Ok? && !OwnRowAllowed(Labels(), Own(), PREFIX, ParseFilter(four).value)
    ensures ParseFilter(five).Ok? && OwnRowAllowed(Labels(), Own(), PREFIX, ParseFilter(five).value)
    ensures Passes(Labels(), wanted, OwnShown(), Guarded("abcd")) == 5
  {
    hide Labels;
    hide Label;
    hide Guarded;
    hide MergedConditions;
    hide IdleFor;
    hide ParseFilter;
    hide Serialize;
    hide Plain;
    hide Passes;
    hide LastAdmits;
    hide PlanFrom;
    hide Pass;
    hide OwnRowAllowed;
    hide ShortlistLabels;
    hide SaneNaming;
    hide OwnLabel;
    hide FrontThenPipe;
    hide LiteralAmpersand;
    hide PassOver;
    hide After;
    var n, cs := Labels(), Guarded("abcd");
    raw, wanted := Serialize(cs), LabelsFor("abcd");
    LabelsWritable("abcd");
    OwnPlannable();
    GuardedReads("abcd");
    FourLeft(wanted);
    PlanInClosedForm(n, PLAN_PASSES, raw, wanted, OwnShown());
    PlanLetsOwnRowPass(n, PLAN_PASSES, raw, wanted, OwnShown());
    PlanInClosedForm(n, PLAN_PASSES + 1, raw, wanted, OwnShown());
    PlanLetsOwnRowPass(n, PLAN_PASSES + 1, raw, wanted, OwnShown());
    PassAfterPlan(n, PLAN_PASSES, raw, wanted, OwnShown());
    four := PlanFrom(n, PLAN_PASSES, raw, wanted, OwnShown()).value;
    five := PlanFrom(n, PLAN_PASSES + 1, raw, wanted, OwnShown()).value;
  }

  /** What four passes leave of it. */
  lemma FourLeft(wanted: seq<string>)
    requires ShortlistLabels(Labels(), wanted) && SaneNaming(Labels()) && |wanted| > 0
    ensures !OwnRowAllowed(Labels(), Own(), PREFIX, PlannedAs(Labels(), wanted, OwnShown(), Guarded("abcd"), 4))
  {
    hide Labels;
    hide Label;
    hide MergedConditions;
    hide IdleFor;
    hide OwnRowAllowed;
    hide ShortlistLabels;
    hide SaneNaming;
    hide PassOver;
    hide VoidedRun;
    hide After;
    var n, cs := Labels(), Guarded("abcd");
    var first, ds := MergeFor(n, wanted, cs), MergedConditions(n, cs, wanted);
    GuardedFirst("abcd", wanted);
    AfterUnfolds(n, OwnShown(), first, 3);
    var planned := ReadBack(first[3..]);
    assert ds[..4][3] == cs[1..][3] && cs[4] == ALLOW;
    assert first[3] == Blanked(ds[3]).(sep := ds[3].sep) && first[4].sep == ds[4].sep;
    AllowNotOwn();
    AllowAloneHides(n, Own(), PREFIX, planned);
  }

  // ----- what is uncovered counts afresh -----

  /** `label!=shortlist_x` for each letter, the owner's `contentRating=G`, all joined by `&`, and behind them the second
      label again, joined by `|`. */
  function Trailed(letters: string): (cs: seq<Condition>)
    requires |letters| > 1
    ensures |cs| == |letters| + 2
  {
    Fronted(letters)[..|letters|] + [ALLOW.(sep := '&'), Hiding([Label(letters[1])], '|')]
  }

  lemma TrailedAt(letters: string, i: nat)
    requires |letters| > 1 && (forall j :: 0 <= j < |letters| ==> 'a' <= letters[j] <= 'z') && i < |letters| + 2
    ensures var c := Trailed(letters)[i];
            && Clean(c) && AmpersandFree(c) && (i < |letters| ==> OursAlone(Labels(), c) && c == Fronted(letters)[i])
            && (i == |letters| + 1 ==> OursAlone(Labels(), c))
  {
    hide Clean;
    hide AmpersandFree;
    hide OursAlone;
    hide Label;
    hide Labels;
    if i < |letters| {
      FrontedClean(letters, i);
    } else if i == |letters| {
      AllowClean();
      SepClean(ALLOW, '&');
    } else {
      FrontedClean(letters, 1);
      SepClean(Fronted(letters)[1], '|');
      LabelOurs(letters[1]);
      LoneLabel(Labels(), Label(letters[1]), '|');
    }
  }

  lemma SepClean(c: Condition, sep: char)
    requires Clean(c) && AmpersandFree(c)
    ensures Clean(c.(sep := sep)) && AmpersandFree(c.(sep := sep))
  {
  }

  lemma TrailedReads(letters: string)
    requires |letters| > 1 && forall j :: 0 <= j < |letters| ==> 'a' <= letters[j] <= 'z'
    ensures Plain(Trailed(letters)) && Readable(Serialize(Trailed(letters)))
    ensures ParseFilter(Serialize(Trailed(letters))) == Ok(Trailed(letters))
  {
    hide OursAlone;
    hide Clean;
    hide Label;
    hide Labels;
    hide LiteralAmpersand;
    hide Serialize;
    hide ParseFilter;
    var cs := Trailed(letters);
    forall i | 0 <= i < |cs|
      ensures Clean(cs[i]) && AmpersandFree(cs[i])
    {
      TrailedAt(letters, i);
    }
    assert NoAmpersand(cs);
    PlainSeps(cs);
  }

  /** A filter of excludes alone, with a group of two behind it. */
  lemma TwoBehind(n: Naming, own: string, prefix: string, x: seq<Condition>, c: Condition, d: Condition)
    requires (forall i :: 0 <= i < |x| ==> x[i].op == IsNot) && c.sep == '&' && d.sep != '&'
    requires OwnersAllow(n, own, c) && Admits(n, d, [own, prefix])
    ensures Idle(n, own, prefix, true, x + [c] + [d])
  {
    hide Admits;
    hide OwnersAllow;
    hide IdleGroup;
    ExcludesIdle(n, own, prefix, true, x);
    GroupsSnoc(x, c);
    GroupsMore(x + [c], GroupsOf(x), [c], d);
    BackIdle(n, own, prefix, d, c);
    assert [c] + [d] == [c, d];
  }

  lemma BackIdle(n: Naming, own: string, prefix: string, c: Condition, d: Condition)
    requires Admits(n, c, [own, prefix]) && OwnersAllow(n, own, d)
    ensures IdleGroup(n, own, prefix, true, [d, c])
  {
    hide Admits;
    hide OwnersAllow;
    var g := [d, c];
    assert g[0] == d && g[1] == c;
  }

  lemma TrailedIdle(letters: string)
    requires |letters| > 1 && forall j :: 0 <= j < |letters| ==> 'a' <= letters[j] < 'z'
    ensures IdleFor(Labels(), OwnShown(), Trailed(letters))
  {
    hide Label;
    hide Labels;
    hide Idle;
    hide Admits;
    hide OwnersAllow;
    var cs, m := Trailed(letters), |letters|;
    AllowNotOwn();
    AllowOwners(Labels(), Own(), PREFIX, cs[m]);
    OtherAdmits(letters[1], '|');
    assert cs == Fronted(letters)[..m] + [cs[m]] + [cs[m + 1]];
    TwoBehind(Labels(), Own(), PREFIX, Fronted(letters)[..m], cs[m], cs[m + 1]);
  }

  /** Clauses of ours joined by `&`, one of the owner's, and one of ours behind a `|`. */
  ghost predicate Trailing(n: Naming, cs: seq<Condition>, m: nat) {
    && m > 0 && |cs| == m + 2 && (forall i :: 0 <= i < m ==> OursAlone(n, cs[i]))
    && (forall i :: 1 <= i <= m ==> cs[i].sep == '&') && !IsExclude(cs[m])
    && OursAlone(n, cs[m + 1]) && cs[m + 1].sep == '|'
  }

  lemma TrailingEdit(n: Naming, cs: seq<Condition>, m: nat, i: nat)
    requires Trailing(n, cs, m) && i < |cs|
    ensures LiftEdit(n, cs, i) == if i == 0 || i == m + 1 then None else Some(cs[i])
  {
    hide OursAlone;
    var c := cs[i];
    if i < m || i == m + 1 {
      assert cs[m + 1].sep != '&';
      assert OursAlone(n, c) && !Enforced(cs, i);
      LoneEdit(n, cs, i);
    }
  }

  /** What becomes of a clause of ours that Plex ignores. */
  lemma LoneEdit(n: Naming, cs: seq<Condition>, i: nat)
    requires i < |cs| && OursAlone(n, cs[i]) && !Enforced(cs, i)
    ensures Unenforced(n, cs, i) && LiftEdit(n, cs, i) == if i == 0 || cs[i].sep == '|' then None else Some(cs[i])
  {
    hide Enforced;
  }

  /** The lift takes the clause in front and the one behind, and with the `|` all others are enforced. */
  lemma TrailingLifted(n: Naming, cs: seq<Condition>, m: nat)
    requires Trailing(n, cs, m)
    ensures Lifted(n, cs) == cs[1..m + 1] && FrontRun(n, cs) == 0
  {
    hide LiftEdit;
    hide OursAlone;
    var edits := LiftEdits(n, cs);
    forall i | 0 <= i < |cs|
      ensures edits[i] == if i == 0 || i == m + 1 then None else Some(cs[i])
    {
      TrailingEdit(n, cs, m, i);
    }
    CollectLast(edits);
    CollectWithoutFirst(cs[..m + 1], edits[..m + 1]);
    assert cs[..m + 1][1..] == cs[1..m + 1];
    assert Enforced(cs[1..m + 1], 0);
    NoRunEnforced(n, cs[1..m + 1]);
  }

  lemma NoRunEnforced(n: Naming, cs: seq<Condition>)
    requires |cs| > 0 && Enforced(cs, 0)
    ensures VoidedRun(n, cs, 0) == 0
  {
  }

  lemma GrownOursOnly(n: Naming, c: Condition, more: seq<string>, valueSep: string)
    requires |more| > 0 && OursAlone(n, c) && forall l :: l in more ==> n.ours(l)
    ensures OursAlone(n, Grow(c, more, valueSep))
  {
    var d, existing := Grow(c, more, valueSep), PaddedSeps(c);
    var extra := d.valueSeps[|existing|..];
    assert d.valueSeps == existing + extra;
    assert PaddedSeps(d) == d.valueSeps;
    SurvivorsOfGrown(c.values, existing, more, extra, n.ours);
    var v := Mine(n, c.values)[0];
    assert v in Mine(n, c.values);
    assert v in Mine(n, d.values);
  }

  /** Clauses of ours and then one of the owner's, all joined by `&`. */
  ghost predicate AndedBefore(n: Naming, cs: seq<Condition>) {
    && |cs| > 1 && (forall i :: 0 <= i < |cs| - 1 ==> OursAlone(n, cs[i]))
    && (forall i :: 1 <= i < |cs| ==> cs[i].sep == '&') && cs[0].sep == '|'
  }

  lemma BackOursAlone(n: Naming, c: Condition, sep: char)
    requires SaneNaming(n) && OursAlone(n, c)
    ensures OursAlone(n, Blanked(c).(sep := sep))
  {
    var mine := Mine(n, c.values);
    assert mine[0] in mine;
    assert c.values != [""];
    assert PaddedSeps(c.(sep := sep)) == PaddedSeps(c);
  }

  lemma TrailingMerged(n: Naming, wanted: seq<string>, cs: seq<Condition>, m: nat)
    requires Trailing(n, cs, m) && m > 1 && Plain(cs) && ShortlistLabels(n, wanted) && SaneNaming(n)
    ensures var ds := MergeFor(n, wanted, cs);
            |ds| == m && AndedBefore(n, ds) && ds[m - 1] == Blanked(cs[m])
  {
    hide OursAlone;
    hide Missing;
    hide Wanted;
    hide Grow;
    hide Lifted;
    hide Plain;
    var kept, merged := Lifted(n, cs), MergedConditions(n, cs, wanted);
    TrailingLifted(n, cs, m);
    assert forall i :: 0 <= i < m ==> kept[i] == cs[i + 1];
    OursAloneExcludes(n, cs[1]);
    assert Enforced(kept, 0) && IsTarget(kept, 0) && FirstTarget(kept, 0) == 0;
    var missing := Missing(n, Wanted(n, cs, wanted), kept);
    if |missing| > 0 {
      FirstGroup.PlainIs(cs);
      WantedAreLabels(n, cs, wanted);
      GrownOursOnly(n, kept[0], missing, HouseValueSep(cs));
      GrownSep(kept[0], missing, HouseValueSep(cs));
    }
    forall i | 0 <= i < m - 1
      ensures OursAlone(n, MergeFor(n, wanted, cs)[i])
    {
      BackOursAlone(n, merged[i], MergeFor(n, wanted, cs)[i].sep);
    }
  }

  lemma GrownSep(c: Condition, more: seq<string>, valueSep: string)
    requires |more| > 0
    ensures Grow(c, more, valueSep).sep == c.sep
  {
  }

  /** The groups of a filter whose last clause is the owner's allow list, with the own row let in. */
  lemma AllowShown(n: Naming, own: string, prefix: string, x: seq<Condition>, c: Condition)
    requires |x| > 0 && (forall i :: 0 <= i < |x| ==> x[i].op == IsNot) && c.sep == '&' && c.field != "label"
    requires OwnersAllow(n, own, c) && !Admits(n, c, [own, prefix])
    ensures ShownGroups(n, own, prefix, x + [c]) == GroupsOf(x) + [[c, Condition("label", Is, [own], '|', [])]]
  {
    hide OwnersAllow;
    hide Admits;
    hide IdleGroup;
    hide DropGroups;
    hide AdmitGroups;
    hide HouseValueSep;
    ExcludesIdle(n, own, prefix, true, x);
    GroupsSnoc(x, c);
    hide GroupsOf;
    GroupsShape(x);
    DroppedBehind(n, own, prefix, GroupsOf(x), c);
    AdmittedBehind(n, own, prefix, HouseValueSep(x + [c]), GroupsOf(x), c);
  }

  /** The filter whose last clause is the owner's allow list, and what it is with the own row let in. */
  lemma AllowAdmitted(n: Naming, own: string, prefix: string, x: seq<Condition>, c: Condition)
    requires OwnLabel(n, own) && Plain(x + [c]) && |x| > 0 && (forall i :: 0 <= i < |x| ==> x[i].op == IsNot)
    requires c.sep == '&' && c.field == ALLOW.field && c.op == Is && c.values == ALLOW.values
    requires !SameValue(n, "G", own)
    ensures ReadBack(AdmitConditions(n, own, prefix, true, x + [c])) ==
            x + [c] + [Condition("label", Is, [own], '|', [])]
  {
    hide OwnersAllow;
    hide Admits;
    hide Plain;
    hide OwnLabel;
    hide ShownGroups;
    hide GroupsOf;
    hide Flatten;
    hide ReadBack;
    hide Unled;
    var cs, added := x + [c], Condition("label", Is, [own], '|', []);
    AllowOwners(n, own, prefix, c);
    AllowShown(n, own, prefix, x, c);
    FlattenGroups(x);
    FlattenSnoc(GroupsOf(x), [c, added]);
    assert x + [c, added] == cs + [added];
    FirstGroup.PlainIs(cs);
    AdmittedUnblanked(n, own, prefix, true, cs);
    UnledIsReadBack(AdmitConditions(n, own, prefix, true, cs));
    PlainLead(cs);
    UnledSame(cs + [added]);
  }

  lemma PlainLead(cs: seq<Condition>)
    requires Plain(cs) && |cs| > 0
    ensures cs[0].sep == '|'
  {
  }

  lemma {:induction false} DroppedBehind(n: Naming, own: string, prefix: string, gs: seq<seq<Condition>>, c: Condition)
    requires IdleGroups(n, own, prefix, true, gs) && (forall q :: 0 <= q < |gs| ==> |gs[q]| > 0)
    requires OwnersAllow(n, own, c)
    ensures DropGroups(n, own, gs + [[c]]) == gs + [[c]]
    decreases |gs|
  {
    hide IdleGroup;
    hide OwnersAllow;
    hide DropGroup;
    var all := gs + [[c]];
    if |gs| == 0 {
      OwnersDropped(n, own, c);
      assert all == [[c]] && all[1..] == [];
    } else {
      DropIdle(n, own, prefix, gs[0]);
      DroppedBehind(n, own, prefix, gs[1..], c);
      assert all[1..] == gs[1..] + [[c]];
      assert gs == [gs[0]] + gs[1..];
    }
  }

  lemma OwnersDropped(n: Naming, own: string, c: Condition)
    requires OwnersAllow(n, own, c)
    ensures DropGroup(n, own, [c]) == [c]
  {
    assert [c][0] == c;
  }

  lemma AdmittedBehind(n: Naming, own: string, prefix: string, valueSep: string, gs: seq<seq<Condition>>, c: Condition)
    requires IdleGroups(n, own, prefix, true, gs) && OwnersAllow(n, own, c) && !Admits(n, c, [own, prefix])
    requires c.field != "label"
    ensures AdmitGroups(n, own, prefix, valueSep, gs + [[c]]) ==
            gs + [[c, Condition("label", Is, [own], '|', [])]]
  {
    hide IdleGroup;
    hide OwnersAllow;
    hide Admits;
    AdmitGroupsIdle(n, own, prefix, valueSep, gs);
    LoneAdmitted(n, own, prefix, valueSep, c);
    hide AdmitGroup;
    var hs := AdmitGroups(n, own, prefix, valueSep, gs + [[c]]);
    forall q | 0 <= q < |gs|
      ensures hs[q] == gs[q]
    {
      assert AdmitGroups(n, own, prefix, valueSep, gs)[q] == gs[q];
    }
  }

  lemma LoneAdmitted(n: Naming, own: string, prefix: string, valueSep: string, c: Condition)
    requires OwnersAllow(n, own, c) && !Admits(n, c, [own, prefix]) && c.field != "label"
    ensures AdmitGroup(n, own, prefix, valueSep, [c]) == [c, Condition("label", Is, [own], '|', [])]
  {
    hide OwnersAllow;
    hide Admits;
    assert [c][0] == c;
    assert [c] + [Condition("label", Is, [own], '|', [])] == [c, Condition("label", Is, [own], '|', [])];
  }

  lemma {:induction false} RunAtLeast(n: Naming, cs: seq<Condition>, k: nat, m: nat)
    requires k <= m <= |cs| && forall i :: k <= i < m ==> Unenforced(n, cs, i)
    ensures VoidedRun(n, cs, k) >= m - k
    decreases m - k
  {
    hide Unenforced;
    if k < m {
      RunAtLeast(n, cs, k + 1, m);
    }
  }

  /** With the own row behind a `|`, the clauses of ours before it are ignored again; the lift takes the first. */
  lemma AndedThenPipe(n: Naming, ds: seq<Condition>, d: Condition)
    requires AndedBefore(n, ds) && !IsExclude(ds[|ds| - 1]) && d.sep == '|' && !IsExclude(d)
    ensures FrontRun(n, ds + [d]) >= |ds| - 2
  {
    hide OursAlone;
    var es := ds + [d];
    forall i | 0 <= i < |es|
      ensures LiftEdits(n, es)[i] == if i == 0 then None else Some(es[i])
      ensures i < |ds| - 1 ==> Unenforced(n, es, i)
    {
      AndedEdit(n, ds, d, i);
    }
    CollectWithoutFirst(es, LiftEdits(n, es));
    var kept := es[1..];
    forall i | 0 <= i < |ds| - 2
      ensures Unenforced(n, kept, i)
    {
      assert kept[i] == es[i + 1] && kept[|ds| - 1] == d;
      AndedEdit(n, ds, d, i + 1);
    }
    RunAtLeast(n, kept, 0, |ds| - 2);
  }

  lemma AndedEdit(n: Naming, ds: seq<Condition>, d: Condition, i: nat)
    requires AndedBefore(n, ds) && !IsExclude(ds[|ds| - 1]) && d.sep == '|' && !IsExclude(d) && i <= |ds|
    ensures var es := ds + [d];
            && LiftEdit(n, es, i) == (if i == 0 then None else Some(es[i]))
            && (i < |ds| - 1 ==> Unenforced(n, es, i))
  {
    var es := ds + [d];
    assert es[|ds|].sep != '&';
    if i < |ds| - 1 {
      assert OursAlone(n, es[i]);
    }
  }

  /** What the first two passes make of such a filter. */
  lemma TrailedPasses(letters: string, wanted: seq<string>)
    requires |letters| > 2 && forall j :: 0 <= j < |letters| ==> 'a' <= letters[j] < 'z'
    requires ShortlistLabels(Labels(), wanted) && SaneNaming(Labels())
    ensures FrontRun(Labels(), AdmitFor(Labels(), OwnShown(), Trailed(letters))) == 0
    ensures Passes(Labels(), wanted, OwnShown(), Trailed(letters)) >= |letters|
  {
    hide Labels;
    hide Label;
    hide Fronted;
    hide Idle;
    hide ParseFilter;
    hide Serialize;
    hide Plain;
    hide Lifted;
    hide ShortlistLabels;
    hide SaneNaming;
    hide OursAlone;
    hide AdmitConditions;
    hide MergedConditions;
    hide VoidedRun;
    hide OwnLabel;
    hide FrontPasses;
    hide Lodged;
    var n, cs, m := Labels(), Trailed(letters), |letters|;
    TrailedReads(letters);
    TrailedIdle(letters);
    OwnPlannable();
    IdleAdmitFor(n, OwnShown(), cs);
    TrailedTrails(letters);
    TrailingLifted(n, cs, m);
    TrailingMerged(n, wanted, cs, m);
    var first := MergeFor(n, wanted, cs);
    MergeForPlain(n, wanted, cs);
    TrailedSecond(first, wanted);
  }

  lemma TrailedTrails(letters: string)
    requires |letters| > 1 && forall j :: 0 <= j < |letters| ==> 'a' <= letters[j] <= 'z'
    ensures Trailing(Labels(), Trailed(letters), |letters|)
  {
    hide OursAlone;
    hide Label;
    hide Labels;
    hide Clean;
    var cs, m := Trailed(letters), |letters|;
    forall i | 0 <= i < m
      ensures OursAlone(Labels(), cs[i]) && cs[i] == Fronted(letters)[i]
    {
      TrailedAt(letters, i);
    }
    TrailedAt(letters, m + 1);
  }

  /** A second pass that lets the own row in finds as many clauses of ours ignored as stood before the allow list. */
  lemma TrailedSecond(first: seq<Condition>, wanted: seq<string>)
    requires ShortlistLabels(Labels(), wanted) && SaneNaming(Labels()) && Plain(first)
    requires AndedBefore(Labels(), first) && |first| > 2 && first[|first| - 1] == ALLOW.(sep := '&')
    ensures !IdleFor(Labels(), OwnShown(), first)
    ensures FrontPasses(Labels(), OwnShown(), PassOver(Labels(), wanted, OwnShown(), first)) >= |first| - 2
  {
    hide Labels;
    hide Label;
    hide Idle;
    hide Plain;
    hide Lifted;
    hide OursAlone;
    hide AdmitConditions;
    hide MergedConditions;
    hide VoidedRun;
    hide OwnLabel;
    var n, x, c := Labels(), first[..|first| - 1], first[|first| - 1];
    var added := Condition("label", Is, [Own()], '|', []);
    SplitLast(first);
    forall i | 0 <= i < |x|
      ensures x[i].op == IsNot
    {
      assert OursAlone(n, first[i]);
      OursAloneExcludes(n, x[i]);
    }
    OwnPlannable();
    AllowNotOwn();
    AllowAdmitted(n, Own(), PREFIX, x, c);
    var es := AdmitFor(n, OwnShown(), first);
    assert es == first + [added];
    if IdleFor(n, OwnShown(), first) {
      IdleAdmitFor(n, OwnShown(), first);
      assert false;
    }
    AndedThenPipe(n, first, added);
    AdmitForPlain(n, OwnShown(), first);
    PlainSeps(es);
    SameRun(n, es, wanted, 0);
    RunCounts(n, OwnShown(), MergeFor(n, wanted, es));
  }

  lemma RunCounts(n: Naming, row: OwnRow, cs: seq<Condition>)
    ensures FrontPasses(n, row, cs) >= VoidedRun(n, cs, 0)
  {
    if VoidedRun(n, cs, 0) > 0 {
      RunUnfolds(n, row, cs);
    }
  }

  /** A filter that no clause of ours leads once the movable ones are out, and that four passes do not settle even so:
      the second lets the own row in behind a `|`, and what stood before it counts afresh. */
  lemma UncoveredCountsAfresh() returns (raw: string, wanted: seq<string>, four: string)
    ensures ParseFilter(raw) == Ok(Trailed("abcde")) && wanted == LabelsFor("abcde")
    ensures FrontRun(Labels(), AdmitFor(Labels(), OwnShown(), Trailed("abcde"))) == 0
    ensures Plan(Labels(), raw, wanted, OwnShown()) == Ok(four)
    ensures Pass(Labels(), four, wanted, OwnShown()) != Ok(four)
  {
    hide Labels;
    hide Label;
    hide Trailed;
    hide ParseFilter;
    hide Serialize;
    hide Plain;
    hide Passes;
    hide PlanFrom;
    hide Pass;
    hide ShortlistLabels;
    hide SaneNaming;
    hide OwnLabel;
    hide LiteralAmpersand;
    hide FrontRun;
    hide AdmitFor;
    raw, wanted := Serialize(Trailed("abcde")), LabelsFor("abcde");
    LabelsWritable("abcde");
    OwnPlannable();
    TrailedReads("abcde");
    TrailedPasses("abcde", wanted);
    PlanSettlesExactly(Labels(), PLAN_PASSES, raw, wanted, OwnShown());
    four := PlanFrom(Labels(), PLAN_PASSES, raw, wanted, OwnShown()).value;
  }
}
