/** Filters an earlier merge damaged: an exclude of ours joined to the owner's filter by `|`, behind it or before it.
    What is planned for one shows everything that is not a row exactly as the owner's own filter did. */
module DamagedFilters {
  import opened Options
  import opened FilterText
  import opened ShareFilter
  import opened FilterSemantics
  import opened FilterEdits
  import opened FilterGroups
  import opened FilterKin
  import opened FilterMerge
  import opened MergeTheorems
  import opened MergeStability
  import opened FilterAllow
  import opened AllowTheorems
  import opened AllowMethods
  import opened AdmitIdle
  import opened AdmitOutcome
  import opened PassShape
  import opened FirstGroup
  import opened SharePlan
  import opened PlanSteps
  import opened PlanPasses
  import opened PlanPromises
  import opened PlanVerdicts

  // ----- filters whose excludes of ours are groups of their own -----

  ghost predicate LoneOurs(n: Naming, cs: seq<Condition>) {
    forall k :: 0 <= k < |cs| && OursExclude(n, cs[k]) ==> Alone(cs, k)
  }

  ghost predicate LoneGroup(n: Naming, g: seq<Condition>) {
    AnyOursExclude(n, g) ==> |g| == 1
  }

  ghost predicate LoneGroups(n: Naming, gs: seq<seq<Condition>>) {
    forall q :: 0 <= q < |gs| ==> LoneGroup(n, gs[q])
  }

  lemma LoneIsHeaded(n: Naming, cs: seq<Condition>)
    requires LoneOurs(n, cs)
    ensures Headed(n, cs)
  {
    hide OursExclude;
    hide OursOnly;
  }

  lemma LoneConcat(n: Naming, a: seq<Condition>, g: seq<Condition>)
    requires |g| > 0 && (|a| > 0 ==> g[0].sep == '&') && forall j :: 1 <= j < |g| ==> g[j].sep != '&'
    ensures LoneOurs(n, a + g) <==> LoneOurs(n, a) && LoneGroup(n, g)
  {
    hide OursExclude;
    hide Alone;
    var cs := a + g;
    if LoneOurs(n, cs) {
      forall k | 0 <= k < |a| && OursExclude(n, a[k])
        ensures Alone(a, k)
      {
        HeadedAt(n, a, g, k);
      }
      if j :| 0 <= j < |g| && OursExclude(n, g[j]) {
        HeadedAt(n, a, g, |a| + j);
        assert Alone(cs, |a| + j);
        AloneOpens(cs, |a| + j);
      }
    }
    if LoneOurs(n, a) && LoneGroup(n, g) {
      forall k | 0 <= k < |cs| && OursExclude(n, cs[k])
        ensures Alone(cs, k)
      {
        HeadedAt(n, a, g, k);
        assert k >= |a| ==> OursExclude(n, g[k - |a|]);
      }
    }
  }

  lemma {:induction false} LoneFlatten(n: Naming, gs: seq<seq<Condition>>)
    requires GroupShape(gs)
    ensures LoneOurs(n, Flatten(gs)) <==> LoneGroups(n, gs)
    decreases |gs|
  {
    hide LoneGroup;
    if |gs| > 0 {
      var m := |gs| - 1;
      LoneFlatten(n, gs[..m]);
      hide LoneOurs;
      LoneConcat(n, Flatten(gs[..m]), gs[m]);
      assert LoneGroups(n, gs) <==> LoneGroups(n, gs[..m]) && LoneGroup(n, gs[m]);
    }
  }

  lemma DropLone(n: Naming, own: string, g: seq<Condition>)
    requires |g| > 0 && LoneGroup(n, g)
    ensures LoneGroup(n, DropGroup(n, own, g))
  {
    hide AnyOursExclude;
    hide AnyOwnersAllow;
    if !AnyOwnersAllow(n, own, g) {
      SpareExclude(n, own, AnyOursExclude(n, g), g);
      RefitExcludes(n, Spare(n, own, AnyOursExclude(n, g), g), g[0].sep);
    }
  }

  lemma AdmitLone(n: Naming, own: string, prefix: string, valueSep: string, g: seq<Condition>)
    requires LoneGroup(n, g)
    ensures LoneGroup(n, AdmitGroup(n, own, prefix, valueSep, g))
  {
    AdmitKeepsPending(n, own, prefix, valueSep, g);
    if AnyOursExclude(n, g) {
      assert !AnyOwnersAllow(n, own, g);
    }
  }

  lemma {:induction false} DropGroupsLone(n: Naming, own: string, gs: seq<seq<Condition>>)
    requires LoneGroups(n, gs) && forall q :: 0 <= q < |gs| ==> |gs[q]| > 0
    ensures LoneGroups(n, DropGroups(n, own, gs))
    decreases |gs|
  {
    hide LoneGroup;
    hide DropGroup;
    if |gs| > 0 {
      DropLone(n, own, gs[0]);
      DropGroupsLone(n, own, gs[1..]);
    }
  }

  lemma UnledLone(n: Naming, cs: seq<Condition>)
    requires LoneOurs(n, cs)
    ensures LoneOurs(n, Unled(cs))
  {
    hide OursExclude;
    var us := Unled(cs);
    forall k | 0 <= k < |us| && OursExclude(n, us[k])
      ensures Alone(us, k)
    {
      assert us[k] == cs[k].(sep := us[k].sep);
      SepOurs(n, cs[k], us[k].sep);
      assert Alone(cs, k);
    }
  }

  lemma AdmitKeepsLone(n: Naming, own: string, prefix: string, cs: seq<Condition>)
    requires OwnLabel(n, own) && Plain(cs) && LoneOurs(n, cs)
    ensures LoneOurs(n, ReadBack(AdmitConditions(n, own, prefix, true, cs)))
  {
    hide LoneGroup;
    hide LoneOurs;
    hide DropGroups;
    hide AdmitGroup;
    GroupsShape(cs);
    var gs := GroupsOf(cs);
    var ds, hs := DropGroups(n, own, gs), ShownGroups(n, own, prefix, cs);
    PlainIs(cs);
    FlattenGroups(cs);
    LoneFlatten(n, gs);
    DropGroupsLone(n, own, gs);
    forall q | 0 <= q < |hs|
      ensures LoneGroup(n, hs[q])
    {
      AdmitLone(n, own, prefix, HouseValueSep(cs), ds[q]);
    }
    AdmittedShape(n, own, prefix, true, cs);
    LoneFlatten(n, hs);
    UnledLone(n, Flatten(hs));
    AdmittedUnblanked(n, own, prefix, true, cs);
    UnledIsReadBack(AdmitConditions(n, own, prefix, true, cs));
    UnledTwice(Flatten(hs));
  }

  lemma RemainingLone(n: Naming, cs: seq<Condition>)
    requires LoneOurs(n, cs)
    ensures LoneOurs(n, Remaining(n, cs))
  {
    hide OursExclude;
    hide LosesFirst;
    LoserExists(n, cs);
    if LosesFirst(n, cs) {
      forall k | 0 <= k < |cs| - 1 && OursExclude(n, cs[1..][k])
        ensures Alone(cs[1..], k)
      {
        AloneBehind(cs, k + 1);
      }
    }
  }

  lemma KinLone(n: Naming, x: seq<Condition>, ds: seq<Condition>)
    requires |x| <= |ds| <= |x| + 1 && Akin(x, ds[..|x|]) && LoneOurs(n, x)
    requires |ds| > |x| ==> IsExclude(ds[|x|]) && (|x| > 0 ==> ds[|x|].sep == '&')
    ensures LoneOurs(n, ds)
  {
    hide OursExclude;
    forall k | 0 <= k < |ds| && OursExclude(n, ds[k])
      ensures Alone(ds, k)
    {
      if k < |x| {
        assert Kin(x, ds[..|x|], k);
        if SameSay(x[k], ds[k]) {
          SameSaysSame(n, "", x[k], ds[k], []);
        }
        assert Alone(x, k);
        assert k + 1 < |x| ==> Kin(x, ds[..|x|], k + 1);
      }
    }
  }

  lemma MergeKeepsLone(n: Naming, wanted: seq<string>, cs: seq<Condition>)
    requires Plain(cs) && LoneOurs(n, cs)
    ensures LoneOurs(n, MergeFor(n, wanted, cs))
  {
    hide LoneOurs;
    hide Headed;
    hide Plain;
    hide Akin;
    hide Remaining;
    hide MergedConditions;
    LoneIsHeaded(n, cs);
    MergedKin(n, wanted, cs);
    RemainingLone(n, cs);
    KinLone(n, Remaining(n, cs), MergeFor(n, wanted, cs));
  }

  // ----- what a merge shows -----

  /** A merged filter shows what the lifted one shows, of whatever carries no label of ours. */
  lemma MergeShowsLifted(n: Naming, wanted: seq<string>, row: OwnRow, cs: seq<Condition>, item: Item)
    requires ShortlistLabels(n, wanted) && NotARow(n, row, item)
    ensures Shows(PipeFirst, n, MergeFor(n, wanted, cs), item) <==> Shows(PipeFirst, n, Lifted(n, cs), item)
  {
    hide Shows;
    hide Lifted;
    hide CarriesNone;
    hide Missing;
    hide Wanted;
    hide Place;
    hide NoBlankTag;
    var missing := Missing(n, Wanted(n, cs, wanted), Lifted(n, cs));
    NoneCarried(n, wanted, row, cs, item);
    CarriesNoneMissing(n, cs, wanted, item);
    if |missing| > 0 {
      PlaceShowsSame(PipeFirst, n, Lifted(n, cs), missing, HouseValueSep(cs), item);
    }
    ReadBackShowsSame(PipeFirst, n, MergedConditions(n, cs, wanted), item);
  }

  lemma OursOnlyHolds(n: Naming, row: OwnRow, c: Condition, item: Item)
    requires IsExclude(c) && OursOnly(n, c) && NotARow(n, row, item)
    ensures Holds(n, c, item)
  {
    SurvivorsMembers(c.values, PaddedSeps(c), n.ours);
    forall i | 0 <= i < |c.values|
      ensures n.norm(c.values[i]) !in Tags(item, "label")
    {
      assert c.values[i] in c.values;
      assert !CarriesLabel(n, item, c.values[i]);
    }
  }

  /** Where our excludes are groups of their own, the lift changes no verdict. */
  lemma LoneLiftShowsSame(n: Naming, row: OwnRow, cs: seq<Condition>, item: Item)
    requires Plain(cs) && LoneOurs(n, cs) && NotARow(n, row, item)
    ensures Shows(PipeFirst, n, Lifted(n, cs), item) <==> Shows(PipeFirst, n, cs, item)
  {
    hide LoneOurs;
    hide Headed;
    hide Plain;
    hide Shows;
    LoneIsHeaded(n, cs);
    LiftedShowsRemaining(n, row, cs, item);
    RemainingShowsSame(n, row, cs, item);
  }

  lemma LiftedTerm(n: Naming, cs: seq<Condition>, k: nat, item: Item)
    requires k < |cs| && Trims(n, cs, k) && CarriesNone(n, item, Carried(n, cs))
    ensures ToTerm(n, LiftEdit(n, cs, k).value, item) == ToTerm(n, cs[k], item)
  {
    hide LiftEdit;
    hide Holds;
    hide Alone;
    LiftEditHolds(n, cs, k, item);
  }

  lemma LiftedShowsRemaining(n: Naming, row: OwnRow, cs: seq<Condition>, item: Item)
    requires Plain(cs) && Headed(n, cs) && NotARow(n, row, item)
    ensures Shows(PipeFirst, n, Lifted(n, cs), item) <==> Shows(PipeFirst, n, Remaining(n, cs), item)
  {
    hide Headed;
    hide Lifted;
    hide LosesFirst;
    hide LiftEdit;
    hide ToTerm;
    hide Eval;
    hide Plain;
    hide Carried;
    hide CarriesNone;
    hide Remaining;
    hide Trims;
    hide NotARow;
    hide ParseFilter;
    hide Serialize;
    hide Printable;
    hide SepsIn;
    hide LiteralAmpersand;
    hide ReadBack;
    PlainSeps(cs);
    LiftedAt(n, cs);
    RemainingIs(n, cs);
    NoneOfOurs(n, row, cs, item);
    var kept, x, lead := Lifted(n, cs), Remaining(n, cs), if LosesFirst(n, cs) then 1 else 0;
    forall k | 0 <= k < |x|
      ensures Terms(n, kept, item)[k] == Terms(n, x, item)[k]
    {
      var c := kept[k];
      LiftedTerm(n, cs, k + lead, item);
      assert x[k] == cs[k + lead];
    }
    assert Terms(n, kept, item) == Terms(n, x, item);
  }

  lemma NoneOfOurs(n: Naming, row: OwnRow, cs: seq<Condition>, item: Item)
    requires NotARow(n, row, item)
    ensures CarriesNone(n, item, Carried(n, cs))
  {
    hide NotARow;
    hide Carried;
    hide CarriesNone;
    NoneCarried(n, [], row, cs, item);
  }

  lemma RemainingShowsSame(n: Naming, row: OwnRow, cs: seq<Condition>, item: Item)
    requires LoneOurs(n, cs) && NotARow(n, row, item)
    ensures Shows(PipeFirst, n, Remaining(n, cs), item) <==> Shows(PipeFirst, n, cs, item)
  {
    hide OursOnly;
    hide OursExclude;
    hide Holds;
    hide Shows;
    hide AllGroupsHold;
    hide NotARow;
    if LosesFirst(n, cs) {
      var h, t := cs[0], cs[1..];
      OursUnlessMine(n, h);
      assert Alone(cs, 0);
      assert cs == [h] + t;
      GroupsCons(h, t);
      ShowsByGroups(n, cs, item);
      ShowsByGroups(n, t, item);
      AllGroupsHoldCons(n, [h], GroupsOf(t), item);
      OursOnlyHolds(n, row, h, item);
      assert [h][0] == h;
    }
  }

  /** So every pass over such a filter shows, of what is not a row, what the filter showed. */
  lemma {:induction false} LonePassesShowSame(n: Naming, wanted: seq<string>, row: OwnRow, passes: nat,
                                              cs: seq<Condition>, item: Item)
    requires ShortlistLabels(n, wanted) && SaneNaming(n) && PlannableRow(n, row) && (row.own.Some? ==> row.show)
    requires Plain(cs) && LoneOurs(n, cs) && RootedFor(n, row, cs) && NotARow(n, row, item)
    ensures Shows(PipeFirst, n, Passed(n, wanted, row, passes, cs), item) <==> Shows(PipeFirst, n, cs, item)
    decreases passes
  {
    hide Shows;
    hide Rooted;
    hide MergeFor;
    hide AdmitConditions;
    hide Plain;
    hide NotARow;
    hide OwnLabel;
    hide ShortlistLabels;
    hide SaneNaming;
    hide LoneOurs;
    hide Lifted;
    hide LiftChanges;
    if passes > 0 {
      var es := AdmitFor(n, row, cs);
      AdmitForPlain(n, row, cs);
      AdmitShowsSame(n, row, cs, item);
      if row.own.Some? {
        AdmitKeepsLone(n, row.own.value, row.prefix, cs);
      }
      MergeShowsLifted(n, wanted, row, es, item);
      LoneLiftShowsSame(n, row, es, item);
      MergeShowsLess(n, wanted, row, es, item);
      MergeForPlain(n, wanted, es);
      MergeKeepsLone(n, wanted, es);
      LonePassesShowSame(n, wanted, row, passes - 1, PassOver(n, wanted, row, cs), item);
    }
  }

  lemma NoneVoidedLone(n: Naming, cs: seq<Condition>)
    requires NoneVoided(n, cs)
    ensures LoneOurs(n, cs)
  {
    forall k | 0 <= k < |cs| && OursExclude(n, cs[k])
      ensures Alone(cs, k)
    {
      OursUnlessMine(n, cs[k]);
      assert !Unenforced(n, cs, k);
      EnforcedAlone(cs, k);
    }
  }

  lemma PassOverIs(n: Naming, wanted: seq<string>, row: OwnRow, cs: seq<Condition>)
    ensures PassOver(n, wanted, row, cs) == MergeFor(n, wanted, AdmitFor(n, row, cs))
  {
    hide MergeFor;
    hide AdmitFor;
  }

  /** Where one clause at most is ours, a plan shows, of what is not a row, what the filter shows with that clause
      lifted out. */
  lemma OneClauseShows(n: Naming, wanted: seq<string>, row: OwnRow, passes: nat, cs: seq<Condition>, item: Item)
    requires ShortlistLabels(n, wanted) && SaneNaming(n) && PlannableRow(n, row) && (row.own.Some? ==> row.show)
    requires Plain(cs) && OneOurs(n, cs) && RootedFor(n, row, cs) && NotARow(n, row, item) && passes > 0
    requires LiftChanges(n, AdmitFor(n, row, cs))
    ensures Shows(PipeFirst, n, Passed(n, wanted, row, passes, cs), item) <==>
            Shows(PipeFirst, n, Lifted(n, AdmitFor(n, row, cs)), item)
  {
    hide *;
    var es, first := AdmitFor(n, row, cs), PassOver(n, wanted, row, cs);
    PassOverIs(n, wanted, row, cs);
    AdmitForPlain(n, row, cs);
    AdmitShowsSame(n, row, cs, item);
    AdmitKeepsOneOurs(n, row, cs);
    MergedNoneVoided(n, wanted, es);
    NoneVoidedLone(n, first);
    MergeShowsLifted(n, wanted, row, es, item);
    MergeShowsLess(n, wanted, row, es, item);
    MergeForPlain(n, wanted, es);
    LonePassesShowSame(n, wanted, row, passes - 1, first, item);
    PassedOne(n, wanted, row, cs);
    PassedOnwards(n, wanted, row, 1, passes - 1, cs);
  }

  lemma PassedOne(n: Naming, wanted: seq<string>, row: OwnRow, cs: seq<Condition>)
    ensures Passed(n, wanted, row, 1, cs) == PassOver(n, wanted, row, cs)
  {
    hide PassOver;
    assert Passed(n, wanted, row, 0, PassOver(n, wanted, row, cs)) == PassOver(n, wanted, row, cs);
  }

  // ----- the owner's filter, damaged -----

  /** What an earlier merge left: our exclude joined by `|` to whatever the owner had. */
  function Damaged(cs: seq<Condition>, x: Condition, behind: bool): seq<Condition> {
    if |cs| == 0 then []
    else if behind then cs + [x.(sep := '|')]
    else [x.(sep := '|')] + cs
  }

  /** An exclude of labels of ours, none of them on the account's own row. */
  ghost predicate OurExclude(n: Naming, row: OwnRow, x: Condition) {
    && OursExclude(n, x) && OursOnly(n, x) && Clean(x) && AmpersandFree(x)
    && (row.own.Some? ==> Admits(n, x, [row.own.value, row.prefix]))
  }

  /** A filter that holds nothing of ours; where it names the account's own row alone, it is beside something else. */
  ghost predicate OwnersFilter(n: Naming, row: OwnRow, cs: seq<Condition>) {
    Plain(cs) && !AnyOursExclude(n, cs) && RootedFor(n, row, cs)
  }

  lemma DamagedPlain(n: Naming, row: OwnRow, cs: seq<Condition>, x: Condition, behind: bool)
    requires OwnersFilter(n, row, cs) && OurExclude(n, row, x)
    ensures Plain(Damaged(cs, x, behind))
  {
    hide Clean;
    hide AmpersandFree;
    hide OursExclude;
    hide OursOnly;
    hide Admits;
    hide Rooted;
    var d := Damaged(cs, x, behind);
    PlainIs(cs);
    forall i | 0 <= i < |d|
      ensures Clean(d[i]) && AmpersandFree(d[i]) && d[i].sep in CONDITION_SEPS
      ensures d[0].sep == '|'
    {
      ConditionIsGood(cs, if behind then (if i < |cs| then i else 0) else if i > 0 then i - 1 else 0);
      CleanWithSep(x, '|');
    }
    assert NoAmpersand(d) by {
      forall i, j | 0 <= i < |d| && 0 <= j < |d[i].values|
        ensures Free(d[i].values[j], AMPERSAND)
      {
        assert AmpersandFree(d[i]);
        FreeValue(d[i], j);
      }
    }
  }

  lemma FreeValue(c: Condition, j: nat)
    requires AmpersandFree(c) && j < |c.values|
    ensures Free(c.values[j], AMPERSAND)
  {
  }

  lemma CleanWithSep(c: Condition, sep: char)
    requires Clean(c) && AmpersandFree(c)
    ensures Clean(c.(sep := sep)) && AmpersandFree(c.(sep := sep))
  {
  }

  lemma DamagedOneOurs(n: Naming, row: OwnRow, cs: seq<Condition>, x: Condition, behind: bool)
    requires OwnersFilter(n, row, cs)
    ensures OneOurs(n, Damaged(cs, x, behind))
  {
    hide OursExclude;
    var d := Damaged(cs, x, behind);
    forall i, j | 0 <= i < j < |d|
      ensures !(OursExclude(n, d[i]) && OursExclude(n, d[j]))
    {
      if behind {
        assert d[i] == cs[i];
      } else {
        assert d[j] == cs[j - 1];
      }
    }
  }

  lemma DamagedRooted(n: Naming, own: string, cs: seq<Condition>, x: Condition, behind: bool)
    requires Rooted(n, own, cs) && IsExclude(x)
    ensures Rooted(n, own, Damaged(cs, x, behind))
  {
    hide Stays;
    hide AllMine;
    var d, lead := Damaged(cs, x, behind), if behind then 0 else 1;
    forall k | 0 <= k < |d| && OwnOnly(n, own, d[k])
      ensures RootedAt(n, own, d, k)
    {
      assert lead <= k < lead + |cs| && d[k] == cs[k - lead];
      assert RootedAt(n, own, cs, k - lead);
      var m :| 0 <= m < |cs| && Joined(cs, k - lead, m) && Stays(n, own, cs[m]);
      JoinedShift(cs, x, behind, k - lead, m);
      assert Stays(n, own, d[m + lead]);
    }
  }

  lemma DamagedAt(cs: seq<Condition>, x: Condition, behind: bool, j: nat)
    requires j < |cs|
    ensures var lead := if behind then 0 else 1;
            |Damaged(cs, x, behind)| == |cs| + 1 && Damaged(cs, x, behind)[j + lead] == cs[j]
  {
  }

  lemma JoinedShift(cs: seq<Condition>, x: Condition, behind: bool, k: nat, m: nat)
    requires k < |cs| && m < |cs| && Joined(cs, k, m)
    ensures |Damaged(cs, x, behind)| == |cs| + 1
    ensures var d, lead := Damaged(cs, x, behind), if behind then 0 else 1;
            Joined(d, k + lead, m + lead) && d[m + lead] == cs[m]
  {
    hide Damaged;
    DamagedAt(cs, x, behind, m);
    var d, lead := Damaged(cs, x, behind), if behind then 0 else 1;
    forall j | (if k < m then k else m) + lead < j <= (if k < m then m else k) + lead
      ensures d[j].sep != '&'
    {
      DamagedAt(cs, x, behind, j - lead);
    }
  }

  // ----- letting the own row in leaves the damaged group alone -----

  lemma GuardedUntouched(n: Naming, own: string, prefix: string, valueSep: string, g: seq<Condition>)
    requires |g| > 0 && AnyOursExclude(n, g) && AnyAdmits(n, g, [own, prefix])
    ensures DropGroup(n, own, g) == g && AdmitGroup(n, own, prefix, valueSep, g) == g
  {
    hide AnyOursExclude;
    hide AnyAdmits;
    SparePending(n, own, g);
    assert Refit(g, g[0].sep) == g;
  }

  lemma {:induction false} DropSnoc(n: Naming, own: string, gs: seq<seq<Condition>>, g: seq<Condition>)
    requires (forall q :: 0 <= q < |gs| ==> |gs[q]| > 0) && |g| > 0 && DropGroup(n, own, g) == g
    ensures DropGroups(n, own, gs + [g]) == DropGroups(n, own, gs) + [g]
    decreases |gs|
  {
    hide DropGroup;
    if |gs| == 0 {
      assert gs + [g] == [g] && [g][1..] == [];
    } else {
      DropSnoc(n, own, gs[1..], g);
      assert (gs + [g])[1..] == gs[1..] + [g] && (gs + [g])[0] == gs[0];
      var d := DropGroup(n, own, gs[0]);
      Assoc(if |d| == 0 then [] else [d], DropGroups(n, own, gs[1..]), [g]);
    }
  }

  lemma DropCons(n: Naming, own: string, g: seq<Condition>, gs: seq<seq<Condition>>)
    requires (forall q :: 0 <= q < |gs| ==> |gs[q]| > 0) && |g| > 0 && DropGroup(n, own, g) == g
    ensures DropGroups(n, own, [g] + gs) == [g] + DropGroups(n, own, gs)
  {
    hide DropGroup;
    assert ([g] + gs)[1..] == gs;
  }

  lemma AdmitGroupsConcat(n: Naming, own: string, prefix: string, valueSep: string, a: seq<seq<Condition>>,
                          b: seq<seq<Condition>>)
    ensures AdmitGroups(n, own, prefix, valueSep, a + b) ==
            AdmitGroups(n, own, prefix, valueSep, a) + AdmitGroups(n, own, prefix, valueSep, b)
  {
    hide AdmitGroup;
  }

  lemma AdmitGroupsOne(n: Naming, own: string, prefix: string, valueSep: string, g: seq<Condition>)
    requires AdmitGroup(n, own, prefix, valueSep, g) == g
    ensures AdmitGroups(n, own, prefix, valueSep, [g]) == [g]
  {
    hide AdmitGroup;
  }

  /** What becomes of other groups, and that it changes no verdict. */
  function Others(n: Naming, own: string, prefix: string, valueSep: string, gs: seq<seq<Condition>>)
    : seq<seq<Condition>>
    requires forall q :: 0 <= q < |gs| ==> |gs[q]| > 0
  {
    AdmitGroups(n, own, prefix, valueSep, DropGroups(n, own, gs))
  }

  lemma OthersHold(n: Naming, own: string, prefix: string, valueSep: string, gs: seq<seq<Condition>>, item: Item)
    requires (forall q :: 0 <= q < |gs| ==> |gs[q]| > 0) && NoneOwnAlone(n, own, gs) && !CarriesLabel(n, item, own)
    ensures AllGroupsHold(n, Others(n, own, prefix, valueSep, gs), item) <==> AllGroupsHold(n, gs, item)
  {
    hide DropGroups;
    hide AdmitGroup;
    hide GroupHolds;
    hide NoneOwnAlone;
    hide CarriesLabel;
    DropGroupsHold(n, own, gs, item);
    var ds := DropGroups(n, own, gs);
    forall q | 0 <= q < |ds|
      ensures GroupHolds(n, Others(n, own, prefix, valueSep, gs)[q], item) <==> GroupHolds(n, ds[q], item)
    {
      AdmitGroupHolds(n, own, prefix, valueSep, ds[q], item);
    }
    SameVerdicts(n, ds, Others(n, own, prefix, valueSep, gs), item);
  }

  lemma UnledAt(cs: seq<Condition>, i: nat)
    requires i < |cs|
    ensures Unled(cs)[i] == cs[i].(sep := Unled(cs)[i].sep)
    ensures i > 0 ==> Unled(cs)[i].sep == cs[i].sep
  {
  }

  lemma UnledTerms(n: Naming, cs: seq<Condition>, item: Item)
    ensures var ts, us := Terms(n, cs, item), Terms(n, Unled(cs), item);
            && |us| == |ts| && (forall i :: 0 <= i < |ts| ==> us[i].holds == ts[i].holds)
            && forall i :: 1 <= i < |ts| ==> us[i].conj == ts[i].conj
  {
    hide Holds;
    hide Unled;
    forall i | 0 <= i < |cs|
      ensures Holds(n, Unled(cs)[i], item) == Holds(n, cs[i], item)
      ensures i > 0 ==> Unled(cs)[i].sep == cs[i].sep
    {
      UnledAt(cs, i);
      SepHolds(n, cs[i], Unled(cs)[i].sep, item);
    }
  }

  lemma UnledShows(n: Naming, cs: seq<Condition>, item: Item)
    ensures Shows(PipeFirst, n, Unled(cs), item) <==> Shows(PipeFirst, n, cs, item)
  {
    hide Terms;
    hide Unled;
    hide Grouped;
    hide Strict;
    UnledTerms(n, cs, item);
    FirstSeparatorIrrelevant(Terms(n, Unled(cs), item), Terms(n, cs, item));
  }

  lemma SepHolds(n: Naming, c: Condition, sep: char, item: Item)
    ensures Holds(n, c.(sep := sep), item) == Holds(n, c, item)
  {
  }

  lemma FlattenShows(n: Naming, gs: seq<seq<Condition>>, item: Item)
    requires GroupShape(gs)
    ensures Shows(PipeFirst, n, Flatten(gs), item) <==> AllGroupsHold(n, gs, item)
  {
    hide Shows;
    hide AllGroupsHold;
    GroupsOfFlatten(gs);
    ShowsByGroups(n, Flatten(gs), item);
  }

  // ----- damaged behind -----

  lemma ShapePrefix(gs: seq<seq<Condition>>, g: seq<Condition>, c: Condition)
    requires GroupShape(gs + [g + [c]]) && |g| > 0
    ensures GroupShape(gs + [g])
  {
    var all: seq<seq<Condition>>, less: seq<seq<Condition>> := gs + [g + [c]], gs + [g];
    forall q | 0 <= q < |less|
      ensures |less[q]| > 0 && (q > 0 ==> less[q][0].sep == '&')
      ensures forall k :: 1 <= k < |less[q]| ==> less[q][k].sep != '&'
    {
      assert all[q][..|less[q]|] == less[q];
      assert forall k :: 0 <= k < |less[q]| ==> all[q][k] == less[q][k];
    }
  }

  lemma UnledSnoc(cs: seq<Condition>, c: Condition)
    requires |cs| > 0
    ensures Unled(cs + [c]) == Unled(cs) + [c]
  {
  }

  /** The own row let in beside an exclude of ours behind the owner's filter: the exclude still ends it, and without it
      the filter shows what the owner's did. */
  lemma BehindAdmitted(n: Naming, own: string, prefix: string, cs: seq<Condition>, c: Condition, item: Item)
    returns (b: seq<Condition>)
    requires OwnLabel(n, own) && Plain(cs + [c]) && |cs| > 0 && NoneOwnAlone(n, own, GroupsOf(cs))
    requires c.sep == '|' && OursExclude(n, c) && Admits(n, c, [own, prefix]) && !CarriesLabel(n, item, own)
    ensures |b| > 0 && ReadBack(AdmitConditions(n, own, prefix, true, cs + [c])) == b + [c]
    ensures Shows(PipeFirst, n, b, item) <==> Shows(PipeFirst, n, cs, item)
  {
    hide OursExclude;
    hide Admits;
    hide Shows;
    hide Plain;
    hide OwnLabel;
    hide NoneOwnAlone;
    hide CarriesLabel;
    hide AllGroupsHold;
    hide DropGroup;
    hide DropGroups;
    hide AdmitGroup;
    hide ReadBack;
    hide HouseValueSep;
    var gs, d := GroupsOf(cs), cs + [c];
    var m := |gs| - 1;
    var init, last, sep := gs[..m], gs[m], HouseValueSep(d);
    SplitLast(gs);
    GroupsShape(cs);
    GroupsSnoc(cs, c);
    LastGuarded(n, last, c, [own, prefix]);
    GuardedUntouched(n, own, prefix, sep, last + [c]);
    DropSnoc(n, own, init, last + [c]);
    AdmitGroupsConcat(n, own, prefix, sep, DropGroups(n, own, init), [last + [c]]);
    AdmitGroupsOne(n, own, prefix, sep, last + [c]);
    var hs := Others(n, own, prefix, sep, init);
    assert ShownGroups(n, own, prefix, d) == hs + [last + [c]];
    BehindShape(n, own, prefix, cs, c, hs, last);
    b := Unled(Flatten(hs + [last]));
    BehindVerdict(n, own, prefix, sep, cs, item);
    UnledShows(n, Flatten(hs + [last]), item);
    FlattenShows(n, hs + [last], item);
  }

  lemma LastGuarded(n: Naming, g: seq<Condition>, c: Condition, rowLabels: seq<string>)
    requires OursExclude(n, c) && Admits(n, c, rowLabels)
    ensures AnyOursExclude(n, g + [c]) && AnyAdmits(n, g + [c], rowLabels)
    ensures AnyOursExclude(n, [c] + g) && AnyAdmits(n, [c] + g, rowLabels)
  {
    hide OursExclude;
    hide Admits;
    assert (g + [c])[|g|] == c && ([c] + g)[0] == c;
  }

  lemma BehindShape(n: Naming, own: string, prefix: string, cs: seq<Condition>, c: Condition,
                    hs: seq<seq<Condition>>, last: seq<Condition>)
    requires OwnLabel(n, own) && Plain(cs + [c]) && |last| > 0
    requires ShownGroups(n, own, prefix, cs + [c]) == hs + [last + [c]]
    ensures GroupShape(hs + [last]) && |Flatten(hs + [last])| > 0
    ensures ReadBack(AdmitConditions(n, own, prefix, true, cs + [c])) == Unled(Flatten(hs + [last])) + [c]
  {
    hide ShownGroups;
    hide Plain;
    hide OwnLabel;
    hide ReadBack;
    hide GroupShape;
    PlainIs(cs + [c]);
    AdmittedShape(n, own, prefix, true, cs + [c]);
    ShapePrefix(hs, last, c);
    FlattenSnoc(hs, last + [c]);
    FlattenSnoc(hs, last);
    Assoc(Flatten(hs), last, [c]);
    UnledSnoc(Flatten(hs + [last]), c);
    AdmittedUnblanked(n, own, prefix, true, cs + [c]);
    UnledIsReadBack(AdmitConditions(n, own, prefix, true, cs + [c]));
    UnledTwice(Flatten(hs + [last + [c]]));
  }

  lemma BehindVerdict(n: Naming, own: string, prefix: string, valueSep: string, cs: seq<Condition>, item: Item)
    requires |cs| > 0 && NoneOwnAlone(n, own, GroupsOf(cs)) && !CarriesLabel(n, item, own)
    ensures forall q :: 0 <= q < |GroupsOf(cs)| ==> |GroupsOf(cs)[q]| > 0
    ensures var gs := GroupsOf(cs);
            AllGroupsHold(n, Others(n, own, prefix, valueSep, gs[..|gs| - 1]) + [gs[|gs| - 1]], item) <==>
            Shows(PipeFirst, n, cs, item)
  {
    hide Shows;
    hide AllGroupsHold;
    hide Others;
    hide GroupHolds;
    hide OwnAlone;
    var gs := GroupsOf(cs);
    var init, last := gs[..|gs| - 1], gs[|gs| - 1];
    GroupsShape(cs);
    ShowsByGroups(n, cs, item);
    SplitLast(gs);
    AllGroupsHoldSnoc(n, init, last, item);
    OthersHold(n, own, prefix, valueSep, init, item);
    AllGroupsHoldSnoc(n, Others(n, own, prefix, valueSep, init), last, item);
  }

  lemma BehindLifted(n: Naming, b: seq<Condition>, c: Condition)
    requires |b| > 0 && !AnyOursExclude(n, b) && OursExclude(n, c) && OursOnly(n, c) && c.sep == '|'
    ensures Lifted(n, b + [c]) == b && LiftChanges(n, b + [c])
  {
    hide Enforced;
    hide OursExclude;
    var d := b + [c];
    var edits := LiftEdits(n, d);
    forall k | 0 <= k < |d|
      ensures edits[k] == if k < |b| then Some(d[k]) else None
    {
      OursUnlessMine(n, d[k]);
      assert k < |b| ==> d[k] == b[k];
      if k == |b| {
        LastUnenforced(b, c);
      }
    }
    CollectLast(edits);
    CollectAll(b, edits[..|b|]);
    assert LiftEdit(n, d, |b|) != Some(d[|b|]);
  }

  lemma LastUnenforced(b: seq<Condition>, c: Condition)
    requires |b| > 0 && c.sep == '|'
    ensures !Enforced(b + [c], |b|)
  {
    assert (b + [c])[|b|].sep != '&';
  }

  // ----- damaged before -----

  lemma ShapeWithout(c: Condition, g: seq<Condition>, gs: seq<seq<Condition>>)
    requires GroupShape([[c] + g] + gs) && |g| > 0
    ensures GroupShape([g] + gs)
  {
    var all: seq<seq<Condition>>, less: seq<seq<Condition>> := [[c] + g] + gs, [g] + gs;
    forall q | 0 <= q < |less|
      ensures |less[q]| > 0 && (q > 0 ==> less[q][0].sep == '&')
      ensures forall k :: 1 <= k < |less[q]| ==> less[q][k].sep != '&'
    {
      if q == 0 {
        assert forall k :: 0 <= k < |g| ==> all[0][k + 1] == g[k];
      } else {
        assert all[q] == less[q];
      }
    }
  }

  lemma BeforeAdmitted(n: Naming, own: string, prefix: string, cs: seq<Condition>, c: Condition, item: Item)
    returns (b: seq<Condition>)
    requires OwnLabel(n, own) && Plain([c] + cs) && |cs| > 0 && cs[0].sep == '|'
    requires NoneOwnAlone(n, own, GroupsOf(cs))
    requires c.sep == '|' && OursExclude(n, c) && Admits(n, c, [own, prefix]) && !CarriesLabel(n, item, own)
    ensures |b| > 0 && b[0].sep == '|' && ReadBack(AdmitConditions(n, own, prefix, true, [c] + cs)) == [c] + b
    ensures Shows(PipeFirst, n, b, item) <==> Shows(PipeFirst, n, cs, item)
  {
    hide OursExclude;
    hide Admits;
    hide Shows;
    hide Plain;
    hide OwnLabel;
    hide NoneOwnAlone;
    hide CarriesLabel;
    hide AllGroupsHold;
    hide DropGroup;
    hide DropGroups;
    hide AdmitGroup;
    hide ReadBack;
    hide HouseValueSep;
    hide GroupsOf;
    hide Flatten;
    var gs, d := GroupsOf(cs), [c] + cs;
    FirstAndRestAt(cs);
    var first, rest, sep := gs[0], gs[1..], HouseValueSep(d);
    GroupsShape(cs);
    GroupsJoin(c, cs);
    LastGuarded(n, first, c, [own, prefix]);
    GuardedUntouched(n, own, prefix, sep, [c] + first);
    DropCons(n, own, [c] + first, rest);
    AdmitGroupsConcat(n, own, prefix, sep, [[c] + first], DropGroups(n, own, rest));
    AdmitGroupsOne(n, own, prefix, sep, [c] + first);
    var hs := Others(n, own, prefix, sep, rest);
    assert ShownGroups(n, own, prefix, d) == [[c] + first] + hs;
    b := Flatten([first] + hs);
    BeforeShape(n, own, prefix, cs, c, first, hs);
    BeforeVerdict(n, own, prefix, sep, cs, item);
    FlattenShows(n, [first] + hs, item);
  }

  lemma BeforeShape(n: Naming, own: string, prefix: string, cs: seq<Condition>, c: Condition, first: seq<Condition>,
                    hs: seq<seq<Condition>>)
    requires OwnLabel(n, own) && Plain([c] + cs) && |first| > 0 && c.sep == '|'
    requires ShownGroups(n, own, prefix, [c] + cs) == [[c] + first] + hs
    ensures GroupShape([first] + hs)
    ensures var b := Flatten([first] + hs);
            && |b| > 0 && b[0] == first[0]
            && ReadBack(AdmitConditions(n, own, prefix, true, [c] + cs)) == [c] + b
  {
    hide ShownGroups;
    hide Plain;
    hide OwnLabel;
    hide ReadBack;
    hide GroupShape;
    var d := [c] + cs;
    PlainIs(d);
    AdmittedShape(n, own, prefix, true, d);
    ShapeWithout(c, first, hs);
    FlattenCons([c] + first, hs);
    FlattenCons(first, hs);
    Assoc([c], first, Flatten(hs));
    AdmittedUnblanked(n, own, prefix, true, d);
    UnledIsReadBack(AdmitConditions(n, own, prefix, true, d));
    UnledTwice(Flatten([[c] + first] + hs));
    UnledSame([c] + Flatten([first] + hs));
  }

  lemma BeforeVerdict(n: Naming, own: string, prefix: string, valueSep: string, cs: seq<Condition>, item: Item)
    requires |cs| > 0 && NoneOwnAlone(n, own, GroupsOf(cs)) && !CarriesLabel(n, item, own)
    ensures |GroupsOf(cs)| > 0 && forall q :: 0 <= q < |GroupsOf(cs)| ==> |GroupsOf(cs)[q]| > 0
    ensures var gs := GroupsOf(cs);
            AllGroupsHold(n, [gs[0]] + Others(n, own, prefix, valueSep, gs[1..]), item) <==>
            Shows(PipeFirst, n, cs, item)
  {
    hide Shows;
    hide AllGroupsHold;
    hide Others;
    hide GroupHolds;
    hide OwnAlone;
    var gs := GroupsOf(cs);
    GroupsShape(cs);
    ShowsByGroups(n, cs, item);
    assert gs == [gs[0]] + gs[1..];
    AllGroupsHoldCons(n, gs[0], gs[1..], item);
    OthersHold(n, own, prefix, valueSep, gs[1..], item);
    AllGroupsHoldCons(n, gs[0], Others(n, own, prefix, valueSep, gs[1..]), item);
  }

  lemma BeforeLifted(n: Naming, b: seq<Condition>, c: Condition)
    requires |b| > 0 && b[0].sep == '|' && !AnyOursExclude(n, b) && OursExclude(n, c) && OursOnly(n, c)
    ensures Lifted(n, [c] + b) == b && LiftChanges(n, [c] + b)
  {
    hide OursExclude;
    var d := [c] + b;
    var edits := LiftEdits(n, d);
    assert d[1].sep != '&';
    forall k | 0 <= k < |d|
      ensures edits[k] == if k > 0 then Some(d[k]) else None
    {
      OursUnlessMine(n, d[k]);
      assert k > 0 ==> d[k] == b[k - 1];
    }
    CollectWithoutFirst(d, edits);
    assert LiftEdit(n, d, 0) != Some(d[0]);
  }

  // ----- what is planned for it -----

  lemma OnlyOurs(n: Naming, a: seq<Condition>, c: Condition, b: seq<Condition>)
    requires OneOurs(n, a + [c] + b) && OursExclude(n, c)
    ensures !AnyOursExclude(n, a) && !AnyOursExclude(n, b)
  {
    hide OursExclude;
    var cs := a + [c] + b;
    assert cs[|a|] == c;
    forall k | 0 <= k < |a|
      ensures !OursExclude(n, a[k])
    {
      assert cs[k] == a[k];
    }
    forall k | 0 <= k < |b|
      ensures !OursExclude(n, b[k])
    {
      assert cs[|a| + 1 + k] == b[k];
    }
  }

  /** What is lifted out of a damaged filter, the own row let in, is the damage, and what is left shows what the owner's
      filter did. */
  lemma DamageLifted(n: Naming, row: OwnRow, cs: seq<Condition>, x: Condition, behind: bool, item: Item)
    requires SaneNaming(n) && PlannableRow(n, row) && (row.own.Some? ==> row.show) && NotARow(n, row, item)
    requires OwnersFilter(n, row, cs) && OurExclude(n, row, x) && |cs| > 0
    ensures var es := AdmitFor(n, row, Damaged(cs, x, behind));
            && LiftChanges(n, es)
            && (Shows(PipeFirst, n, Lifted(n, es), item) <==> Shows(PipeFirst, n, cs, item))
  {
    hide Shows;
    hide Plain;
    hide OwnLabel;
    hide OursExclude;
    hide OursOnly;
    hide Lifted;
    hide LiftChanges;
    hide Rooted;
    hide AdmitConditions;
    hide OneOurs;
    hide Admits;
    hide NoBlankTag;
    hide CarriesLabel;
    hide Clean;
    hide AmpersandFree;
    hide NoneOwnAlone;
    hide AnyOursExclude;
    var c, d := x.(sep := '|'), Damaged(cs, x, behind);
    SepOurs(n, x, '|');
    DamagedPlain(n, row, cs, x, behind);
    DamagedOneOurs(n, row, cs, x, behind);
    AdmitKeepsOneOurs(n, row, d);
    var b := cs;
    PlainOpens(cs);
    if row.own.Some? {
      RootedNoneAlone(n, row.own.value, cs);
      SepAdmits(n, x, '|', [row.own.value, row.prefix]);
      if behind {
        b := BehindAdmitted(n, row.own.value, row.prefix, cs, c, item);
      } else {
        b := BeforeAdmitted(n, row.own.value, row.prefix, cs, c, item);
      }
    }
    if behind {
      assert b + [c] + [] == b + [c];
      OnlyOurs(n, b, c, []);
      BehindLifted(n, b, c);
    } else {
      assert [] + [c] + b == [c] + b;
      OnlyOurs(n, [], c, b);
      BeforeLifted(n, b, c);
    }
  }

  lemma SepAdmits(n: Naming, c: Condition, sep: char, rowLabels: seq<string>)
    ensures Admits(n, c.(sep := sep), rowLabels) <==> Admits(n, c, rowLabels)
  {
  }

  lemma PlainOpens(cs: seq<Condition>)
    requires Plain(cs) && |cs| > 0
    ensures cs[0].sep == '|'
  {
  }

  /** One write repairs a damaged filter: everything that is not a row is shown exactly as the owner's own filter showed
      it, the account's own row is let through, and a second plan changes nothing. */
  lemma RepairedInOneWrite(n: Naming, raw: string, wanted: seq<string>, row: OwnRow, cs: seq<Condition>, x: Condition,
                           behind: bool, item: Item)
    requires ShortlistLabels(n, wanted) && SaneNaming(n) && PlannableRow(n, row) && (row.own.Some? ==> row.show)
    requires OwnersFilter(n, row, cs) && OurExclude(n, row, x) && NotARow(n, row, item)
    requires Readable(raw) && ParseFilter(raw) == Ok(Damaged(cs, x, behind))
    ensures Plan(n, raw, wanted, row).Ok? && ParseFilter(Plan(n, raw, wanted, row).value).Ok?
    ensures var planned := ParseFilter(Plan(n, raw, wanted, row).value).value;
            && (Shows(PipeFirst, n, planned, item) <==> Shows(PipeFirst, n, cs, item))
            && RowAllowed(n, row, planned)
    ensures Plan(n, Plan(n, raw, wanted, row).value, wanted, row) == Plan(n, raw, wanted, row)
  {
    hide Shows;
    hide Plain;
    hide PlannableRow;
    hide ShortlistLabels;
    hide SaneNaming;
    hide Lifted;
    hide LiftChanges;
    hide RootedFor;
    hide AdmitFor;
    hide OneOurs;
    hide OurExclude;
    hide NotARow;
    hide AnyOursExclude;
    hide RowAllowed;
    hide PlanFrom;
    hide Passed;
    hide ParseFilter;
    hide Serialize;
    hide LiteralAmpersand;
    hide Damaged;
    var d := Damaged(cs, x, behind);
    DamagedOneOurs(n, row, cs, x, behind);
    OneClauseSettles(n, raw, wanted, row);
    if |cs| == 0 {
      NothingDamaged(cs, x, behind);
      NothingChanges(n, row, cs);
      PlanNeverShowsMore(n, raw, wanted, row, item);
    } else {
      DamageRooted(n, row, cs, x, behind);
      DamageLifted(n, row, cs, x, behind, item);
      ReadablePlain(raw);
      OneClauseShows(n, wanted, row, PLAN_PASSES, d, item);
      PlanText(n, wanted, row, PLAN_PASSES, d);
      PlainSeps(Passed(n, wanted, row, PLAN_PASSES, d));
    }
  }

  lemma NothingDamaged(cs: seq<Condition>, x: Condition, behind: bool)
    requires |cs| == 0
    ensures Damaged(cs, x, behind) == cs
  {
  }

  lemma DamageRooted(n: Naming, row: OwnRow, cs: seq<Condition>, x: Condition, behind: bool)
    requires OwnersFilter(n, row, cs) && OurExclude(n, row, x)
    ensures RootedFor(n, row, Damaged(cs, x, behind))
  {
    hide Rooted;
    hide Plain;
    hide OursOnly;
    hide Clean;
    hide AmpersandFree;
    OursIsExclude(n, x);
    if row.own.Some? {
      DamagedRooted(n, row.own.value, cs, x, behind);
    }
  }

  /** Nothing is lifted out of an empty filter. */
  lemma NothingChanges(n: Naming, row: OwnRow, cs: seq<Condition>)
    requires |cs| == 0
    ensures !LiftChanges(n, AdmitFor(n, row, cs))
  {
    assert cs == [] && GroupsOf([]) == [];
  }
}
