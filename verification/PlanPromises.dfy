/** What a plan keeps to on filters that Shortlist has damaged once: with one clause of ours, wherever it stands, the
    filter is settled in one write, the own row shows, and nobody sees more than the owner allowed. */
module PlanPromises {
  import opened Options
  import opened ShareFilter
  import opened FilterSemantics
  import opened FilterEdits
  import opened FilterKin
  import opened FilterMerge
  import opened MergeTheorems
  import opened MergeStability
  import opened FilterAllow
  import opened AllowTheorems
  import opened AdmitIdle
  import opened PassShape
  import FirstGroup
  import opened SharePlan
  import opened PlanSteps
  import opened PlanPasses

  // ----- one clause of ours -----

  /** At most one clause of the filter excludes a label of ours. */
  ghost predicate OneOurs(n: Naming, cs: seq<Condition>) {
    forall i, j :: 0 <= i < j < |cs| ==> !(OursExclude(n, cs[i]) && OursExclude(n, cs[j]))
  }

  lemma ExcludePartOurs(n: Naming, c: Condition)
    ensures OursExclude(n, c) ==> ExcludePart(c).Some?
    ensures ExcludePart(c).Some? ==> (OursExclude(n, ExcludePart(c).value) <==> OursExclude(n, c))
  {
  }

  lemma OneOursOfExcludes(n: Naming, cs: seq<Condition>)
    ensures OneOurs(n, ExcludesOf(cs)) <==> OneOurs(n, cs)
  {
    hide OursExclude;
    hide ExcludePart;
    var parts, kept := ExcludeParts(cs), ExcludesOf(cs);
    if OneOurs(n, cs) {
      forall k, m | 0 <= k < m < |kept|
        ensures !(OursExclude(n, kept[k]) && OursExclude(n, kept[m]))
      {
        OriginMonotone(parts, k, m);
        ExcludePartOurs(n, cs[Origin(parts, k)]);
        ExcludePartOurs(n, cs[Origin(parts, m)]);
      }
    }
    if OneOurs(n, kept) {
      forall i, j | 0 <= i < j < |cs|
        ensures !(OursExclude(n, cs[i]) && OursExclude(n, cs[j]))
      {
        if OursExclude(n, cs[i]) && OursExclude(n, cs[j]) {
          TwoKept(n, cs, i, j);
        }
      }
    }
  }

  lemma TwoKept(n: Naming, cs: seq<Condition>, i: nat, j: nat)
    requires i < j < |cs| && OursExclude(n, cs[i]) && OursExclude(n, cs[j])
    ensures !OneOurs(n, ExcludesOf(cs))
  {
    hide OursExclude;
    hide ExcludePart;
    var parts := ExcludeParts(cs);
    ExcludePartOurs(n, cs[i]);
    ExcludePartOurs(n, cs[j]);
    var k := KeptHasPlace(parts, i);
    var m := KeptHasPlace(parts, j);
    if m < k {
      OriginMonotone(parts, m, k);
    }
  }

  lemma OneOursBack(n: Naming, cs: seq<Condition>)
    requires SaneNaming(n) && OneOurs(n, cs)
    ensures OneOurs(n, ReadBack(cs))
  {
    forall k | 0 <= k < |cs|
      ensures OursExclude(n, ReadBack(cs)[k]) ==> OursExclude(n, cs[k])
    {
      assert cs[k].values == [""] ==> ReadBack(cs)[k].values == [];
    }
  }

  lemma AdmitKeepsOneOurs(n: Naming, row: OwnRow, cs: seq<Condition>)
    requires SaneNaming(n) && (row.own.Some? ==> row.show) && OneOurs(n, cs)
    ensures OneOurs(n, AdmitFor(n, row, cs))
  {
    hide OneOurs;
    hide AdmitConditions;
    hide ExcludesOf;
    if row.own.Some? {
      var ds := AdmitConditions(n, row.own.value, row.prefix, true, cs);
      AdmitKeepsExcludes(n, row.own.value, row.prefix, cs);
      OneOursOfExcludes(n, cs);
      OneOursOfExcludes(n, ds);
      OneOursBack(n, ds);
    }
  }

  /** A lift that changes anything takes the one clause of ours. */
  lemma LiftTakesOurs(n: Naming, cs: seq<Condition>, k: nat)
    requires OneOurs(n, cs) && LiftChanges(n, cs) && k < |Lifted(n, cs)|
    ensures !OursExclude(n, Lifted(n, cs)[k])
  {
    hide Enforced;
    hide OneOurs;
    var i :| 0 <= i < |cs| && LiftEdit(n, cs, i) != Some(cs[i]);
    var j := Origin(LiftEdits(n, cs), k);
    OursUnlessMine(n, cs[i]);
    OursUnlessMine(n, cs[j]);
    if OursExclude(n, Lifted(n, cs)[k]) {
      OursUnlessMine(n, Lifted(n, cs)[k]);
      if WithoutValues(cs[i], n.ours).Some? {
        RemainderHoldsNoneOfOurs(n, cs[i]);
      }
      OnlyOne(n, cs, i, j);
    }
  }

  lemma OnlyOne(n: Naming, cs: seq<Condition>, i: nat, j: nat)
    requires OneOurs(n, cs) && i < |cs| && j < |cs| && OursExclude(n, cs[i]) && OursExclude(n, cs[j])
    ensures i == j
  {
  }

  /** No clause of ours stands where Plex ignores it. */
  ghost predicate NoneVoided(n: Naming, cs: seq<Condition>) {
    forall k :: 0 <= k < |cs| ==> !Unenforced(n, cs, k)
  }

  lemma MergedNoneVoided(n: Naming, wanted: seq<string>, cs: seq<Condition>)
    requires SaneNaming(n) && OneOurs(n, cs) && LiftChanges(n, cs)
    ensures NoneVoided(n, MergeFor(n, wanted, cs)) && OneOurs(n, MergeFor(n, wanted, cs))
  {
    hide OursExclude;
    hide Lifted;
    hide Unenforced;
    hide OneOurs;
    hide LiftChanges;
    hide Missing;
    hide IsTarget;
    var kept, merged := Lifted(n, cs), MergedConditions(n, cs, wanted);
    forall k | 0 <= k < |kept|
      ensures !OursExclude(n, kept[k])
    {
      LiftTakesOurs(n, cs, k);
    }
    forall k | 0 <= k < |merged|
      ensures !Unenforced(n, ReadBack(merged), k)
    {
      UnenforcedAfterMerge(n, cs, wanted, k);
      if k < |kept| {
        UnenforcedOurs(n, kept, k);
      }
    }
    PlacedOne(n, kept, merged, FirstTarget(kept, 0));
    OneOursBack(n, merged);
  }

  lemma UnenforcedOurs(n: Naming, cs: seq<Condition>, k: nat)
    requires k < |cs|
    ensures Unenforced(n, cs, k) ==> OursExclude(n, cs[k])
  {
    OursUnlessMine(n, cs[k]);
  }

  lemma PlacedOne(n: Naming, kept: seq<Condition>, merged: seq<Condition>, t: nat)
    requires |kept| <= |merged| <= |kept| + 1 && forall k :: 0 <= k < |kept| ==> !OursExclude(n, kept[k])
    requires forall k :: 0 <= k < |merged| && k != t ==> k < |kept| && merged[k] == kept[k]
    ensures OneOurs(n, merged)
  {
    hide OursExclude;
  }

  lemma PlacedKin(n: Naming, wanted: seq<string>, cs: seq<Condition>)
    requires Plain(cs) && Lifted(n, cs) == cs
    ensures var ds := MergeFor(n, wanted, cs);
            && |cs| <= |ds| <= |cs| + 1 && Akin(cs, ds[..|cs|])
            && (|ds| > |cs| ==> IsExclude(ds[|cs|]) && (|cs| > 0 ==> ds[|cs|].sep == '&'))
  {
    hide Lifted;
    hide Kin;
    hide Missing;
    hide Plain;
    forall k | 0 <= k < |cs|
      ensures Kin(cs, MergeFor(n, wanted, cs)[..|cs|], k)
    {
      PlacedKinAt(n, wanted, cs, k);
    }
  }

  lemma PlacedKinAt(n: Naming, wanted: seq<string>, cs: seq<Condition>, k: nat)
    requires Plain(cs) && Lifted(n, cs) == cs && k < |cs|
    ensures |MergeFor(n, wanted, cs)| >= |cs| && Kin(cs, MergeFor(n, wanted, cs)[..|cs|], k)
  {
    hide Lifted;
    hide Kin;
    hide Missing;
    hide Plain;
    hide SameSay;
    var merged := MergedConditions(n, cs, wanted);
    var ds := MergeFor(n, wanted, cs)[..|cs|];
    if merged[k] == cs[k] {
      FirstGroup.PlainIs(cs);
      ConditionIsGood(cs, k);
      SameSayBack(cs[k], ds[k].sep);
      SameKin(cs, ds, k);
    } else {
      GrownKin(cs, cs, merged[..|cs|], k);
      KinOnly(cs, ReadBack(merged[..|cs|]), ds, k);
    }
  }

  lemma SameSayBack(c: Condition, sep: char)
    requires c.values != [""]
    ensures SameSay(c, Blanked(c).(sep := sep))
  {
  }

  lemma SameKin(cs: seq<Condition>, ds: seq<Condition>, k: nat)
    requires k < |cs| == |ds| && SameSay(cs[k], ds[k]) && (k > 0 ==> ds[k].sep == cs[k].sep)
    ensures Kin(cs, ds, k)
  {
  }

  lemma UnchangedLeads(n: Naming, cs: seq<Condition>)
    requires !LiftChanges(n, cs)
    ensures Lifted(n, cs) == cs && !LeadsVoided(n, cs)
  {
    LiftUnchanged(n, cs);
    if LeadsVoided(n, cs) {
      RemainderDiffers(n, cs[0]);
    }
  }

  /** Where a merge has nothing to lift, nothing is uncovered, and no clause of ours leads. */
  lemma UnliftedIdle(n: Naming, wanted: seq<string>, row: OwnRow, cs: seq<Condition>)
    requires SaneNaming(n) && Plain(cs) && IdleFor(n, row, cs) && !LiftChanges(n, cs)
    ensures IdleFor(n, row, MergeFor(n, wanted, cs)) && !LeadsVoided(n, MergeFor(n, wanted, cs))
  {
    hide IdleGroup;
    hide Lifted;
    hide LiftChanges;
    hide MergedConditions;
    hide Plain;
    hide Akin;
    UnchangedLeads(n, cs);
    PlacedKin(n, wanted, cs);
    if row.own.Some? {
      KinIdle(n, row.own.value, row.prefix, row.show, cs, MergeFor(n, wanted, cs), 0);
    }
    if LeadsVoided(n, MergeFor(n, wanted, cs)) {
      UnenforcedAfterMerge(n, cs, wanted, 0);
    }
  }

  // ----- so it is settled -----

  lemma QuietEnd(n: Naming, row: OwnRow, cs: seq<Condition>)
    requires Plain(cs) && IdleFor(n, row, cs) && !LeadsVoided(n, cs)
    ensures FrontPasses(n, row, cs) == 0
  {
    hide IdleFor;
    hide Plain;
    hide LeadsVoided;
    hide FrontPasses;
    PlainSeps(cs);
    NoneLeads(n, row, cs);
  }

  lemma NoneVoidedLeads(n: Naming, cs: seq<Condition>)
    requires NoneVoided(n, cs)
    ensures !LeadsVoided(n, cs)
  {
  }

  /** Where Plex ignores no clause of ours, at most one pass more is needed. */
  lemma NoneVoidedPasses(n: Naming, wanted: seq<string>, row: OwnRow, cs: seq<Condition>)
    requires ShortlistLabels(n, wanted) && SaneNaming(n) && PlannableRow(n, row)
    requires Queued(n, wanted, row, cs) && NoneVoided(n, cs)
    ensures FrontPasses(n, row, cs) <= 1
  {
    hide IdleFor;
    hide Plain;
    hide Lodged;
    hide LeadsVoided;
    hide FrontPasses;
    hide AdmitFor;
    hide Queued;
    hide PlannableRow;
    QueuedPlain(n, wanted, row, cs);
    NoneVoidedLeads(n, cs);
    if IdleFor(n, row, cs) {
      QuietEnd(n, row, cs);
    } else {
      QueuedAdmits(n, wanted, row, cs);
      AdmitNext(n, wanted, row, cs);
    }
  }

  /** The first merge of a filter with one clause of ours. */
  lemma OneClauseFirst(n: Naming, wanted: seq<string>, row: OwnRow, cs: seq<Condition>)
    requires ShortlistLabels(n, wanted) && SaneNaming(n) && PlannableRow(n, row) && (row.own.Some? ==> row.show)
    requires Plain(cs) && OneOurs(n, cs)
    ensures var first := PassOver(n, wanted, row, cs);
            && (IdleFor(n, row, first) ==> FrontPasses(n, row, first) == 0)
            && (!IdleFor(n, row, first) ==> OneOurs(n, first))
    ensures !LiftChanges(n, AdmitFor(n, row, cs)) ==> IdleFor(n, row, PassOver(n, wanted, row, cs))
  {
    hide IdleFor;
    hide Plain;
    hide LeadsVoided;
    hide FrontPasses;
    hide AdmitFor;
    hide MergeFor;
    hide OneOurs;
    hide LiftChanges;
    hide OwnLabel;
    hide NoneVoided;
    hide UnmixedFor;
    hide Lodged;
    var es, first := AdmitFor(n, row, cs), PassOver(n, wanted, row, cs);
    AdmitKeepsOneOurs(n, row, cs);
    AdmitsAll(n, row, cs);
    OnePass(n, wanted, row, cs);
    if LiftChanges(n, es) {
      MergedNoneVoided(n, wanted, es);
      NoneVoidedLeads(n, first);
    } else {
      UnliftedIdle(n, wanted, row, es);
    }
    if IdleFor(n, row, first) {
      QuietEnd(n, row, first);
    }
  }

  lemma AdmitsAll(n: Naming, row: OwnRow, cs: seq<Condition>)
    requires PlannableRow(n, row) && (row.own.Some? ==> row.show) && Plain(cs)
    ensures Plain(AdmitFor(n, row, cs)) && IdleFor(n, row, AdmitFor(n, row, cs))
  {
    hide Plain;
    hide AdmitFor;
    hide Idle;
    AdmitForPlain(n, row, cs);
  }

  /** A filter with at most one clause of ours takes at most three passes. */
  lemma OneClausePasses(n: Naming, wanted: seq<string>, row: OwnRow, cs: seq<Condition>)
    requires ShortlistLabels(n, wanted) && SaneNaming(n) && PlannableRow(n, row) && (row.own.Some? ==> row.show)
    requires Plain(cs) && OneOurs(n, cs)
    ensures Passes(n, wanted, row, cs) <= 3
  {
    hide IdleFor;
    hide Plain;
    hide LeadsVoided;
    hide FrontPasses;
    hide AdmitFor;
    hide MergeFor;
    hide OneOurs;
    hide LiftChanges;
    hide OwnLabel;
    hide NoneVoided;
    hide Queued;
    hide Lodged;
    hide UnmixedFor;
    var first := PassOver(n, wanted, row, cs);
    OneClauseFirst(n, wanted, row, cs);
    OnePass(n, wanted, row, cs);
    if !IdleFor(n, row, first) {
      var es, second := AdmitFor(n, row, first), PassOver(n, wanted, row, first);
      TwoPasses(n, wanted, row, first);
      if LiftChanges(n, es) {
        AdmitKeepsOneOurs(n, row, first);
        MergedNoneVoided(n, wanted, es);
        NoneVoidedPasses(n, wanted, row, second);
      } else {
        AdmitsAll(n, row, first);
        UnliftedIdle(n, wanted, row, es);
        OnePass(n, wanted, row, first);
        QuietEnd(n, row, second);
      }
    }
  }

  /** A filter in which one clause at most is ours, wherever it stands, is settled in one write: planning again changes
      nothing, and the account's own row is let through every group of the owner's. */
  lemma OneClauseSettles(n: Naming, raw: string, wanted: seq<string>, row: OwnRow)
    requires ShortlistLabels(n, wanted) && SaneNaming(n) && PlannableRow(n, row) && (row.own.Some? ==> row.show)
    requires Readable(raw) && OneOurs(n, ParseFilter(raw).value)
    ensures Plan(n, raw, wanted, row).Ok?
    ensures Plan(n, Plan(n, raw, wanted, row).value, wanted, row) == Plan(n, raw, wanted, row)
    ensures ParseFilter(Plan(n, raw, wanted, row).value).Ok?
    ensures RowAllowed(n, row, ParseFilter(Plan(n, raw, wanted, row).value).value)
  {
    hide Passes;
    hide PlanFrom;
    hide OneOurs;
    hide ParseFilter;
    hide LiteralAmpersand;
    hide Serialize;
    hide Plain;
    hide OwnLabel;
    hide PlannedAs;
    hide OwnRowAllowed;
    ReadablePlain(raw);
    OneClausePasses(n, wanted, row, ParseFilter(raw).value);
    PlanAgain(n, raw, wanted, row);
    PlanInClosedForm(n, PLAN_PASSES, raw, wanted, row);
    if row.own.Some? {
      PlanLetsOwnRowPass(n, PLAN_PASSES, raw, wanted, row);
    }
  }
}
