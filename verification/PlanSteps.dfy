/** A plan's passes on the conditions of a filter: after one that finds nothing to admit, each takes a clause of ours
    off the front, and what that uncovers is seen to when no more lead. */
module PlanSteps {
  import opened ShareFilter
  import opened FilterSemantics
  import opened FilterEdits
  import opened FilterGroups
  import opened FilterMerge
  import opened MergeTheorems
  import opened MergeStability
  import opened FilterAllow
  import opened AllowTheorems
  import opened AdmitIdle
  import opened AdmitOutcome
  import opened PassShape
  import opened FirstGroup
  import opened SharePlan

  // ----- a pass on conditions -----

  function AdmitFor(n: Naming, row: OwnRow, cs: seq<Condition>): seq<Condition> {
    if row.own.None? then cs else ReadBack(AdmitConditions(n, row.own.value, row.prefix, row.show, cs))
  }

  function MergeFor(n: Naming, wanted: seq<string>, cs: seq<Condition>): seq<Condition> {
    ReadBack(MergedConditions(n, cs, wanted))
  }

  function PassOver(n: Naming, wanted: seq<string>, row: OwnRow, cs: seq<Condition>): seq<Condition> {
    MergeFor(n, wanted, AdmitFor(n, row, cs))
  }

  function Passed(n: Naming, wanted: seq<string>, row: OwnRow, passes: nat, cs: seq<Condition>): seq<Condition> {
    if passes == 0 then cs else Passed(n, wanted, row, passes - 1, PassOver(n, wanted, row, cs))
  }

  /** Nothing to admit or take out. */
  ghost predicate IdleFor(n: Naming, row: OwnRow, cs: seq<Condition>) {
    row.own.Some? ==> Idle(n, row.own.value, row.prefix, row.show, cs)
  }

  ghost predicate RestIdleFor(n: Naming, row: OwnRow, cs: seq<Condition>) {
    row.own.Some? ==> RestIdle(n, row.own.value, row.prefix, row.show, GroupsOf(cs))
  }

  /** A row that is taken out is named beside others nowhere. */
  ghost predicate UnmixedFor(n: Naming, row: OwnRow, cs: seq<Condition>) {
    row.own.Some? && !row.show ==> UnmixedAll(n, row.own.value, cs)
  }

  lemma AdmitForPlain(n: Naming, row: OwnRow, cs: seq<Condition>)
    requires PlannableRow(n, row) && Plain(cs)
    ensures Plain(AdmitFor(n, row, cs)) && UnmixedFor(n, row, AdmitFor(n, row, cs))
    ensures Admitted(n, Serialize(cs), row) == Ok(Serialize(AdmitFor(n, row, cs)))
    ensures UnmixedFor(n, row, cs) ==> IdleFor(n, row, AdmitFor(n, row, cs))
  {
    hide AdmitConditions;
    hide Idle;
    hide UnmixedAll;
    hide OwnLabel;
    PlainIs(cs);
    PlainSeps(cs);
    if row.own.Some? {
      var own := row.own.value;
      AdmittedPrintable(n, own, row.prefix, row.show, cs);
      PlainBack(AdmitConditions(n, own, row.prefix, row.show, cs));
      if !row.show {
        SamePrefix(n, own, row.prefix, cs);
        HiddenUnmixed(n, own, cs);
      }
      if UnmixedFor(n, row, cs) {
        AdmittedIdle(n, own, row.prefix, row.show, cs);
      }
    }
  }

  lemma SamePrefix(n: Naming, own: string, prefix: string, cs: seq<Condition>)
    ensures AdmitConditions(n, own, prefix, false, cs) == AdmitConditions(n, own, "", false, cs)
  {
  }

  lemma IdleAdmitFor(n: Naming, row: OwnRow, cs: seq<Condition>)
    requires Plain(cs) && IdleFor(n, row, cs)
    ensures AdmitFor(n, row, cs) == cs
  {
    hide Idle;
    hide AdmitConditions;
    PlainIs(cs);
    PlainSeps(cs);
    if row.own.Some? {
      IdleAdmits(n, row.own.value, row.prefix, row.show, cs);
    }
  }

  lemma MergeForPlain(n: Naming, wanted: seq<string>, cs: seq<Condition>)
    requires ShortlistLabels(n, wanted) && SaneNaming(n) && Plain(cs)
    ensures Plain(MergeFor(n, wanted, cs)) && Lodged(n, wanted, MergeFor(n, wanted, cs))
    ensures Merge(n, Serialize(cs), wanted) == Ok(Serialize(MergeFor(n, wanted, cs)))
  {
    hide MergedConditions;
    hide Merge;
    hide AllEnforced;
    hide Lodged;
    PlainIs(cs);
    PlainSeps(cs);
    MergeResult(n, Serialize(cs), wanted);
    MergedPrintable(n, cs, wanted);
    PlainBack(MergedConditions(n, cs, wanted));
    MergedLodged(n, wanted, cs);
  }

  /** A pass on the text is the pass on its conditions. */
  lemma PassText(n: Naming, wanted: seq<string>, row: OwnRow, cs: seq<Condition>)
    requires ShortlistLabels(n, wanted) && SaneNaming(n) && PlannableRow(n, row) && Plain(cs)
    ensures Plain(PassOver(n, wanted, row, cs))
    ensures Pass(n, Serialize(cs), wanted, row) == Ok(Serialize(PassOver(n, wanted, row, cs)))
  {
    hide AdmitFor;
    hide MergeFor;
    hide Plain;
    hide Merge;
    hide Admitted;
    AdmitForPlain(n, row, cs);
    MergeForPlain(n, wanted, AdmitFor(n, row, cs));
  }

  lemma SameText(cs: seq<Condition>, ds: seq<Condition>)
    requires Plain(cs) && Plain(ds) && Serialize(cs) == Serialize(ds)
    ensures cs == ds
  {
    PlainSeps(cs);
    PlainSeps(ds);
  }

  lemma {:induction false} FixedStays(n: Naming, wanted: seq<string>, row: OwnRow, passes: nat, cs: seq<Condition>)
    requires PassOver(n, wanted, row, cs) == cs
    ensures Passed(n, wanted, row, passes, cs) == cs
  {
    hide PassOver;
    if passes > 0 {
      FixedStays(n, wanted, row, passes - 1, cs);
    }
  }

  /** The planner's loop, early stop and all, prints what so many passes make of the conditions. */
  lemma {:induction false} PlanText(n: Naming, wanted: seq<string>, row: OwnRow, passes: nat, cs: seq<Condition>)
    requires ShortlistLabels(n, wanted) && SaneNaming(n) && PlannableRow(n, row) && Plain(cs)
    ensures Plain(Passed(n, wanted, row, passes, cs))
    ensures PlanFrom(n, passes, Serialize(cs), wanted, row) == Ok(Serialize(Passed(n, wanted, row, passes, cs)))
    decreases passes
  {
    hide PassOver;
    hide Pass;
    hide Plain;
    hide Serialize;
    if passes > 0 {
      var ds := PassOver(n, wanted, row, cs);
      PassText(n, wanted, row, cs);
      PlanText(n, wanted, row, passes - 1, ds);
      if Serialize(ds) == Serialize(cs) {
        SameText(cs, ds);
        FixedStays(n, wanted, row, passes, cs);
      }
    }
  }

  lemma {:induction false} PassedOnwards(n: Naming, wanted: seq<string>, row: OwnRow, p: nat, q: nat,
                                         cs: seq<Condition>)
    ensures Passed(n, wanted, row, q, Passed(n, wanted, row, p, cs)) == Passed(n, wanted, row, p + q, cs)
    decreases p
  {
    hide PassOver;
    if p > 0 {
      PassedOnwards(n, wanted, row, p - 1, q, PassOver(n, wanted, row, cs));
    }
  }

  // ----- what every pass but the first finds -----

  /** A filter on which a further pass does little: a merge would only take a clause of ours off its front, and what is
      to be admitted or taken out is in its first group, and only if no clause of ours leads. */
  ghost predicate Queued(n: Naming, wanted: seq<string>, row: OwnRow, cs: seq<Condition>) {
    && Plain(cs) && Lodged(n, wanted, cs) && UnmixedFor(n, row, cs) && RestIdleFor(n, row, cs)
    && (LeadsVoided(n, cs) ==> IdleFor(n, row, cs))
  }

  lemma MergeUnmixed(n: Naming, own: string, wanted: seq<string>, cs: seq<Condition>)
    requires UnmixedAll(n, own, cs)
    ensures UnmixedAll(n, own, MergeFor(n, wanted, cs))
  {
    hide Lifted;
    hide Missing;
    hide Wanted;
    hide AllMine;
    hide NamesOthers;
    hide IsTarget;
    var merged := MergedConditions(n, cs, wanted);
    forall k | 0 <= k < |merged|
      ensures Unmixed(n, own, ReadBack(merged)[k])
    {
      MergedUnmixed(n, own, wanted, cs, k);
      BackUnmixed(n, own, merged[k], ReadBack(merged)[k].sep);
    }
  }

  lemma BackUnmixed(n: Naming, own: string, c: Condition, sep: char)
    requires Unmixed(n, own, c)
    ensures Unmixed(n, own, Blanked(c).(sep := sep))
  {
  }

  lemma MergedUnmixed(n: Naming, own: string, wanted: seq<string>, cs: seq<Condition>, k: nat)
    requires UnmixedAll(n, own, cs) && k < |MergedConditions(n, cs, wanted)|
    ensures Unmixed(n, own, MergedConditions(n, cs, wanted)[k])
  {
    hide AllMine;
    hide NamesOthers;
    hide Enforced;
    hide Missing;
    hide Wanted;
    var merged, kept := MergedConditions(n, cs, wanted), Lifted(n, cs);
    if IsLabelAllow(merged[k]) {
      assert k < |kept| && merged[k] == kept[k];
      var i := Origin(LiftEdits(n, cs), k);
      assert kept[k] == cs[i];
    }
  }

  lemma MergeRestIdle(n: Naming, wanted: seq<string>, row: OwnRow, cs: seq<Condition>)
    requires SaneNaming(n) && Plain(cs) && Headed(n, cs) && IdleFor(n, row, cs)
    ensures var ds := MergeFor(n, wanted, cs);
            && RestIdleFor(n, row, ds) && (!LosesFirst(n, cs) || LeadsVoided(n, ds) ==> IdleFor(n, row, ds))
  {
    hide MergedConditions;
    hide Idle;
    hide RestIdle;
    hide Plain;
    hide Headed;
    hide LosesFirst;
    hide LeadsVoided;
    hide GroupsOf;
    hide ReadBack;
    if row.own.Some? {
      MergeUncovers(n, row.own.value, row.prefix, row.show, wanted, cs);
    }
  }

  lemma MergeUnmixedFor(n: Naming, wanted: seq<string>, row: OwnRow, cs: seq<Condition>)
    requires UnmixedFor(n, row, cs)
    ensures UnmixedFor(n, row, MergeFor(n, wanted, cs))
  {
    hide MergeFor;
    hide UnmixedAll;
    if row.own.Some? && !row.show {
      MergeUnmixed(n, row.own.value, wanted, cs);
    }
  }

  /** A merge of an idle filter with its excludes headed leaves such a filter. */
  lemma MergeQueues(n: Naming, wanted: seq<string>, row: OwnRow, cs: seq<Condition>)
    requires ShortlistLabels(n, wanted) && SaneNaming(n) && Plain(cs)
    requires Headed(n, cs) && IdleFor(n, row, cs) && UnmixedFor(n, row, cs)
    ensures var ds := MergeFor(n, wanted, cs);
            && Queued(n, wanted, row, ds)
            && (!LosesFirst(n, cs) ==> IdleFor(n, row, ds)) && (LosesFirst(n, cs) ==> |ds| <= |cs|)
  {
    hide MergeFor;
    hide IdleFor;
    hide RestIdleFor;
    hide UnmixedFor;
    hide Plain;
    hide Lodged;
    hide Headed;
    hide LosesFirst;
    hide LeadsVoided;
    hide ShortlistLabels;
    hide SaneNaming;
    MergeForPlain(n, wanted, cs);
    MergeRestIdle(n, wanted, row, cs);
    MergeUnmixedFor(n, wanted, row, cs);
    LostIsShorter(n, wanted, cs);
  }

  lemma LostIsShorter(n: Naming, wanted: seq<string>, cs: seq<Condition>)
    requires Headed(n, cs) && Plain(cs)
    ensures LosesFirst(n, cs) ==> |MergeFor(n, wanted, cs)| <= |cs|
  {
    hide Headed;
    hide Plain;
    hide MergedConditions;
    MergedKin(n, wanted, cs);
  }

  /** What becomes of an idle filter that a merge would only take a clause off the front of. */
  function OneOff(n: Naming, cs: seq<Condition>): seq<Condition> {
    if LeadsVoided(n, cs) then ReadBack(cs[1..]) else cs
  }

  lemma MergeOneOff(n: Naming, wanted: seq<string>, row: OwnRow, cs: seq<Condition>)
    requires ShortlistLabels(n, wanted) && SaneNaming(n) && Plain(cs)
    requires Lodged(n, wanted, cs) && IdleFor(n, row, cs) && UnmixedFor(n, row, cs)
    ensures MergeFor(n, wanted, cs) == OneOff(n, cs) && Queued(n, wanted, row, OneOff(n, cs))
  {
    hide MergedConditions;
    hide Idle;
    hide UnmixedAll;
    hide Plain;
    hide Lodged;
    hide LeadsVoided;
    hide Queued;
    PlainSeps(cs);
    LodgedHeaded(n, wanted, cs);
    LodgedMerge(n, wanted, cs);
    MergeQueues(n, wanted, row, cs);
  }

  /** The filter a further pass merges. */
  lemma QueuedAdmits(n: Naming, wanted: seq<string>, row: OwnRow, cs: seq<Condition>)
    requires PlannableRow(n, row) && Queued(n, wanted, row, cs)
    ensures var es := AdmitFor(n, row, cs);
            && Plain(es) && Lodged(n, wanted, es) && IdleFor(n, row, es) && UnmixedFor(n, row, es)
            && (IdleFor(n, row, cs) ==> es == cs)
            && (!IdleFor(n, row, cs) ==> es != cs && !LeadsVoided(n, cs))
            && (!IdleFor(n, row, cs) && LeadsVoided(n, es) ==>
                  |es| < |cs| && exists k :: 0 <= k < |cs| && Unenforced(n, cs, k))
  {
    hide Idle;
    hide RestIdle;
    hide UnmixedAll;
    hide Plain;
    hide Lodged;
    hide AdmitConditions;
    hide LeadsVoided;
    hide Unenforced;
    hide GroupsOf;
    hide OwnLabel;
    AdmitForPlain(n, row, cs);
    if IdleFor(n, row, cs) {
      IdleAdmitFor(n, row, cs);
    } else {
      FirstAdmitted(n, row.own.value, row.prefix, row.show, wanted, cs);
    }
  }

  /** A further pass. */
  lemma QueuedPass(n: Naming, wanted: seq<string>, row: OwnRow, cs: seq<Condition>)
    requires ShortlistLabels(n, wanted) && SaneNaming(n) && PlannableRow(n, row) && Queued(n, wanted, row, cs)
    ensures PassOver(n, wanted, row, cs) == OneOff(n, AdmitFor(n, row, cs))
    ensures Queued(n, wanted, row, PassOver(n, wanted, row, cs))
  {
    hide Queued;
    hide AdmitFor;
    hide MergeFor;
    hide OneOff;
    hide Lodged;
    hide Plain;
    QueuedAdmits(n, wanted, row, cs);
    MergeOneOff(n, wanted, row, AdmitFor(n, row, cs));
  }
}
