/** How many passes a plan needs. The first merge does all but drop the clauses of ours that lead the filter; each
    later one drops a single one of those, and what a merge uncovers costs one more before the count goes on. */
module PlanPasses {
  import opened ShareFilter
  import opened FilterSemantics
  import opened FilterEdits
  import opened FilterGroups
  import opened FilterMerge
  import opened MergeTheorems
  import opened MergeStability
  import opened FilterAllow
  import opened AllowTheorems
  import opened AdmitIdle
  import opened AdmitOutcome
  import opened PassShape
  import opened FirstGroup
  import opened SharePlan
  import opened PlanSteps

  // ----- the clauses at the front -----

  /** How many clauses of ours that Plex ignores follow one another from position `k`. */
  function VoidedRun(n: Naming, cs: seq<Condition>, k: nat): (run: nat)
    ensures run > 0 ==> k + run <= |cs|
    decreases |cs| - k
  {
    if k < |cs| && Unenforced(n, cs, k) then 1 + VoidedRun(n, cs, k + 1) else 0
  }

  /** How many lead the filter once the movable ones are out. */
  function FrontRun(n: Naming, cs: seq<Condition>): nat {
    VoidedRun(n, Lifted(n, cs), 0)
  }

  lemma MergedIsLonger(n: Naming, cs: seq<Condition>, labels: seq<string>)
    ensures |MergedConditions(n, cs, labels)| >= |Lifted(n, cs)|
  {
  }

  lemma {:induction false} SameRun(n: Naming, cs: seq<Condition>, labels: seq<string>, k: nat)
    requires SaneNaming(n) && SepsIn(cs, CONDITION_SEPS)
    ensures VoidedRun(n, ReadBack(MergedConditions(n, cs, labels)), k) == VoidedRun(n, Lifted(n, cs), k)
    decreases |MergedConditions(n, cs, labels)| - k
  {
    hide Unenforced;
    hide MergedConditions;
    hide Lifted;
    var ds := ReadBack(MergedConditions(n, cs, labels));
    if k < |ds| {
      UnenforcedAfterMerge(n, cs, labels, k);
      SameRun(n, cs, labels, k + 1);
    } else {
      MergedIsLonger(n, cs, labels);
    }
  }

  lemma LeadingRun(n: Naming, kept: seq<Condition>)
    ensures VoidedRun(n, kept, 0) > 0 <==> LeadsVoided(n, kept)
  {
  }

  /** Behind the front, every clause of ours that Plex ignores is joined by `&`. */
  ghost predicate VoidedAreAnded(n: Naming, cs: seq<Condition>) {
    forall k :: 1 <= k < |cs| && Unenforced(n, cs, k) ==> cs[k].sep == '&'
  }

  lemma TailUnenforced(n: Naming, cs: seq<Condition>, k: nat)
    requires VoidedAreAnded(n, cs) && k + 1 < |cs|
    ensures Unenforced(n, cs[1..], k) <==> Unenforced(n, cs, k + 1)
  {
    var tail := cs[1..];
    if Unenforced(n, cs, k + 1) {
      var j :| k + 1 <= j < |cs| && cs[j].sep != '&';
      assert tail[j - 1].sep != '&';
    }
    if !Enforced(tail, k) {
      var j :| k <= j < |tail| && j > 0 && tail[j].sep != '&';
      assert cs[j + 1].sep != '&';
    }
  }

  lemma {:induction false} TailRun(n: Naming, cs: seq<Condition>, k: nat)
    requires VoidedAreAnded(n, cs) && |cs| > 0
    ensures VoidedRun(n, cs[1..], k) == VoidedRun(n, cs, k + 1)
    decreases |cs| - k
  {
    if k + 1 < |cs| {
      TailUnenforced(n, cs, k);
      TailRun(n, cs, k + 1);
    }
  }

  lemma LodgedAnded(n: Naming, wanted: seq<string>, cs: seq<Condition>)
    requires Lodged(n, wanted, cs)
    ensures VoidedAreAnded(n, cs)
  {
  }

  lemma {:induction false} RunBack(n: Naming, cs: seq<Condition>, k: nat)
    requires SaneNaming(n)
    ensures VoidedRun(n, ReadBack(cs), k) == VoidedRun(n, cs, k)
    decreases |cs| - k
  {
    hide Unenforced;
    if k < |cs| {
      ReadBackUnenforced(n, cs, k);
      RunBack(n, cs, k + 1);
    }
  }

  lemma BackTwice(cs: seq<Condition>)
    ensures ReadBack(ReadBack(cs)) == ReadBack(cs)
  {
  }

  /** The run that is left when the clause in front has gone, and what is behind it. */
  lemma RunNext(n: Naming, cs: seq<Condition>)
    requires SaneNaming(n) && VoidedAreAnded(n, cs) && VoidedRun(n, cs, 0) > 0 && ReadBack(cs) == cs
    ensures var run, t := VoidedRun(n, cs, 0), ReadBack(cs[1..]);
            && VoidedRun(n, t, 0) == run - 1 && ReadBack(t) == t
            && forall j :: 0 <= j <= run - 1 ==> ReadBack(t[j..]) == ReadBack(cs[j + 1..])
  {
    hide Unenforced;
    hide VoidedAreAnded;
    var run, t := VoidedRun(n, cs, 0), ReadBack(cs[1..]);
    TailRun(n, cs, 0);
    RunBack(n, cs[1..], 0);
    BackTwice(cs[1..]);
    forall j | 0 <= j <= run - 1
      ensures ReadBack(t[j..]) == ReadBack(cs[j + 1..])
    {
      BehindBack(cs, j);
    }
  }

  lemma BehindBack(cs: seq<Condition>, j: nat)
    requires j + 1 <= |cs|
    ensures ReadBack(ReadBack(cs[1..])[j..]) == ReadBack(cs[j + 1..])
  {
    var a, b := ReadBack(ReadBack(cs[1..])[j..]), ReadBack(cs[j + 1..]);
    forall i | 0 <= i < |a|
      ensures a[i] == b[i]
    {
      assert ReadBack(cs[1..])[j..][i] == ReadBack(cs[1..])[j + i];
      assert cs[j + 1..][i] == cs[1..][j + i];
    }
  }

  // ----- passes behind the first -----

  function More(a: nat, b: nat): nat {
    if a < b then b else a
  }

  /** How many passes still change a filter on which a merge would only take clauses of ours off the front: one for
      each of them, and then one to let the own row into the group they uncovered or take it out, if it asks for that.
      A group that goes altogether costs no pass of its own where more of our clauses led it. */
  ghost function FrontPasses(n: Naming, row: OwnRow, cs: seq<Condition>): nat
    decreases |cs|
  {
    var run := VoidedRun(n, cs, 0);
    if run > 0 then run + FrontPasses(n, row, ReadBack(cs[run..]))
    else if IdleFor(n, row, cs) then 0
    else
      var es := AdmitFor(n, row, cs);
      if |es| < |cs| then More(1, FrontPasses(n, row, es)) else 1
  }

  /** What so many passes make of such a filter. */
  ghost function After(n: Naming, row: OwnRow, cs: seq<Condition>, passes: nat): seq<Condition>
    decreases |cs|, 1
  {
    var run := VoidedRun(n, cs, 0);
    if passes <= run then (if passes <= |cs| then ReadBack(cs[passes..]) else [])
    else Behind(n, row, ReadBack(cs[run..]), passes - run)
  }

  /** The same once no clause of ours leads, with passes to spare. */
  ghost function Behind(n: Naming, row: OwnRow, rest: seq<Condition>, passes: nat): seq<Condition>
    decreases |rest|, 0
  {
    if IdleFor(n, row, rest) then rest
    else
      var es := AdmitFor(n, row, rest);
      if |es| < |rest| then After(n, row, es, passes) else es
  }

  /** Whether the last of those passes lets the own row into a group that had hidden it. */
  ghost predicate EndsAdmitting(n: Naming, row: OwnRow, cs: seq<Condition>)
    decreases |cs|
  {
    var run := VoidedRun(n, cs, 0);
    if run > 0 then EndsAdmitting(n, row, ReadBack(cs[run..]))
    else if IdleFor(n, row, cs) then false
    else
      var es := AdmitFor(n, row, cs);
      if |es| < |cs| && FrontPasses(n, row, es) > 0 then EndsAdmitting(n, row, es)
      else !RowAllowed(n, row, cs)
  }

  /** Every group with an allow condition of the owner's admits the row, if there is one to show. */
  ghost predicate RowAllowed(n: Naming, row: OwnRow, cs: seq<Condition>) {
    row.own.Some? && row.show ==> OwnRowAllowed(n, row.own.value, row.prefix, cs)
  }

  lemma IdleAllowed(n: Naming, row: OwnRow, cs: seq<Condition>)
    requires IdleFor(n, row, cs)
    ensures RowAllowed(n, row, cs)
  {
    if row.own.Some? && row.show {
      forall q | 0 <= q < |GroupsOf(cs)|
        ensures Allowed(n, row.own.value, row.prefix, GroupsOf(cs)[q])
      {
        assert IdleGroup(n, row.own.value, row.prefix, true, GroupsOf(cs)[q]);
      }
    }
  }

  lemma RunUnfolds(n: Naming, row: OwnRow, cs: seq<Condition>)
    requires VoidedRun(n, cs, 0) > 0
    ensures var rest := ReadBack(cs[VoidedRun(n, cs, 0)..]);
            && FrontPasses(n, row, cs) == VoidedRun(n, cs, 0) + FrontPasses(n, row, rest)
            && (EndsAdmitting(n, row, cs) <==> EndsAdmitting(n, row, rest))
  {
  }

  lemma AfterUnfolds(n: Naming, row: OwnRow, cs: seq<Condition>, passes: nat)
    ensures var run := VoidedRun(n, cs, 0);
            && run <= |cs|
            && (passes <= run ==> After(n, row, cs, passes) == ReadBack(cs[passes..]))
            && (passes > run ==> After(n, row, cs, passes) == Behind(n, row, ReadBack(cs[run..]), passes - run))
  {
    hide IdleFor;
    hide AdmitFor;
    hide ReadBack;
    hide Behind;
    hide Unenforced;
  }

  lemma AfterNext(n: Naming, row: OwnRow, cs: seq<Condition>, j: nat)
    requires SaneNaming(n) && VoidedAreAnded(n, cs) && VoidedRun(n, cs, 0) > 0 && ReadBack(cs) == cs && j > 0
    ensures After(n, row, cs, j) == After(n, row, ReadBack(cs[1..]), j - 1)
  {
    hide After;
    hide Behind;
    hide VoidedRun;
    hide VoidedAreAnded;
    hide ReadBack;
    RunNext(n, cs);
    AfterUnfolds(n, row, cs, j);
    AfterUnfolds(n, row, ReadBack(cs[1..]), j - 1);
  }

  /** With a clause of ours in front, each pass takes one. */
  lemma FrontNext(n: Naming, wanted: seq<string>, row: OwnRow, cs: seq<Condition>)
    requires SaneNaming(n) && Lodged(n, wanted, cs) && ReadBack(cs) == cs && LeadsVoided(n, cs)
    ensures |cs| > 0
    ensures var t := ReadBack(cs[1..]);
            && FrontPasses(n, row, cs) == 1 + FrontPasses(n, row, t)
            && (EndsAdmitting(n, row, cs) <==> EndsAdmitting(n, row, t))
            && (forall j :: 1 <= j ==> After(n, row, cs, j) == After(n, row, t, j - 1))
  {
    hide FrontPasses;
    hide EndsAdmitting;
    hide After;
    hide VoidedRun;
    hide VoidedAreAnded;
    hide Lodged;
    hide ReadBack;
    LodgedAnded(n, wanted, cs);
    LeadingRun(n, cs);
    RunNext(n, cs);
    var run, t := VoidedRun(n, cs, 0), ReadBack(cs[1..]);
    RunUnfolds(n, row, cs);
    if run == 1 {
      assert ReadBack(t[0..]) == ReadBack(cs[1..]);
    } else {
      RunUnfolds(n, row, t);
    }
    forall j | 1 <= j
      ensures After(n, row, cs, j) == After(n, row, t, j - 1)
    {
      AfterNext(n, row, cs, j);
    }
  }

  lemma NoneLeads(n: Naming, row: OwnRow, cs: seq<Condition>)
    requires !LeadsVoided(n, cs) && ReadBack(cs) == cs
    ensures VoidedRun(n, cs, 0) == 0 && After(n, row, cs, 0) == cs
    ensures forall j :: j > 0 ==> After(n, row, cs, j) == Behind(n, row, cs, j)
    ensures IdleFor(n, row, cs) ==> FrontPasses(n, row, cs) == 0 && !EndsAdmitting(n, row, cs)
    ensures IdleFor(n, row, cs) ==> forall j: nat :: After(n, row, cs, j) == cs
  {
    hide IdleFor;
    LeadingRun(n, cs);
    assert cs[0..] == cs;
  }

  lemma AdmitUnfolds(n: Naming, row: OwnRow, cs: seq<Condition>)
    requires VoidedRun(n, cs, 0) == 0 && !IdleFor(n, row, cs)
    ensures var es := AdmitFor(n, row, cs);
            && FrontPasses(n, row, cs) == (if |es| < |cs| then More(1, FrontPasses(n, row, es)) else 1)
            && (EndsAdmitting(n, row, cs) <==>
                if |es| < |cs| && FrontPasses(n, row, es) > 0 then EndsAdmitting(n, row, es)
                else !RowAllowed(n, row, cs))
            && (forall j: nat :: Behind(n, row, cs, j) == if |es| < |cs| then After(n, row, es, j) else es)
  {
    hide IdleFor;
    hide AdmitFor;
    hide RowAllowed;
  }

  /** What the pass at hand and those behind it come to, where something is to be admitted. */
  lemma AdmitNext(n: Naming, wanted: seq<string>, row: OwnRow, cs: seq<Condition>)
    requires ShortlistLabels(n, wanted) && SaneNaming(n) && PlannableRow(n, row) && Queued(n, wanted, row, cs)
    requires !IdleFor(n, row, cs)
    ensures var es := AdmitFor(n, row, cs);
            var ds := OneOff(n, es);
            && FrontPasses(n, row, cs) == 1 + FrontPasses(n, row, ds)
            && (forall j :: 1 <= j ==> After(n, row, cs, j) == After(n, row, ds, j - 1))
            && (if LeadsVoided(n, es) then EndsAdmitting(n, row, cs) <==> EndsAdmitting(n, row, ds)
                else (EndsAdmitting(n, row, cs) <==> !RowAllowed(n, row, cs)) && FrontPasses(n, row, ds) == 0)
  {
    hide IdleFor;
    hide Lodged;
    hide AdmitFor;
    hide Queued;
    hide Plain;
    hide RowAllowed;
    hide LeadsVoided;
    hide FrontPasses;
    hide EndsAdmitting;
    hide After;
    hide Behind;
    hide VoidedRun;
    hide ReadBack;
    var es := AdmitFor(n, row, cs);
    QueuedPlain(n, wanted, row, cs);
    QueuedAdmits(n, wanted, row, cs);
    PlainSeps(cs);
    PlainSeps(es);
    NoneLeads(n, row, cs);
    AdmitUnfolds(n, row, cs);
    if LeadsVoided(n, es) {
      FrontNext(n, wanted, row, es);
    } else {
      NoneLeads(n, row, es);
    }
  }

  lemma QueuedPlain(n: Naming, wanted: seq<string>, row: OwnRow, cs: seq<Condition>)
    requires Queued(n, wanted, row, cs)
    ensures Plain(cs) && Lodged(n, wanted, cs) && (LeadsVoided(n, cs) ==> IdleFor(n, row, cs))
  {
  }

  /** One pass more: there is one fewer to come, the last of them is the same, and the row is hidden now exactly if
      that is the one to admit it. */
  lemma QueuedStep(n: Naming, wanted: seq<string>, row: OwnRow, cs: seq<Condition>)
    requires ShortlistLabels(n, wanted) && SaneNaming(n) && PlannableRow(n, row) && Queued(n, wanted, row, cs)
    ensures var ds := PassOver(n, wanted, row, cs);
            && Queued(n, wanted, row, ds)
            && (if FrontPasses(n, row, cs) == 0 then ds == cs
                else ds != cs && FrontPasses(n, row, ds) == FrontPasses(n, row, cs) - 1)
            && (FrontPasses(n, row, cs) > 1 ==> (EndsAdmitting(n, row, ds) <==> EndsAdmitting(n, row, cs)))
            && (forall j :: 1 <= j ==> After(n, row, cs, j) == After(n, row, ds, j - 1)) && After(n, row, cs, 0) == cs
  {
    hide Queued;
    hide IdleFor;
    hide AdmitFor;
    hide RowAllowed;
    hide Plain;
    hide Lodged;
    hide LeadsVoided;
    hide PassOver;
    hide VoidedRun;
    hide FrontPasses;
    hide EndsAdmitting;
    hide After;
    QueuedPass(n, wanted, row, cs);
    QueuedPlain(n, wanted, row, cs);
    QueuedAdmits(n, wanted, row, cs);
    PlainSeps(cs);
    AfterNone(n, row, cs);
    if !IdleFor(n, row, cs) {
      AdmitNext(n, wanted, row, cs);
      OneOffDiffers(n, cs, AdmitFor(n, row, cs));
    } else if LeadsVoided(n, cs) {
      FrontNext(n, wanted, row, cs);
      OneOffDiffers(n, cs, cs);
    } else {
      NoneLeads(n, row, cs);
    }
  }

  lemma AfterNone(n: Naming, row: OwnRow, cs: seq<Condition>)
    requires ReadBack(cs) == cs
    ensures After(n, row, cs, 0) == cs
  {
    assert cs[0..] == cs;
  }

  lemma OneOffDiffers(n: Naming, cs: seq<Condition>, es: seq<Condition>)
    requires if LeadsVoided(n, es) then |es| <= |cs| else es != cs
    ensures OneOff(n, es) != cs
  {
  }

  /** An end that admits is at least one pass off. */
  lemma {:induction false} EndIsAhead(n: Naming, row: OwnRow, cs: seq<Condition>)
    requires EndsAdmitting(n, row, cs)
    ensures FrontPasses(n, row, cs) > 0
    decreases |cs|
  {
  }

  lemma GoneAllowed(n: Naming, wanted: seq<string>, row: OwnRow, cs: seq<Condition>)
    requires PlannableRow(n, row) && Queued(n, wanted, row, cs)
    requires !IdleFor(n, row, cs) && LeadsVoided(n, AdmitFor(n, row, cs))
    ensures RowAllowed(n, row, cs)
  {
    hide Idle;
    hide RestIdle;
    hide Plain;
    hide Lodged;
    hide LeadsVoided;
    hide AdmitConditions;
    hide GroupsOf;
    if row.own.Some? && row.show {
      GoneWasAllowed(n, row.own.value, row.prefix, wanted, cs);
    }
  }

  /** The row is hidden in such a filter exactly if the next pass is the last to change it, and admits the row. */
  lemma HiddenNow(n: Naming, wanted: seq<string>, row: OwnRow, cs: seq<Condition>)
    requires ShortlistLabels(n, wanted) && SaneNaming(n) && PlannableRow(n, row) && Queued(n, wanted, row, cs)
    ensures RowAllowed(n, row, cs) <==> !(FrontPasses(n, row, cs) == 1 && EndsAdmitting(n, row, cs))
  {
    hide Queued;
    hide IdleFor;
    hide AdmitFor;
    hide RowAllowed;
    hide Plain;
    hide Lodged;
    hide LeadsVoided;
    hide VoidedRun;
    hide FrontPasses;
    hide EndsAdmitting;
    hide After;
    hide OneOff;
    QueuedPlain(n, wanted, row, cs);
    QueuedAdmits(n, wanted, row, cs);
    PlainSeps(cs);
    if IdleFor(n, row, cs) {
      IdleAllowed(n, row, cs);
      if LeadsVoided(n, cs) {
        FrontNext(n, wanted, row, cs);
        if EndsAdmitting(n, row, cs) {
          EndIsAhead(n, row, ReadBack(cs[1..]));
        }
      } else {
        NoneLeads(n, row, cs);
      }
    } else {
      var es := AdmitFor(n, row, cs);
      AdmitNext(n, wanted, row, cs);
      if LeadsVoided(n, es) {
        if EndsAdmitting(n, row, cs) {
          EndIsAhead(n, row, OneOff(n, es));
        }
        GoneAllowed(n, wanted, row, cs);
      }
    }
  }

  /** Such a filter after any number of passes. */
  lemma {:induction false} QueuedPlan(n: Naming, wanted: seq<string>, row: OwnRow, cs: seq<Condition>, passes: nat)
    requires ShortlistLabels(n, wanted) && SaneNaming(n) && PlannableRow(n, row) && Queued(n, wanted, row, cs)
    ensures var ds := Passed(n, wanted, row, passes, cs);
            && ds == After(n, row, cs, passes)
            && (PassOver(n, wanted, row, ds) == ds <==> FrontPasses(n, row, cs) <= passes)
            && (RowAllowed(n, row, ds) <==> !(FrontPasses(n, row, cs) == passes + 1 && EndsAdmitting(n, row, cs)))
    decreases passes
  {
    hide Queued;
    hide PassOver;
    hide FrontPasses;
    hide EndsAdmitting;
    hide After;
    hide RowAllowed;
    hide ShortlistLabels;
    hide SaneNaming;
    hide PlannableRow;
    QueuedStep(n, wanted, row, cs);
    if passes == 0 {
      HiddenNow(n, wanted, row, cs);
    } else {
      QueuedPlan(n, wanted, row, PassOver(n, wanted, row, cs), passes - 1);
    }
  }

  // ----- the first two passes -----

  lemma IdleRestIdle(n: Naming, row: OwnRow, cs: seq<Condition>)
    requires IdleFor(n, row, cs)
    ensures RestIdleFor(n, row, cs)
  {
    hide IdleGroup;
    if row.own.Some? {
      RestIdleFrom(n, row.own.value, row.prefix, row.show, GroupsOf(cs));
    }
  }

  lemma OnePass(n: Naming, wanted: seq<string>, row: OwnRow, cs: seq<Condition>)
    requires ShortlistLabels(n, wanted) && SaneNaming(n) && PlannableRow(n, row) && Plain(cs)
    ensures var first := PassOver(n, wanted, row, cs);
            && Plain(first) && Lodged(n, wanted, first) && UnmixedFor(n, row, first)
            && (IdleFor(n, row, first) ==> Queued(n, wanted, row, first))
  {
    hide Plain;
    hide Lodged;
    hide AdmitFor;
    hide MergeFor;
    hide IdleFor;
    hide UnmixedFor;
    hide RestIdleFor;
    hide PlannableRow;
    hide ShortlistLabels;
    hide SaneNaming;
    var admitted, first := AdmitFor(n, row, cs), PassOver(n, wanted, row, cs);
    AdmitForPlain(n, row, cs);
    MergeForPlain(n, wanted, admitted);
    MergeUnmixedFor(n, wanted, row, admitted);
    if IdleFor(n, row, first) {
      IdleRestIdle(n, row, first);
    }
  }

  /** Where the first pass uncovered something to admit, the second admits it all, and cannot change nothing. */
  lemma TwoPasses(n: Naming, wanted: seq<string>, row: OwnRow, first: seq<Condition>)
    requires ShortlistLabels(n, wanted) && SaneNaming(n) && PlannableRow(n, row)
    requires Plain(first) && Lodged(n, wanted, first) && UnmixedFor(n, row, first) && !IdleFor(n, row, first)
    ensures var second := PassOver(n, wanted, row, first);
            Queued(n, wanted, row, second) && second != first
  {
    hide Plain;
    hide Lodged;
    hide AdmitFor;
    hide MergeFor;
    hide IdleFor;
    hide UnmixedFor;
    hide RestIdleFor;
    hide ShortlistLabels;
    hide LosesFirst;
    hide Headed;
    hide OwnLabel;
    hide Queued;
    var es, second := AdmitFor(n, row, first), PassOver(n, wanted, row, first);
    AdmitForPlain(n, row, first);
    AdmitForHeaded(n, wanted, row, first);
    MergeQueues(n, wanted, row, es);
    if second == first {
      QueuedAdmits(n, wanted, row, first);
      LoserLeads(n, es);
      assert false;
    }
  }

  lemma LoserLeads(n: Naming, cs: seq<Condition>)
    ensures LosesFirst(n, cs) ==> LeadsVoided(n, cs)
  {
  }

  lemma AdmitForHeaded(n: Naming, wanted: seq<string>, row: OwnRow, cs: seq<Condition>)
    requires SaneNaming(n) && PlannableRow(n, row) && Plain(cs) && Lodged(n, wanted, cs)
    ensures Headed(n, AdmitFor(n, row, cs))
  {
    hide AdmitConditions;
    hide Headed;
    hide Plain;
    hide Lodged;
    hide OwnLabel;
    LodgedHeaded(n, wanted, cs);
    if row.own.Some? {
      AdmitKeepsHeaded(n, row.own.value, row.prefix, row.show, cs);
    }
  }

  // ----- every plan -----

  /** How many passes a plan takes, the first included. What the first merge makes of the filter, the own row once let
      in or taken out, has either nothing more to admit, or what it uncovered is admitted at once; after that only what
      leads the filter counts. */
  ghost function Passes(n: Naming, wanted: seq<string>, row: OwnRow, cs: seq<Condition>): nat {
    var first := PassOver(n, wanted, row, cs);
    if IdleFor(n, row, first) then 1 + FrontPasses(n, row, first)
    else 2 + FrontPasses(n, row, PassOver(n, wanted, row, first))
  }

  /** Whether the last of them lets the own row into a group that had hidden it. */
  ghost predicate LastAdmits(n: Naming, wanted: seq<string>, row: OwnRow, cs: seq<Condition>) {
    var first := PassOver(n, wanted, row, cs);
    EndsAdmitting(n, row, if IdleFor(n, row, first) then first else PassOver(n, wanted, row, first))
  }

  /** What so many passes plan. */
  ghost function PlannedAs(n: Naming, wanted: seq<string>, row: OwnRow, cs: seq<Condition>, passes: nat): seq<Condition>
    requires passes > 0
  {
    var first := PassOver(n, wanted, row, cs);
    if IdleFor(n, row, first) then After(n, row, first, passes - 1)
    else if passes == 1 then first
    else After(n, row, PassOver(n, wanted, row, first), passes - 2)
  }

  /** Any number of passes over any filter Plex can read. */
  lemma PassedIs(n: Naming, wanted: seq<string>, row: OwnRow, cs: seq<Condition>, passes: nat)
    requires ShortlistLabels(n, wanted) && SaneNaming(n) && PlannableRow(n, row) && Plain(cs) && passes > 0
    ensures var ds := Passed(n, wanted, row, passes, cs);
            && ds == PlannedAs(n, wanted, row, cs, passes)
            && (PassOver(n, wanted, row, ds) == ds <==> Passes(n, wanted, row, cs) <= passes)
            && (passes > 1 ==>
                  (RowAllowed(n, row, ds) <==>
                   !(Passes(n, wanted, row, cs) == passes + 1 && LastAdmits(n, wanted, row, cs))))
  {
    hide Plain;
    hide Lodged;
    hide PassOver;
    hide Queued;
    hide FrontPasses;
    hide EndsAdmitting;
    hide After;
    hide IdleFor;
    hide UnmixedFor;
    hide RowAllowed;
    hide ShortlistLabels;
    hide SaneNaming;
    hide PlannableRow;
    var first := PassOver(n, wanted, row, cs);
    OnePass(n, wanted, row, cs);
    if IdleFor(n, row, first) {
      QueuedPlan(n, wanted, row, first, passes - 1);
    } else {
      TwoPasses(n, wanted, row, first);
      if passes > 1 {
        QueuedPlan(n, wanted, row, PassOver(n, wanted, row, first), passes - 2);
      }
    }
  }

  lemma ReadablePlain(raw: string)
    requires Readable(raw)
    ensures Plain(ParseFilter(raw).value) && Serialize(ParseFilter(raw).value) == raw
  {
    ParseRoundTrip(raw);
    NoLiteralAmpersand(ParseFilter(raw).value);
  }

  /** A plan in closed form. */
  lemma PlanInClosedForm(n: Naming, passes: nat, raw: string, wanted: seq<string>, row: OwnRow)
    requires ShortlistLabels(n, wanted) && SaneNaming(n) && PlannableRow(n, row) && Readable(raw) && passes > 0
    ensures var planned := PlannedAs(n, wanted, row, ParseFilter(raw).value, passes);
            PlanFrom(n, passes, raw, wanted, row) == Ok(Serialize(planned)) &&
            ParseFilter(Serialize(planned)) == Ok(planned) && !LiteralAmpersand(planned)
  {
    hide Plain;
    hide PlannedAs;
    hide Passes;
    hide PlanFrom;
    hide Passed;
    hide ParseFilter;
    hide Serialize;
    hide LiteralAmpersand;
    hide RowAllowed;
    hide LastAdmits;
    hide ShortlistLabels;
    hide SaneNaming;
    hide PlannableRow;
    hide PassOver;
    var cs := ParseFilter(raw).value;
    ReadablePlain(raw);
    PlanText(n, wanted, row, passes, cs);
    PassedIs(n, wanted, row, cs, passes);
    PlainSeps(PlannedAs(n, wanted, row, cs, passes));
  }

  /** So many passes settle a plan if and only if it takes no more; the planner allows four. */
  lemma PlanSettlesExactly(n: Naming, passes: nat, raw: string, wanted: seq<string>, row: OwnRow)
    requires ShortlistLabels(n, wanted) && SaneNaming(n) && PlannableRow(n, row) && Readable(raw) && passes > 0
    ensures var r := PlanFrom(n, passes, raw, wanted, row);
            && r.Ok?
            && (Pass(n, r.value, wanted, row) == r <==> Passes(n, wanted, row, ParseFilter(raw).value) <= passes)
  {
    hide Plain;
    hide PlannedAs;
    hide Passes;
    hide PlanFrom;
    hide Passed;
    hide Pass;
    hide PassOver;
    hide ParseFilter;
    hide Serialize;
    hide RowAllowed;
    hide LastAdmits;
    hide ShortlistLabels;
    hide SaneNaming;
    hide PlannableRow;
    hide Readable;
    ReadableParses(raw);
    var cs := ParseFilter(raw).value;
    ReadablePlain(raw);
    PlanText(n, wanted, row, passes, cs);
    PassedIs(n, wanted, row, cs, passes);
    var ds := Passed(n, wanted, row, passes, cs);
    PassText(n, wanted, row, ds);
    if Serialize(PassOver(n, wanted, row, ds)) == Serialize(ds) {
      SameText(PassOver(n, wanted, row, ds), ds);
    }
  }

  lemma ReadableParses(raw: string)
    requires Readable(raw)
    ensures ParseFilter(raw).Ok?
  {
  }

  /** After more than one pass, the plan hides the account's own row if and only if one pass more would be the last,
      and would let it in. */
  lemma PlanLetsOwnRowPass(n: Naming, passes: nat, raw: string, wanted: seq<string>, row: OwnRow)
    requires ShortlistLabels(n, wanted) && SaneNaming(n) && PlannableRow(n, row) && Readable(raw) && passes > 1
    requires row.own.Some? && row.show
    ensures PlanFrom(n, passes, raw, wanted, row).Ok?
    ensures var planned := ParseFilter(PlanFrom(n, passes, raw, wanted, row).value);
            && planned.Ok?
            && (OwnRowAllowed(n, row.own.value, row.prefix, planned.value) <==>
                !(Passes(n, wanted, row, ParseFilter(raw).value) == passes + 1
                  && LastAdmits(n, wanted, row, ParseFilter(raw).value)))
  {
    hide Plain;
    hide PlannedAs;
    hide Passes;
    hide PlanFrom;
    hide Passed;
    hide PassOver;
    hide ParseFilter;
    hide Serialize;
    hide OwnRowAllowed;
    hide LastAdmits;
    hide ShortlistLabels;
    hide SaneNaming;
    hide PlannableRow;
    hide Readable;
    ReadableParses(raw);
    var cs := ParseFilter(raw).value;
    ReadablePlain(raw);
    PlanText(n, wanted, row, passes, cs);
    PassedIs(n, wanted, row, cs, passes);
    PlainSeps(Passed(n, wanted, row, passes, cs));
  }

  // ----- planning again -----

  /** A plan of one more pass is one pass on. */
  lemma {:induction false} PassAfterPlan(n: Naming, passes: nat, raw: string, wanted: seq<string>, row: OwnRow)
    requires PlanFrom(n, passes, raw, wanted, row).Ok?
    ensures PlanFrom(n, passes + 1, raw, wanted, row) ==
            Pass(n, PlanFrom(n, passes, raw, wanted, row).value, wanted, row)
  {
    hide Pass;
    if passes > 0 && Pass(n, raw, wanted, row).value != raw {
      PassAfterPlan(n, passes - 1, Pass(n, raw, wanted, row).value, wanted, row);
    }
  }

  lemma {:induction false} PlanOnwards(n: Naming, p: nat, q: nat, raw: string, wanted: seq<string>, row: OwnRow)
    requires PlanFrom(n, p, raw, wanted, row).Ok?
    ensures PlanFrom(n, q, PlanFrom(n, p, raw, wanted, row).value, wanted, row) == PlanFrom(n, p + q, raw, wanted, row)
  {
    hide Pass;
    if p > 0 && Pass(n, raw, wanted, row).value != raw {
      PlanOnwards(n, p - 1, q, Pass(n, raw, wanted, row).value, wanted, row);
    }
  }

  lemma PlanTwice(n: Naming, raw: string, wanted: seq<string>, row: OwnRow)
    requires Plan(n, raw, wanted, row).Ok?
    ensures Plan(n, Plan(n, raw, wanted, row).value, wanted, row) == PlanFrom(n, 2 * PLAN_PASSES, raw, wanted, row)
  {
    hide PlanFrom;
    PlanOnwards(n, PLAN_PASSES, PLAN_PASSES, raw, wanted, row);
  }

  /** Passes that come back to a filter had settled it: they do not go round. */
  lemma NoRound(n: Naming, wanted: seq<string>, row: OwnRow, cs: seq<Condition>, p: nat, q: nat)
    requires ShortlistLabels(n, wanted) && SaneNaming(n) && PlannableRow(n, row) && Plain(cs) && 0 < p && 0 < q
    requires Passed(n, wanted, row, p + q, cs) == Passed(n, wanted, row, p, cs)
    ensures Passes(n, wanted, row, cs) <= p
  {
    hide Plain;
    hide PlannedAs;
    hide Passes;
    hide Passed;
    hide PassOver;
    hide RowAllowed;
    hide LastAdmits;
    hide ShortlistLabels;
    hide SaneNaming;
    hide PlannableRow;
    var x := Passed(n, wanted, row, p, cs);
    PassedOnwards(n, wanted, row, p, q, cs);
    var m := Round(n, wanted, row, x, q, Passes(n, wanted, row, cs));
    PassedOnwards(n, wanted, row, p, m, cs);
    PassedIs(n, wanted, row, cs, p + m);
    PassedIs(n, wanted, row, cs, p);
  }

  /** So many passes that come back to a filter come back to it again later than `t`. */
  lemma {:induction false} Round(n: Naming, wanted: seq<string>, row: OwnRow, x: seq<Condition>, q: nat, t: nat)
    returns (m: nat)
    requires Passed(n, wanted, row, q, x) == x && q > 0
    ensures m >= t && Passed(n, wanted, row, m, x) == x
    decreases t
  {
    hide PassOver;
    if t == 0 {
      m := 0;
    } else {
      var less := Round(n, wanted, row, x, q, t - 1);
      PassedOnwards(n, wanted, row, q, less, x);
      m := q + less;
    }
  }

  /** Planning again from what was planned changes nothing if and only if the plan took no more than four passes. */
  lemma PlanAgain(n: Naming, raw: string, wanted: seq<string>, row: OwnRow)
    requires ShortlistLabels(n, wanted) && SaneNaming(n) && PlannableRow(n, row) && Readable(raw)
    ensures Plan(n, raw, wanted, row).Ok?
    ensures Plan(n, Plan(n, raw, wanted, row).value, wanted, row) == Plan(n, raw, wanted, row) <==>
            Passes(n, wanted, row, ParseFilter(raw).value) <= PLAN_PASSES
  {
    hide Plain;
    hide PlannedAs;
    hide Passes;
    hide PlanFrom;
    hide Passed;
    hide PassOver;
    hide ParseFilter;
    hide Serialize;
    hide RowAllowed;
    hide LastAdmits;
    hide ShortlistLabels;
    hide SaneNaming;
    hide PlannableRow;
    hide Readable;
    ReadableParses(raw);
    var cs, p := ParseFilter(raw).value, PLAN_PASSES;
    ReadablePlain(raw);
    PlanText(n, wanted, row, p, cs);
    PlanText(n, wanted, row, 2 * p, cs);
    assert Plan(n, raw, wanted, row) == PlanFrom(n, p, raw, wanted, row);
    PlanTwice(n, raw, wanted, row);
    PassedIs(n, wanted, row, cs, p);
    var once, twice := Passed(n, wanted, row, p, cs), Passed(n, wanted, row, 2 * p, cs);
    if Passes(n, wanted, row, cs) <= p {
      PassedOnwards(n, wanted, row, p, p, cs);
      FixedStays(n, wanted, row, p, once);
    } else if Serialize(twice) == Serialize(once) {
      SameText(twice, once);
      NoRound(n, wanted, row, cs, p, p);
      assert false;
    }
  }

  // ----- filters a plan leaves alone -----

  /** Nothing to admit or take out, every exclude of ours and every wanted one applied, and no clause of ours in
      front that Plex ignores. */
  ghost predicate Quiescent(n: Naming, wanted: seq<string>, row: OwnRow, cs: seq<Condition>) {
    Lodged(n, wanted, cs) && IdleFor(n, row, cs) && !LeadsVoided(n, cs)
  }

  lemma IdleUnmixed(n: Naming, row: OwnRow, cs: seq<Condition>)
    requires IdleFor(n, row, cs)
    ensures UnmixedFor(n, row, cs)
  {
    hide AllMine;
    hide NamesOthers;
    if row.own.Some? && !row.show {
      FlattenGroups(cs);
      forall k | 0 <= k < |cs|
        ensures Unmixed(n, row.own.value, cs[k])
      {
        var q, j := FlattenMembers(GroupsOf(cs), cs[k]);
        assert IdleGroup(n, row.own.value, row.prefix, false, GroupsOf(cs)[q]);
      }
    }
  }

  /** One pass leaves a filter alone if and only if it is such a filter. */
  lemma FixedExactly(n: Naming, wanted: seq<string>, row: OwnRow, cs: seq<Condition>)
    requires ShortlistLabels(n, wanted) && SaneNaming(n) && PlannableRow(n, row) && Plain(cs)
    ensures PassOver(n, wanted, row, cs) == cs <==> Quiescent(n, wanted, row, cs)
  {
    hide Plain;
    hide Lodged;
    hide IdleFor;
    hide UnmixedFor;
    hide AdmitFor;
    hide MergeFor;
    hide LeadsVoided;
    hide OneOff;
    hide ShortlistLabels;
    hide SaneNaming;
    hide PlannableRow;
    hide Queued;
    if IdleFor(n, row, cs) {
      IdleAdmitFor(n, row, cs);
      IdleUnmixed(n, row, cs);
      OnePass(n, wanted, row, cs);
      if Lodged(n, wanted, cs) {
        MergeOneOff(n, wanted, row, cs);
        OneOffKeeps(n, cs);
      }
    } else if PassOver(n, wanted, row, cs) == cs {
      OnePass(n, wanted, row, cs);
      TwoPasses(n, wanted, row, cs);
      assert false;
    }
  }

  lemma OneOffKeeps(n: Naming, cs: seq<Condition>)
    ensures OneOff(n, cs) == cs <==> !LeadsVoided(n, cs)
  {
  }

  /** A plan gives a filter back as it is if and only if it is such a filter: a plan never goes round. */
  lemma PlanLeavesAlone(n: Naming, raw: string, wanted: seq<string>, row: OwnRow)
    requires ShortlistLabels(n, wanted) && SaneNaming(n) && PlannableRow(n, row) && Readable(raw)
    ensures Plan(n, raw, wanted, row) == Ok(raw) <==> Quiescent(n, wanted, row, ParseFilter(raw).value)
  {
    hide Plain;
    hide Quiescent;
    hide PlanFrom;
    hide Passed;
    hide PassOver;
    hide ParseFilter;
    hide Serialize;
    hide Passes;
    hide PlannedAs;
    hide RowAllowed;
    hide LastAdmits;
    hide ShortlistLabels;
    hide SaneNaming;
    hide PlannableRow;
    hide Readable;
    ReadableParses(raw);
    var cs, p := ParseFilter(raw).value, PLAN_PASSES;
    ReadablePlain(raw);
    PlanText(n, wanted, row, p, cs);
    FixedExactly(n, wanted, row, cs);
    if PassOver(n, wanted, row, cs) == cs {
      FixedStays(n, wanted, row, p, cs);
    } else if Serialize(Passed(n, wanted, row, p, cs)) == raw {
      SameText(Passed(n, wanted, row, p, cs), cs);
      PassedOnwards(n, wanted, row, p, p, cs);
      NoRound(n, wanted, row, cs, p, p);
      PassedIs(n, wanted, row, cs, p);
      assert false;
    }
  }

  /** The passes counted: one for each clause of ours that leads what the first pass starts merging from, or, where that
      pass uncovered something to admit, what the second does; and what admitting takes behind them. */
  lemma PassesCounted(n: Naming, wanted: seq<string>, row: OwnRow, cs: seq<Condition>)
    requires ShortlistLabels(n, wanted) && SaneNaming(n) && PlannableRow(n, row) && Plain(cs)
    ensures var first := PassOver(n, wanted, row, cs);
            var second := PassOver(n, wanted, row, first);
            if IdleFor(n, row, first) then
              var run := FrontRun(n, AdmitFor(n, row, cs));
              run <= |first| && Passes(n, wanted, row, cs) == 1 + run + FrontPasses(n, row, ReadBack(first[run..]))
            else
              var run := FrontRun(n, AdmitFor(n, row, first));
              run <= |second| && Passes(n, wanted, row, cs) == 2 + run + FrontPasses(n, row, ReadBack(second[run..]))
  {
    hide Plain;
    hide Lodged;
    hide IdleFor;
    hide UnmixedFor;
    hide AdmitFor;
    hide MergedConditions;
    hide FrontPasses;
    hide VoidedRun;
    hide ShortlistLabels;
    hide SaneNaming;
    hide PlannableRow;
    hide Queued;
    hide Lifted;
    var first := PassOver(n, wanted, row, cs);
    OnePass(n, wanted, row, cs);
    if IdleFor(n, row, first) {
      CountedRun(n, wanted, row, cs);
    } else {
      CountedRun(n, wanted, row, first);
    }
  }

  lemma CountedRun(n: Naming, wanted: seq<string>, row: OwnRow, cs: seq<Condition>)
    requires ShortlistLabels(n, wanted) && SaneNaming(n) && PlannableRow(n, row) && Plain(cs)
    ensures var ds, run := PassOver(n, wanted, row, cs), FrontRun(n, AdmitFor(n, row, cs));
            run <= |ds| && FrontPasses(n, row, ds) == run + FrontPasses(n, row, ReadBack(ds[run..]))
  {
    hide Plain;
    hide AdmitFor;
    hide MergedConditions;
    hide FrontPasses;
    hide VoidedRun;
    hide ShortlistLabels;
    hide PlannableRow;
    hide Lifted;
    hide UnmixedFor;
    hide Lodged;
    var es, ds := AdmitFor(n, row, cs), PassOver(n, wanted, row, cs);
    AdmitForPlain(n, row, cs);
    MergeForPlain(n, wanted, es);
    PlainSeps(es);
    PlainSeps(ds);
    SameRun(n, es, wanted, 0);
    AfterUnfolds(n, row, ds, 0);
    if VoidedRun(n, ds, 0) > 0 {
      RunUnfolds(n, row, ds);
    } else {
      assert ds[0..] == ds;
    }
  }

  // ----- where nothing is ever to be admitted -----

  /** No row to let in or take out, or nothing but excludes. */
  ghost predicate Quiet(row: OwnRow, cs: seq<Condition>) {
    row.own.None? || forall i :: 0 <= i < |cs| ==> cs[i].op == IsNot
  }

  lemma QuietIdle(n: Naming, row: OwnRow, cs: seq<Condition>)
    requires Quiet(row, cs)
    ensures IdleFor(n, row, cs)
  {
    hide Idle;
    if row.own.Some? {
      ExcludesIdle(n, row.own.value, row.prefix, row.show, cs);
    }
  }

  lemma QuietBehind(row: OwnRow, cs: seq<Condition>)
    requires Quiet(row, cs) && |cs| > 0
    ensures Quiet(row, ReadBack(cs[1..]))
  {
  }

  lemma LiftedQuiet(n: Naming, cs: seq<Condition>, k: nat)
    requires (forall i :: 0 <= i < |cs| ==> cs[i].op == IsNot) && k < |Lifted(n, cs)|
    ensures Lifted(n, cs)[k].op == IsNot
  {
    hide Enforced;
    var i := Origin(LiftEdits(n, cs), k);
  }

  lemma QuietMerged(n: Naming, wanted: seq<string>, row: OwnRow, cs: seq<Condition>)
    requires Quiet(row, cs)
    ensures Quiet(row, MergeFor(n, wanted, cs))
  {
    hide Lifted;
    hide Missing;
    hide Wanted;
    hide IsTarget;
    if row.own.Some? {
      forall k | 0 <= k < |Lifted(n, cs)|
        ensures Lifted(n, cs)[k].op == IsNot
      {
        LiftedQuiet(n, cs, k);
      }
    }
  }

  lemma {:induction false} QuietFront(n: Naming, row: OwnRow, cs: seq<Condition>)
    requires SaneNaming(n) && VoidedAreAnded(n, cs) && ReadBack(cs) == cs && Quiet(row, cs)
    ensures FrontPasses(n, row, cs) == VoidedRun(n, cs, 0)
    decreases |cs|
  {
    hide Quiet;
    hide FrontPasses;
    hide VoidedRun;
    hide Unenforced;
    hide IdleFor;
    hide ReadBack;
    QuietIdle(n, row, cs);
    var run := VoidedRun(n, cs, 0);
    if run > 0 {
      AfterUnfolds(n, row, cs, 0);
      var t := ReadBack(cs[1..]);
      RunNext(n, cs);
      QuietBehind(row, cs);
      AndedBehind(n, cs);
      QuietFront(n, row, t);
      RunUnfolds(n, row, cs);
      if run > 1 {
        RunUnfolds(n, row, t);
      }
      assert ReadBack(t[run - 1..]) == ReadBack(cs[run..]);
      if run == 1 {
        assert t[0..] == t;
      }
    } else {
      NoRunUnfolds(n, row, cs);
    }
  }

  lemma NoRunUnfolds(n: Naming, row: OwnRow, cs: seq<Condition>)
    requires VoidedRun(n, cs, 0) == 0 && IdleFor(n, row, cs)
    ensures FrontPasses(n, row, cs) == 0
  {
  }

  lemma AndedBehind(n: Naming, cs: seq<Condition>)
    requires SaneNaming(n) && VoidedAreAnded(n, cs) && |cs| > 0
    ensures VoidedAreAnded(n, ReadBack(cs[1..]))
  {
    hide Unenforced;
    var t := cs[1..];
    forall k | 1 <= k < |t| && Unenforced(n, ReadBack(t), k)
      ensures ReadBack(t)[k].sep == '&'
    {
      ReadBackUnenforced(n, t, k);
      TailUnenforced(n, cs, k);
    }
  }

  /** With no row to let in or take out, or nothing but excludes in the filter, a plan takes one pass more than clauses
      of ours lead the filter once the movable ones are out. */
  lemma QuietPasses(n: Naming, wanted: seq<string>, row: OwnRow, cs: seq<Condition>)
    requires ShortlistLabels(n, wanted) && SaneNaming(n) && PlannableRow(n, row) && Plain(cs) && Quiet(row, cs)
    ensures Passes(n, wanted, row, cs) == 1 + FrontRun(n, cs)
    ensures PassOver(n, wanted, row, cs) == MergeFor(n, wanted, cs)
  {
    hide Plain;
    hide Lodged;
    hide Quiet;
    hide IdleFor;
    hide AdmitFor;
    hide MergedConditions;
    hide FrontPasses;
    hide VoidedRun;
    hide VoidedAreAnded;
    hide UnmixedFor;
    hide PlannableRow;
    hide Lifted;
    QuietIdle(n, row, cs);
    IdleAdmitFor(n, row, cs);
    var first := MergeFor(n, wanted, cs);
    OnePass(n, wanted, row, cs);
    PlainSeps(cs);
    PlainSeps(first);
    QuietMerged(n, wanted, row, cs);
    QuietIdle(n, row, first);
    LodgedAnded(n, wanted, first);
    QuietFront(n, row, first);
    SameRun(n, cs, wanted, 0);
  }

  /** Where no clause of ours leads, the plan for an account without a row is the merge. */
  lemma PlanIsMerge(n: Naming, raw: string, wanted: seq<string>, row: OwnRow)
    requires ShortlistLabels(n, wanted) && SaneNaming(n) && row.own.None?
    requires ParseFilter(raw).Ok? && !LiteralAmpersand(ParseFilter(raw).value)
    requires FrontRun(n, ParseFilter(raw).value) == 0
    ensures Plan(n, raw, wanted, row) == Merge(n, raw, wanted)
    ensures Merge(n, raw, wanted).Ok?
    ensures ParseFilter(Merge(n, raw, wanted).value) ==
            Ok(ReadBack(MergedConditions(n, ParseFilter(raw).value, wanted)))
  {
    hide PlanFrom;
    hide Merge;
    hide FrontRun;
    hide MergedConditions;
    hide Passes;
    hide PlannedAs;
    hide Passed;
    hide PassOver;
    hide Plain;
    hide RowAllowed;
    hide LastAdmits;
    hide Lodged;
    hide ShortlistLabels;
    hide SaneNaming;
    hide LiteralAmpersand;
    hide Serialize;
    var cs := ParseFilter(raw).value;
    ReadablePlain(raw);
    QuietPasses(n, wanted, row, cs);
    MergeForPlain(n, wanted, cs);
    PlainSeps(MergeFor(n, wanted, cs));
    PlanText(n, wanted, row, PLAN_PASSES, cs);
    PassedIs(n, wanted, row, cs, 1);
    FirstStays(n, wanted, row, cs, PLAN_PASSES);
  }

  lemma FirstStays(n: Naming, wanted: seq<string>, row: OwnRow, cs: seq<Condition>, passes: nat)
    requires PassOver(n, wanted, row, Passed(n, wanted, row, 1, cs)) == Passed(n, wanted, row, 1, cs) && passes > 0
    ensures Passed(n, wanted, row, passes, cs) == PassOver(n, wanted, row, cs)
  {
    hide PassOver;
    assert Passed(n, wanted, row, 0, PassOver(n, wanted, row, cs)) == PassOver(n, wanted, row, cs);
    FixedStays(n, wanted, row, passes - 1, PassOver(n, wanted, row, cs));
  }
}
