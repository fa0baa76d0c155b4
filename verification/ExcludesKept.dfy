/** No plan loses a label of ours: whatever of ours a filter excludes anywhere, in spellings the code recognises, the
    plan enforces; and with no trustworthy enumeration a sync takes nothing of ours out but the account's own label. */
module ExcludesKept {
  import opened Options
  import opened ShareFilter
  import opened FilterSemantics
  import opened FilterEdits
  import opened FilterGroups
  import opened FilterMerge
  import opened MergeTheorems
  import opened FilterRemove
  import opened FilterAllow
  import opened SharePlan
  import opened PassShape
  import opened PlanSteps
  import opened PlanPasses
  import opened SyncPrune
  import opened AccountSync
  import opened FilterReadBack

  /** Some exclude names the label, and every one that does is spelt so that the code recognises it. */
  ghost predicate Excluded(n: Naming, cs: seq<Condition>, v: string) {
    && (exists u :: Names(cs, u) && SameValue(n, u, v))
    && forall u :: Names(cs, u) && SameValue(n, u, v) ==> n.ours(u)
  }

  // ----- the allow-list step -----

  lemma NamedAt(cs: seq<Condition>, i: nat, v: string)
    requires i < |cs| && IsExclude(cs[i]) && v in cs[i].values
    ensures Names(cs, v)
  {
    assert NamesValue(v)(cs[i]);
  }

  lemma ReadBackKeepsName(cs: seq<Condition>, v: string)
    requires v != "" && Names(cs, v)
    ensures Names(ReadBack(cs), v)
  {
    var i :| 0 <= i < |cs| && IsExclude(cs[i]) && NamesValue(v)(cs[i]);
    NamedAt(ReadBack(cs), i, v);
  }

  lemma HideGroupKeepsName(n: Naming, own: string, g: seq<Condition>, v: string)
    requires |g| > 0 && Names(g, v)
    ensures Names(HideGroup(n, own, g), v)
  {
    hide NamesValue;
    var i :| 0 <= i < |g| && IsExclude(g[i]) && NamesValue(v)(g[i]);
    var edits := HideEdits(n, own, g);
    assert edits[i] == Some(g[i]);
    var m := KeptHasPlace(edits, i);
    NamesValueBlind(v);
    assert IsExclude(HideGroup(n, own, g)[m]) && NamesValue(v)(HideGroup(n, own, g)[m]);
  }

  lemma {:induction false} HideGroupsKeepName(n: Naming, own: string, gs: seq<seq<Condition>>, v: string)
    requires (forall q :: 0 <= q < |gs| ==> |gs[q]| > 0) && Names(Flatten(gs), v)
    ensures Names(Flatten(HideGroups(n, own, gs)), v)
  {
    hide Names;
    hide HideGroup;
    if |gs| == 0 {
      NothingNamed(v);
    } else {
      var init, last := gs[..|gs| - 1], gs[|gs| - 1];
      NamedInEither(Flatten(init), last, v);
      var h := HideGroup(n, own, last);
      if Names(last, v) {
        HideGroupKeepsName(n, own, last, v);
      } else {
        HideGroupsKeepName(n, own, init, v);
      }
      NothingNamed(v);
      if |h| > 0 {
        FlattenSnoc(HideGroups(n, own, init), h);
        NamedInEither(Flatten(HideGroups(n, own, init)), h, v);
      } else {
        assert HideGroups(n, own, init) + [] == HideGroups(n, own, init);
      }
    }
  }

  lemma NothingNamed(v: string)
    ensures !Names([], v) && Flatten([]) == []
  {
  }

  lemma NamedInEither(a: seq<Condition>, b: seq<Condition>, v: string)
    ensures Names(a + b, v) <==> Names(a, v) || Names(b, v)
  {
    SomeConcat(a, b, NamesValue(v));
  }

  lemma UnledNames(cs: seq<Condition>, v: string)
    ensures Names(Unled(cs), v) <==> Names(cs, v)
  {
    if Names(cs, v) {
      var i :| 0 <= i < |cs| && IsExclude(cs[i]) && NamesValue(v)(cs[i]);
      NamedAt(Unled(cs), i, v);
    }
    if Names(Unled(cs), v) {
      var i :| 0 <= i < |cs| && IsExclude(Unled(cs)[i]) && NamesValue(v)(Unled(cs)[i]);
      NamedAt(cs, i, v);
    }
  }

  /** Admitting or un-admitting takes out no exclude. */
  lemma AdmitKeepsName(n: Naming, row: OwnRow, cs: seq<Condition>, v: string)
    requires Names(cs, v) && v != ""
    ensures Names(AdmitFor(n, row, cs), v)
  {
    hide Names;
    hide ReadBack;
    if row.own.Some? {
      if row.show {
        NamesValueBlind(v);
        ShownNames(n, row.own.value, row.prefix, cs, v);
      } else {
        GroupsShape(cs);
        FlattenGroups(cs);
        HideGroupsKeepName(n, row.own.value, GroupsOf(cs), v);
        UnledNames(Flatten(HiddenGroups(n, row.own.value, cs)), v);
      }
      ReadBackKeepsName(AdmitConditions(n, row.own.value, row.prefix, row.show, cs), v);
    }
  }

  lemma ShownNames(n: Naming, own: string, prefix: string, cs: seq<Condition>, v: string)
    ensures Names(AdmitConditions(n, own, prefix, true, cs), v) <==> Names(cs, v)
  {
    NamesValueBlind(v);
    ShownExcludes(n, own, prefix, cs, NamesValue(v));
  }

  // ----- the merge -----

  lemma MergedEnforcesOurs(n: Naming, wanted: seq<string>, cs: seq<Condition>, u: string)
    requires SaneNaming(n) && Names(cs, u) && n.ours(u)
    ensures EnforcesLabel(n, MergedConditions(n, cs, wanted), u)
  {
    hide Lifted;
    hide Distinct;
    hide Missing;
    hide EnforcesLabel;
    var i :| 0 <= i < |cs| && IsExclude(cs[i]) && NamesValue(u)(cs[i]);
    if Enforced(cs, i) {
      EnforcedNames(n, cs, i, u);
      EnforcedBeforeIsEnforcedAfter(n, cs, u);
      var missing := Missing(n, Wanted(n, cs, wanted), Lifted(n, cs));
      if |missing| > 0 {
        PlaceEnforces(n, Lifted(n, cs), missing, HouseValueSep(cs), u);
      }
    } else {
      assert u in Mine(n, cs[i].values);
      CarriedUpToHas(n, cs, |cs|, i, u);
      WantedEnforced(n, wanted, cs, u);
    }
  }

  lemma EnforcedNames(n: Naming, cs: seq<Condition>, i: nat, u: string)
    requires i < |cs| && Enforced(cs, i) && IsExclude(cs[i]) && u in cs[i].values
    ensures EnforcesLabel(n, cs, u)
  {
    ListedIn(n, u, cs[i].values);
    assert IsTarget(cs, i);
  }

  lemma WantedEnforced(n: Naming, wanted: seq<string>, cs: seq<Condition>, u: string)
    requires u in Carried(n, cs)
    ensures EnforcesLabel(n, MergedConditions(n, cs, wanted), u)
  {
    hide MergedConditions;
    hide Distinct;
    hide EnforcesLabel;
    var all := Carried(n, cs) + wanted;
    var j :| 0 <= j < |Carried(n, cs)| && Carried(n, cs)[j] == u;
    assert all[j] == u;
    DistinctLists(n, all, j);
    MergedEnforces(n, cs, wanted);
    var w :| 0 <= w < |Wanted(n, cs, wanted)| && SameValue(n, u, Wanted(n, cs, wanted)[w]);
    EnforcesSame(n, MergedConditions(n, cs, wanted), Wanted(n, cs, wanted)[w], u);
  }

  // ----- passes -----

  lemma OursNotEmpty(n: Naming, u: string)
    requires SaneNaming(n) && n.ours(u)
    ensures u != "" && n.norm(u) != n.norm("")
  {
  }

  lemma PassEnforces(n: Naming, wanted: seq<string>, row: OwnRow, cs: seq<Condition>, v: string)
    requires SaneNaming(n) && Excluded(n, cs, v)
    ensures EnforcesLabel(n, PassOver(n, wanted, row, cs), v)
  {
    hide Names;
    hide EnforcesLabel;
    hide MergedConditions;
    hide AdmitFor;
    var u :| Names(cs, u) && SameValue(n, u, v);
    OursNotEmpty(n, u);
    AdmitKeepsName(n, row, cs, u);
    var es := AdmitFor(n, row, cs);
    MergedEnforcesOurs(n, wanted, es, u);
    ReadBackEnforces(n, MergedConditions(n, es, wanted), u);
    EnforcesSame(n, PassOver(n, wanted, row, cs), u, v);
  }

  lemma EnforcedIsNamed(n: Naming, cs: seq<Condition>, v: string)
    requires EnforcesLabel(n, cs, v)
    ensures exists u :: Names(cs, u) && SameValue(n, u, v)
  {
    var i :| 0 <= i < |cs| && IsTarget(cs, i) && Listed(n, v, cs[i].values);
    var j :| 0 <= j < |cs[i].values| && SameValue(n, v, cs[i].values[j]);
    NamedAt(cs, i, cs[i].values[j]);
  }

  lemma PassKeepsExcluded(n: Naming, wanted: seq<string>, row: OwnRow, cs: seq<Condition>, v: string)
    requires ShortlistLabels(n, wanted) && SaneNaming(n) && PlannableRow(n, row) && Plain(cs) && Excluded(n, cs, v)
    ensures Excluded(n, PassOver(n, wanted, row, cs), v)
  {
    hide Names;
    hide EnforcesLabel;
    hide PassOver;
    hide Plain;
    hide ShortlistLabel;
    var ds := PassOver(n, wanted, row, cs);
    PassEnforces(n, wanted, row, cs, v);
    EnforcedIsNamed(n, ds, v);
    forall u | Names(ds, u) && SameValue(n, u, v)
      ensures n.ours(u)
    {
      PassNamesOld(n, wanted, row, cs, u);
      if u in wanted {
        ShortlistIsOurs(n, wanted, u);
      }
    }
  }

  lemma ShortlistIsOurs(n: Naming, wanted: seq<string>, u: string)
    requires ShortlistLabels(n, wanted) && u in wanted
    ensures n.ours(u)
  {
    var i :| 0 <= i < |wanted| && wanted[i] == u;
    assert ShortlistLabel(n, wanted[i]);
  }

  lemma PassNamesOld(n: Naming, wanted: seq<string>, row: OwnRow, cs: seq<Condition>, u: string)
    requires ShortlistLabels(n, wanted) && SaneNaming(n) && PlannableRow(n, row) && Plain(cs)
    requires Names(PassOver(n, wanted, row, cs), u)
    ensures Names(cs, u) || u in wanted
  {
    hide Names;
    hide PassOver;
    hide Pass;
    hide Serialize;
    hide ParseFilter;
    hide LiteralAmpersand;
    hide Plain;
    PassText(n, wanted, row, cs);
    PlainTextReads(cs);
    PlainTextReads(PassOver(n, wanted, row, cs));
    PassNames(n, Serialize(cs), wanted, row, u);
  }

  lemma PlainTextReads(cs: seq<Condition>)
    requires Plain(cs)
    ensures ParseFilter(Serialize(cs)) == Ok(cs) && Readable(Serialize(cs))
  {
    PlainSeps(cs);
  }

  lemma {:induction false} PassesEnforce(n: Naming, wanted: seq<string>, row: OwnRow, passes: nat, cs: seq<Condition>,
                                         v: string)
    requires ShortlistLabels(n, wanted) && SaneNaming(n) && PlannableRow(n, row) && Plain(cs) && Excluded(n, cs, v)
    requires passes > 0
    ensures EnforcesLabel(n, Passed(n, wanted, row, passes, cs), v)
    decreases passes
  {
    hide Excluded;
    hide EnforcesLabel;
    hide PassOver;
    hide Plain;
    hide ShortlistLabels;
    hide SaneNaming;
    hide PlannableRow;
    var ds := PassOver(n, wanted, row, cs);
    if passes == 1 {
      PassEnforces(n, wanted, row, cs, v);
      assert Passed(n, wanted, row, 0, ds) == ds;
    } else {
      PassKeepsExcluded(n, wanted, row, cs, v);
      PassText(n, wanted, row, cs);
      PassesEnforce(n, wanted, row, passes - 1, ds, v);
    }
  }

  /** A plan enforces every label of ours that the filter excluded anywhere. */
  lemma PlanKeepsOurs(k: Codec, row: OwnRow, wanted: seq<string>, current: string, v: string)
    requires SaneNaming(NamingOf(k)) && ShortlistLabels(NamingOf(k), wanted) && PlannableRow(NamingOf(k), row)
    requires Readable(current) && NamesIn(current, v) && Recognised(k, current, v)
    ensures Plan(NamingOf(k), current, wanted, row).Ok?
    ensures Hides(k, Plan(NamingOf(k), current, wanted, row).value, v)
  {
    hide Names;
    hide Passed;
    hide PlanFrom;
    hide Serialize;
    hide Plain;
    hide EnforcesLabel;
    hide ShortlistLabels;
    hide SaneNaming;
    hide PlannableRow;
    hide ParseFilter;
    hide LiteralAmpersand;
    var n, cs := NamingOf(k), ParseFilter(current).value;
    ReadablePlain(current);
    assert SameValue(n, v, v);
    PassesEnforce(n, wanted, row, PLAN_PASSES, cs, v);
    PlanText(n, wanted, row, PLAN_PASSES, cs);
    PlainTextReads(Passed(n, wanted, row, PLAN_PASSES, cs));
  }

  /** So does a synced field, for every such label but those pruned. */
  lemma FieldKeepsOurs(k: Codec, row: OwnRow, wanted: seq<string>, pruned: seq<string>, current: string, v: string)
    requires SaneNaming(NamingOf(k)) && ShortlistLabels(NamingOf(k), wanted) && PlannableRow(NamingOf(k), row)
    requires Readable(current) && NamesIn(current, v) && Recognised(k, current, v)
    requires !Listed(NamingOf(k), v, pruned) && SyncField(k, row, wanted, pruned, current).Planned?
    ensures Hides(k, SyncField(k, row, wanted, pruned, current).text, v)
  {
    hide Plan;
    hide NamesIn;
    hide EnforcesLabel;
    hide ShortlistLabels;
    hide PlannableRow;
    var n := NamingOf(k);
    PlanKeepsOurs(k, row, wanted, current, v);
    PlanRefusesOnlyUnreadable(n, current, wanted, row);
    OursNotEmpty(n, v);
    if |pruned| > 0 {
      RemoveKeepsEnforced(n, Plan(n, current, wanted, row).value, pruned, v);
    }
  }

  // ----- a sync that may not trust what it read -----

  lemma OnlyOwnGoes(k: Codec, e: Evidence, pruned: seq<string>, v: string)
    requires Sound(k, e) && (!e.collectionsKnown || e.stored == map[])
    requires e.own.Some? ==> Norm(k, v) != Norm(k, e.own.value)
    requires forall p :: p in pruned ==> MayPrune(k, e, p)
    ensures !Listed(NamingOf(k), v, pruned)
  {
    hide MayPrune;
    forall i | 0 <= i < |pruned|
      ensures !SameValue(NamingOf(k), v, pruned[i])
    {
      PrunedExactly(k, e, pruned[i]);
      SpelledAlike(k, pruned[i], e.own.value);
      PlainNorm(k, e.own.value);
    }
  }

  /** After an enumeration that failed or found nothing, a synced field enforces every label of ours it excluded before,
      but for the account's own. */
  lemma BadReadKeepsExcludes(k: Codec, isOwner: bool, remote: Option<Remote>, e: Evidence, rowLabel: Option<string>,
                             wanted: seq<string>, pruned: seq<string>, field: Field, v: string)
    requires Sound(k, e) && ShortlistLabels(NamingOf(k), wanted) && forall p :: p in pruned ==> MayPrune(k, e, p)
    requires PlannableRow(NamingOf(k), RowToAdmit(e, rowLabel, k.prefix))
    requires SyncAccount(k, isOwner, remote, e, rowLabel, wanted, pruned).Synced? && remote.Some?
    requires SyncAccount(k, isOwner, remote, e, rowLabel, wanted, pruned).At(field).Planned?
    requires !e.collectionsKnown || e.stored == map[]
    requires NamesIn(remote.value.filters.At(field), v) && Recognised(k, remote.value.filters.At(field), v)
    requires e.own.Some? ==> Norm(k, v) != Norm(k, e.own.value)
    ensures Hides(k, SyncAccount(k, isOwner, remote, e, rowLabel, wanted, pruned).At(field).text, v)
  {
    hide SyncAccount;
    hide SyncField;
    hide MayPrune;
    hide NamesIn;
    hide Recognised;
    hide Hides;
    hide RowToAdmit;
    hide Faithful;
    hide PlainEvidence;
    var row, current := RowToAdmit(e, rowLabel, k.prefix), remote.value.filters.At(field);
    SyncedField(k, isOwner, remote, e, rowLabel, wanted, pruned, field);
    PlannedReadable(k, row, wanted, pruned, current);
    OnlyOwnGoes(k, e, pruned, v);
    FieldKeepsOurs(k, row, wanted, pruned, current, v);
  }
}
