/** What pruning costs: exactly when a wanted label is no longer hidden once a sync has taken its prunable excludes
    out. */
module PruneEffects {
  import opened Options
  import opened ShareFilter
  import opened FilterSemantics
  import opened FilterEdits
  import opened FilterMerge
  import opened MergeTheorems
  import opened MergeStability
  import opened FilterRemove
  import opened FilterAllow
  import opened SharePlan
  import opened PlanPasses
  import opened SyncPrune
  import opened AccountSync
  import opened FilterReadBack

  // ----- a removed label that stays hidden -----

  /** A clause of removed labels that was kept so as not to regroup its neighbours, and that every `|` behind it has
      since left. */
  predicate LeftStanding(n: Naming, cs: seq<Condition>, labels: seq<string>, w: string) {
    exists i :: 0 <= i < |cs| && StandsAt(n, cs, labels, w, i)
  }

  predicate StandsAt(n: Naming, cs: seq<Condition>, labels: seq<string>, w: string, i: nat)
    requires i < |cs|
  {
    && IsExclude(cs[i]) && Regroups(cs, i) && Listed(n, w, cs[i].values)
    && WithoutValues(cs[i], InList(n, labels)).None?
    && forall j: nat :: i < j < |cs| && cs[j].sep != '&' ==> RemoveEdit(n, cs, labels, j).None?
  }

  lemma NothingLeft(n: Naming, c: Condition, labels: seq<string>)
    ensures WithoutValues(c, InList(n, labels)).None? <==> forall v :: v in c.values ==> Listed(n, v, labels)
  {
    SurvivorsMembers(c.values, PaddedSeps(c), InList(n, labels));
    var r := Survivors(c.values, PaddedSeps(c), InList(n, labels)).values;
    assert |r| > 0 ==> r[0] in r;
  }

  lemma OriginOrder<T>(edits: seq<Option<T>>, k: nat, m: nat)
    requires k < |Collect(edits)| && m < |Collect(edits)| && Origin(edits, k) < Origin(edits, m)
    ensures k < m
  {
    if m < k {
      OriginMonotone(edits, m, k);
    }
  }

  lemma EnforcedThenStands(n: Naming, cs: seq<Condition>, labels: seq<string>, w: string, k: nat)
    requires k < |Removed(n, cs, labels)| && Listed(n, w, labels)
    requires IsTarget(Removed(n, cs, labels), k) && Listed(n, w, Removed(n, cs, labels)[k].values)
    ensures LeftStanding(n, cs, labels, w)
  {
    var edits, removed := RemoveEdits(n, cs, labels), Removed(n, cs, labels);
    var m :| 0 <= m < |removed[k].values| && SameValue(n, w, removed[k].values[m]);
    var o := RemoveTakesLabelsOut(n, cs, labels, k, m);
    var i := Origin(edits, k);
    assert RemoveEdit(n, cs, labels, i) == Some(removed[k]);
    KeptWhole(n, cs, labels, w, i, removed[k]);
    forall j: nat | i < j < |cs| && cs[j].sep != '&'
      ensures RemoveEdit(n, cs, labels, j).None?
    {
      if RemoveEdit(n, cs, labels, j).Some? {
        var p := KeptHasPlace(edits, j);
        OriginOrder(edits, k, p);
        RemoveKeepsSep(n, cs, labels, j);
        assert false;
      }
    }
    assert StandsAt(n, cs, labels, w, i);
  }

  lemma RemoveKeepsSep(n: Naming, cs: seq<Condition>, labels: seq<string>, i: nat)
    requires i < |cs| && RemoveEdit(n, cs, labels, i).Some?
    ensures RemoveEdit(n, cs, labels, i).value.sep == cs[i].sep
    ensures IsExclude(RemoveEdit(n, cs, labels, i).value) <==> IsExclude(cs[i])
  {
  }

  /** A clause that still names a removed label is kept as it was. */
  lemma KeptWhole(n: Naming, cs: seq<Condition>, labels: seq<string>, w: string, i: nat, c: Condition)
    requires i < |cs| && RemoveEdit(n, cs, labels, i) == Some(c) && IsExclude(c)
    requires Listed(n, w, labels) && Listed(n, w, c.values)
    ensures IsExclude(cs[i]) && Regroups(cs, i) && c == cs[i] && WithoutValues(cs[i], InList(n, labels)).None?
  {
    var m :| 0 <= m < |c.values| && SameValue(n, w, c.values[m]);
    assert c.values[m] in c.values;
    SurvivorsMembers(cs[i].values, PaddedSeps(cs[i]), InList(n, labels));
  }

  lemma StandsThenEnforced(n: Naming, cs: seq<Condition>, labels: seq<string>, w: string, i: nat)
    requires i < |cs| && StandsAt(n, cs, labels, w, i)
    ensures EnforcesLabel(n, Removed(n, cs, labels), w)
  {
    var edits, removed := RemoveEdits(n, cs, labels), Removed(n, cs, labels);
    assert edits[i] == Some(cs[i]);
    var k := KeptHasPlace(edits, i);
    forall m: nat | k <= m < |removed| && m > 0
      ensures removed[m].sep == '&'
    {
      if k < m {
        OriginMonotone(edits, k, m);
      }
      RemoveKeepsSep(n, cs, labels, Origin(edits, m));
    }
    assert IsTarget(removed, k);
  }

  /** A removed label stays enforced exactly when it was left standing. */
  lemma RemovedStaysHidden(n: Naming, cs: seq<Condition>, labels: seq<string>, w: string)
    requires Listed(n, w, labels)
    ensures EnforcesLabel(n, Removed(n, cs, labels), w) <==> LeftStanding(n, cs, labels, w)
  {
    hide StandsAt;
    if EnforcesLabel(n, Removed(n, cs, labels), w) {
      var removed := Removed(n, cs, labels);
      var k :| 0 <= k < |removed| && IsTarget(removed, k) && Listed(n, w, removed[k].values);
      EnforcedThenStands(n, cs, labels, w, k);
    }
    if LeftStanding(n, cs, labels, w) {
      var i :| 0 <= i < |cs| && StandsAt(n, cs, labels, w, i);
      StandsThenEnforced(n, cs, labels, w, i);
    }
  }

  // ----- a synced field -----

  /** The conditions a field is planned to hold, before anything is pruned. */
  function PlanOf(k: Codec, row: OwnRow, wanted: seq<string>, current: string): seq<Condition> {
    var planned := Plan(NamingOf(k), current, wanted, row);
    if planned.Ok? && ParseFilter(planned.value).Ok? then ParseFilter(planned.value).value else []
  }

  /** Whatever a field is set to hides a wanted label if and only if no spelling of it was pruned, or a clause of it was
      left standing. */
  lemma SyncedFieldHidesExactly(k: Codec, row: OwnRow, wanted: seq<string>, pruned: seq<string>, current: string,
                                w: string)
    requires SaneNaming(NamingOf(k)) && ShortlistLabels(NamingOf(k), wanted) && w in wanted
    requires SyncField(k, row, wanted, pruned, current).Planned?
    ensures Hides(k, SyncField(k, row, wanted, pruned, current).text, w) <==>
            (forall p :: p in pruned ==> Norm(k, p) != Norm(k, w))
            || LeftStanding(NamingOf(k), PlanOf(k, row, wanted, current), pruned, w)
  {
    hide Plan;
    hide LeftStanding;
    var n, planned := NamingOf(k), Plan(NamingOf(k), current, wanted, row).value;
    if forall p :: p in pruned ==> Norm(k, p) != Norm(k, w) {
      SyncedFieldHides(k, row, wanted, pruned, current, w);
    } else {
      var p :| p in pruned && Norm(k, p) == Norm(k, w);
      var m :| 0 <= m < |pruned| && pruned[m] == p;
      PlanHides(k, row, wanted, current, w);
      WantedNotBlank(k, wanted, w);
      RemoveResult(n, planned, pruned);
      RemovedStaysHidden(n, ParseFilter(planned).value, pruned, w);
      ReadBackEnforces(n, Removed(n, ParseFilter(planned).value, pruned), w);
    }
  }

  // ----- filters in which nothing is left standing -----

  function NamesBlank(): Condition -> bool {
    (c: Condition) => |c.values| == 0 || "" in c.values
  }

  /** Every `label!=` clause names something, and nothing blank. */
  ghost predicate Tidy(text: string) {
    !SomeIn(text, NamesBlank())
  }

  lemma NamesBlankBlind()
    ensures SepBlind(NamesBlank()) && SurvivesPrinting(NamesBlank())
  {
  }

  lemma LiftBlank(n: Naming, cs: seq<Condition>)
    requires SomeExclude(Lifted(n, cs), NamesBlank())
    ensures SomeExclude(cs, NamesBlank())
  {
    var edits, kept := LiftEdits(n, cs), Lifted(n, cs);
    var k :| 0 <= k < |kept| && IsExclude(kept[k]) && NamesBlank()(kept[k]);
    var i := Origin(edits, k);
    assert LiftEdit(n, cs, i) == Some(kept[k]);
    SurvivorsMembers(cs[i].values, PaddedSeps(cs[i]), n.ours);
    assert IsExclude(cs[i]) && NamesBlank()(cs[i]);
  }

  lemma PlaceBlank(cs: seq<Condition>, missing: seq<string>, valueSep: string)
    requires |missing| > 0 && "" !in missing && SomeExclude(Place(cs, missing, valueSep), NamesBlank())
    ensures SomeExclude(cs, NamesBlank())
  {
    var ds, t := Place(cs, missing, valueSep), FirstTarget(cs, 0);
    var i :| 0 <= i < |ds| && IsExclude(ds[i]) && NamesBlank()(ds[i]);
    if i == t && t < |cs| {
      assert "" in cs[t].values + missing;
      assert IsExclude(cs[t]) && NamesBlank()(cs[t]);
    } else if i < |cs| {
      assert ds[i] == cs[i];
    }
  }

  lemma MissingNotBlank(n: Naming, cs: seq<Condition>, labels: seq<string>)
    requires ShortlistLabels(n, labels) && SaneNaming(n)
    ensures "" !in Wanted(n, cs, labels)
  {
    if "" in Wanted(n, cs, labels) {
      assert "" in Carried(n, cs) + labels;
      if "" in Carried(n, cs) {
        var i := CarriedUpToFrom(n, cs, |cs|, "");
      }
      assert false;
    }
  }

  lemma MergeBlank(n: Naming, cs: seq<Condition>, labels: seq<string>)
    requires ShortlistLabels(n, labels) && SaneNaming(n)
    requires SomeExclude(ReadBack(MergedConditions(n, cs, labels)), NamesBlank())
    ensures SomeExclude(cs, NamesBlank())
  {
    hide SomeExclude;
    hide NamesBlank;
    hide SepBlind;
    hide SurvivesPrinting;
    hide Place;
    NamesBlankBlind();
    ReadBackExcludes(MergedConditions(n, cs, labels), NamesBlank());
    MissingNotBlank(n, cs, labels);
    var kept := Lifted(n, cs);
    var missing := Missing(n, Wanted(n, cs, labels), kept);
    if |missing| > 0 {
      PlaceBlank(kept, missing, HouseValueSep(cs));
    }
    LiftBlank(n, cs);
  }

  lemma PassTidy(n: Naming, planned: string, wanted: seq<string>, row: OwnRow)
    requires ShortlistLabels(n, wanted) && SaneNaming(n) && PlannableRow(n, row) && Readable(planned)
    requires Pass(n, planned, wanted, row).Ok? && Tidy(planned)
    ensures Tidy(Pass(n, planned, wanted, row).value)
  {
    hide SomeExclude;
    hide NamesBlank;
    hide SepBlind;
    hide SurvivesPrinting;
    NamesBlankBlind();
    var admitted := planned;
    if row.own.Some? {
      admitted := Admit(n, planned, row.own.value, row.prefix, row.show).value;
      AdmitKeepsReadable(n, planned, row.own.value, row.prefix, row.show);
    }
    MergeReadsBack(n, admitted, wanted);
    if !Tidy(Pass(n, planned, wanted, row).value) {
      MergeBlank(n, ParseFilter(admitted).value, wanted);
      if row.own.Some? {
        AdmitExcludes(n, planned, row.own.value, row.prefix, row.show, NamesBlank());
      }
    }
  }

  /** A plan of a tidy filter is tidy. */
  lemma {:induction false} PlanTidy(n: Naming, passes: nat, planned: string, wanted: seq<string>, row: OwnRow)
    requires ShortlistLabels(n, wanted) && SaneNaming(n) && PlannableRow(n, row) && Readable(planned)
    requires PlanFrom(n, passes, planned, wanted, row).Ok? && Tidy(planned)
    ensures Tidy(PlanFrom(n, passes, planned, wanted, row).value)
  {
    hide Tidy;
    hide Pass;
    hide Readable;
    if passes > 0 {
      PassReadable(n, planned, wanted, row);
      PassTidy(n, planned, wanted, row);
      if Pass(n, planned, wanted, row).value != planned {
        PlanTidy(n, passes - 1, Pass(n, planned, wanted, row).value, wanted, row);
      }
    }
  }

  /** Where a merged filter has a `|` behind a clause, the clause it joins outlives pruning: it names something, and
      nothing of ours. */
  lemma PipedOutlives(n: Naming, cs: seq<Condition>, wanted: seq<string>, labels: seq<string>, j: nat)
    requires SaneNaming(n) && SepsIn(cs, CONDITION_SEPS) && 0 < j < |MergedConditions(n, cs, wanted)|
    requires var ds := ReadBack(MergedConditions(n, cs, wanted));
             && ds[j].sep != '&' && !SomeExclude(ds, NamesBlank())
             && forall v :: Names(ds, v) && Listed(n, v, labels) ==> n.ours(v)
    ensures RemoveEdit(n, ReadBack(MergedConditions(n, cs, wanted)), labels, j).Some?
  {
    var ds := ReadBack(MergedConditions(n, cs, wanted));
    if IsExclude(ds[j]) {
      NothingLeft(n, ds[j], labels);
      assert !NamesBlank()(ds[j]);
      var v := ds[j].values[0];
      if Listed(n, v, labels) {
        assert NamesValue(v)(ds[j]);
        assert Names(ds, v);
        PipedHoldsNone(n, cs, wanted, j, v);
        assert false;
      }
    }
  }

  lemma PipedHoldsNone(n: Naming, cs: seq<Condition>, wanted: seq<string>, j: nat, v: string)
    requires SaneNaming(n) && SepsIn(cs, CONDITION_SEPS) && 0 < j < |MergedConditions(n, cs, wanted)|
    requires var ds := ReadBack(MergedConditions(n, cs, wanted));
             ds[j].sep != '&' && IsExclude(ds[j]) && v in ds[j].values
    ensures !n.ours(v)
  {
    var ds := ReadBack(MergedConditions(n, cs, wanted));
    if n.ours(v) {
      assert v in Mine(n, ds[j].values);
      assert Unenforced(n, ds, j);
      UnenforcedAfterMerge(n, cs, wanted, j);
      var i := StillUnenforced(n, cs, j);
      assert false;
    }
  }

  /** Every label to be pruned is spelt recognisably wherever the filter excludes it. */
  ghost predicate AllRecognised(k: Codec, current: string, pruned: seq<string>) {
    forall p :: p in pruned ==> Recognised(k, current, p)
  }

  lemma PlannedNamesOurs(k: Codec, row: OwnRow, wanted: seq<string>, pruned: seq<string>, current: string, v: string)
    requires SaneNaming(NamingOf(k)) && ShortlistLabels(NamingOf(k), wanted) && PlannableRow(NamingOf(k), row)
    requires Readable(current) && AllRecognised(k, current, pruned)
    requires Plan(NamingOf(k), current, wanted, row).Ok?
    requires NamesIn(Plan(NamingOf(k), current, wanted, row).value, v) && Listed(NamingOf(k), v, pruned)
    ensures IsOurs(k, v)
  {
    hide NamesIn;
    hide Readable;
    hide ShortlistLabel;
    PlanNames(NamingOf(k), PLAN_PASSES, current, wanted, row, v);
    if v in wanted {
      WantedIsOurs(k, wanted, v);
    } else {
      var m :| 0 <= m < |pruned| && SameValue(NamingOf(k), v, pruned[m]);
      assert pruned[m] in pruned;
    }
  }

  /** In a tidy filter that spells recognisably whatever is to be pruned, nothing is left standing. */
  lemma NoneLeftStanding(k: Codec, row: OwnRow, wanted: seq<string>, pruned: seq<string>, current: string, w: string)
    requires SaneNaming(NamingOf(k)) && ShortlistLabels(NamingOf(k), wanted) && PlannableRow(NamingOf(k), row)
    requires Readable(current) && Tidy(current) && AllRecognised(k, current, pruned)
    ensures !LeftStanding(NamingOf(k), PlanOf(k, row, wanted, current), pruned, w)
  {
    hide AllRecognised;
    hide SomeExclude;
    hide Names;
    hide Readable;
    hide PlanFrom;
    hide MergedConditions;
    hide RemoveEdit;
    var n := NamingOf(k);
    PlanRefusesOnlyUnreadable(n, current, wanted, row);
    var admitted := PlanIsMerged(n, PLAN_PASSES, current, wanted, row);
    MergeReadsBack(n, admitted, wanted);
    PlanTidy(n, PLAN_PASSES, current, wanted, row);
    var cs := ParseFilter(admitted).value;
    var ds := ReadBack(MergedConditions(n, cs, wanted));
    ParsedIsPrintable(cs);
    forall v | Names(ds, v) && Listed(n, v, pruned)
      ensures n.ours(v)
    {
      PlannedNamesOurs(k, row, wanted, pruned, current, v);
    }
    if LeftStanding(n, ds, pruned, w) {
      var i :| 0 <= i < |ds| && StandsAt(n, ds, pruned, w, i);
      var j :| i < j < |ds| && ds[j].sep != '&';
      PipedOutlives(n, cs, wanted, pruned, j);
      assert false;
    }
  }

  // ----- a synced account -----

  /** A spelling of the label, with the shared rows' prefix in plain sight, that only decoding and folding equate with
      it. */
  predicate Disguises(k: Codec, lbl: string, w: string) {
    && k.lower(k.sharedPrefix) <= k.lower(lbl)
    && Norm(k, lbl) == Norm(k, w) && k.lower(lbl) != k.lower(w)
  }

  /** A spelling of a wanted label is pruned if and only if it is a disguise and the enumeration is trusted. */
  lemma SpellingPrunedExactly(k: Codec, e: Evidence, lbl: string, w: string)
    requires Faithful(k) && PlainEvidence(k, e) && w in WantedBy(k, e) && Norm(k, lbl) == Norm(k, w)
    ensures MayPrune(k, e, lbl) <==> Existing(k, e).Some? && Disguises(k, lbl, w)
  {
    if Existing(k, e).Some? && Disguised(k, e, lbl) {
      var x :| x in WantedBy(k, e) && Norm(k, lbl) == Norm(k, x) && k.lower(lbl) != k.lower(x);
      PlainNorm(k, x);
      PlainNorm(k, w);
      DisguisedIsPruned(k, e, lbl);
    } else {
      WantedNotPruned(k, e, lbl, w);
    }
  }

  /** One of the account's two filters excludes the label in disguise, while the enumeration is trusted. */
  ghost predicate DisguisedIn(k: Codec, e: Evidence, before: Filters, w: string)
    requires ParseFilter(before.movies).Ok? && ParseFilter(before.television).Ok?
  {
    && Existing(k, e).Some?
    && exists lbl :: Disguises(k, lbl, w) && (lbl in OursIn(k, ParseFilter(before.movies).value)
                                             || lbl in OursIn(k, ParseFilter(before.television).value))
  }

  lemma PrunedInDisguise(k: Codec, e: Evidence, before: Filters, pruned: seq<string>, w: string)
    requires Faithful(k) && PlainEvidence(k, e) && w in WantedBy(k, e)
    requires ParseFilter(before.movies).Ok? && ParseFilter(before.television).Ok?
    requires ListsPrunable(k, e, before, pruned)
    ensures (exists p :: p in pruned && Norm(k, p) == Norm(k, w)) <==> DisguisedIn(k, e, before, w)
  {
    hide OursIn;
    hide MayPrune;
    hide Norm;
    hide Existing;
    if p :| p in pruned && Norm(k, p) == Norm(k, w) {
      SpellingPrunedExactly(k, e, p, w);
    }
    if DisguisedIn(k, e, before, w) {
      var lbl :| Disguises(k, lbl, w) && (lbl in OursIn(k, ParseFilter(before.movies).value)
                                         || lbl in OursIn(k, ParseFilter(before.television).value));
      SpellingPrunedExactly(k, e, lbl, w);
      assert lbl in pruned;
    }
  }

  /** After a sync, a field Plex can read hides a label the account must not see if and only if neither of the
      account's filters excluded it in disguise, or a clause of it was left standing. */
  lemma SyncedAccountHidesExactly(k: Codec, isOwner: bool, remote: Option<Remote>, e: Evidence,
                                  rowLabel: Option<string>, wanted: seq<string>, pruned: seq<string>, field: Field,
                                  w: string)
    requires Sound(k, e) && Lists(wanted, WantedBy(k, e)) && ShortlistLabels(NamingOf(k), wanted)
    requires SyncAccount(k, isOwner, remote, e, rowLabel, wanted, pruned).Synced?
    requires ParseFilter(remote.value.filters.movies).Ok? && ParseFilter(remote.value.filters.television).Ok?
    requires ListsPrunable(k, e, remote.value.filters, pruned) && w in WantedBy(k, e)
    requires SyncAccount(k, isOwner, remote, e, rowLabel, wanted, pruned).At(field).Planned?
    ensures var row, before := RowToAdmit(e, rowLabel, k.prefix), remote.value.filters;
            Hides(k, SyncAccount(k, isOwner, remote, e, rowLabel, wanted, pruned).At(field).text, w) <==>
            !DisguisedIn(k, e, before, w)
            || LeftStanding(NamingOf(k), PlanOf(k, row, wanted, before.At(field)), pruned, w)
  {
    hide Hides;
    hide SyncField;
    hide SyncAccount;
    hide LeftStanding;
    hide DisguisedIn;
    hide ListsPrunable;
    hide RowToAdmit;
    hide WantedBy;
    hide Faithful;
    hide PlainEvidence;
    hide PlanOf;
    var row := RowToAdmit(e, rowLabel, k.prefix);
    SyncedField(k, isOwner, remote, e, rowLabel, wanted, pruned, field);
    SyncedFieldHidesExactly(k, row, wanted, pruned, remote.value.filters.At(field), w);
    PrunedInDisguise(k, e, remote.value.filters, pruned, w);
  }

  /** So in a tidy filter that spells recognisably whatever is to be pruned, the disguises alone decide. */
  lemma TidyAccountHidesExactly(k: Codec, isOwner: bool, remote: Option<Remote>, e: Evidence,
                                rowLabel: Option<string>, wanted: seq<string>, pruned: seq<string>, field: Field,
                                w: string)
    requires Sound(k, e) && Lists(wanted, WantedBy(k, e)) && ShortlistLabels(NamingOf(k), wanted)
    requires PlannableRow(NamingOf(k), RowToAdmit(e, rowLabel, k.prefix))
    requires SyncAccount(k, isOwner, remote, e, rowLabel, wanted, pruned).Synced?
    requires ParseFilter(remote.value.filters.movies).Ok? && ParseFilter(remote.value.filters.television).Ok?
    requires ListsPrunable(k, e, remote.value.filters, pruned) && w in WantedBy(k, e)
    requires var current := remote.value.filters.At(field);
             Readable(current) && Tidy(current) && AllRecognised(k, current, pruned)
    ensures SyncAccount(k, isOwner, remote, e, rowLabel, wanted, pruned).At(field).Planned?
    ensures Hides(k, SyncAccount(k, isOwner, remote, e, rowLabel, wanted, pruned).At(field).text, w) <==>
            !DisguisedIn(k, e, remote.value.filters, w)
  {
    hide Hides;
    hide SyncField;
    hide SyncAccount;
    hide LeftStanding;
    hide DisguisedIn;
    hide ListsPrunable;
    hide AllRecognised;
    hide RowToAdmit;
    hide WantedBy;
    hide Faithful;
    hide PlainEvidence;
    hide PlanOf;
    hide Readable;
    hide Tidy;
    hide SaneNaming;
    hide ShortlistLabels;
    hide PlannableRow;
    hide Lists;
    hide ParseFilter;
    var row := RowToAdmit(e, rowLabel, k.prefix);
    SyncedField(k, isOwner, remote, e, rowLabel, wanted, pruned, field);
    var current := remote.value.filters.At(field);
    ReadableParses(current);
    FieldPlannedOrUnreadable(k, row, wanted, pruned, current);
    NoneLeftStanding(k, row, wanted, pruned, current, w);
    SyncedAccountHidesExactly(k, isOwner, remote, e, rowLabel, wanted, pruned, field, w);
  }

  lemma PrunedReadable(k: Codec, row: OwnRow, wanted: seq<string>, pruned: seq<string>, current: string)
    requires SaneNaming(NamingOf(k)) && ShortlistLabels(NamingOf(k), wanted)
    requires PlannableRow(NamingOf(k), row) && Readable(current)
    ensures SyncField(k, row, wanted, pruned, current).Planned?
    ensures Readable(SyncField(k, row, wanted, pruned, current).text)
  {
    hide Plan;
    hide Remove;
    hide ShortlistLabels;
    hide SaneNaming;
    hide PlannableRow;
    hide ParseFilter;
    hide LiteralAmpersand;
    PlanRefusesOnlyUnreadable(NamingOf(k), current, wanted, row);
    var planned := Plan(NamingOf(k), current, wanted, row).value;
    if |pruned| > 0 {
      RemoveReadable(NamingOf(k), planned, pruned);
    }
  }

  /** A second sync that knows the same, and finds nothing to prune, leaves a field as the first wrote it if and only if
      that is a filter a plan leaves alone. Where the first had nothing to prune either, that is if and only if its plan
      took no more than four passes. */
  lemma SecondSyncIsQuiet(k: Codec, row: OwnRow, wanted: seq<string>, pruned: seq<string>, current: string)
    requires SaneNaming(NamingOf(k)) && ShortlistLabels(NamingOf(k), wanted)
    requires PlannableRow(NamingOf(k), row) && Readable(current)
    ensures SyncField(k, row, wanted, pruned, current).Planned?
    ensures var once := SyncField(k, row, wanted, pruned, current);
            && Readable(once.text)
            && (SyncField(k, row, wanted, [], once.text) == once <==>
                Quiescent(NamingOf(k), wanted, row, ParseFilter(once.text).value))
            && (pruned == [] ==>
                  (SyncField(k, row, wanted, [], once.text) == once <==>
                   Passes(NamingOf(k), wanted, row, ParseFilter(current).value) <= PLAN_PASSES))
  {
    hide Plan;
    hide Remove;
    hide Passes;
    hide Quiescent;
    hide ParseFilter;
    hide LiteralAmpersand;
    hide ShortlistLabels;
    hide SaneNaming;
    hide PlannableRow;
    PrunedReadable(k, row, wanted, pruned, current);
    PlanLeavesAlone(NamingOf(k), SyncField(k, row, wanted, pruned, current).text, wanted, row);
    PlanAgain(NamingOf(k), current, wanted, row);
  }

  // ----- what does come out -----

  /** A label that may come out and is not wanted is in no exclude of a synced field, but for a clause of pruned labels
      alone that could not go without regrouping the owner's conditions. */
  lemma UnwantedComesOut(k: Codec, isOwner: bool, remote: Option<Remote>, e: Evidence, rowLabel: Option<string>,
                       wanted: seq<string>, pruned: seq<string>, field: Field, lbl: string)
    returns (i: nat)
    requires Sound(k, e) && Lists(wanted, WantedBy(k, e)) && ShortlistLabels(NamingOf(k), wanted)
    requires PlannableRow(NamingOf(k), RowToAdmit(e, rowLabel, k.prefix))
    requires SyncAccount(k, isOwner, remote, e, rowLabel, wanted, pruned).Synced?
    requires ParseFilter(remote.value.filters.movies).Ok? && ParseFilter(remote.value.filters.television).Ok?
    requires ListsPrunable(k, e, remote.value.filters, pruned)
    requires SyncAccount(k, isOwner, remote, e, rowLabel, wanted, pruned).At(field).Planned?
    requires LetsGo(k, e, lbl) && lbl !in WantedBy(k, e)
    requires lbl in OursInText(k, SyncAccount(k, isOwner, remote, e, rowLabel, wanted, pruned).At(field).text)
    ensures var cs := PlanOf(k, RowToAdmit(e, rowLabel, k.prefix), wanted, remote.value.filters.At(field));
            && i < |cs| && Regroups(cs, i) && lbl in cs[i].values
            && forall v :: v in cs[i].values ==> Listed(NamingOf(k), v, pruned)
  {
    hide SyncAccount;
    hide SyncField;
    hide LetsGo;
    hide MayPrune;
    hide Faithful;
    hide PlainEvidence;
    hide NamesIn;
    hide ListsPrunable;
    hide WantedBy;
    hide OursInText;
    hide Regroups;
    SyncedField(k, isOwner, remote, e, rowLabel, wanted, pruned, field);
    var row, current := RowToAdmit(e, rowLabel, k.prefix), remote.value.filters.At(field);
    PlannedReadable(k, row, wanted, pruned, current);
    var text := SyncField(k, row, wanted, pruned, current).text;
    OursAreNamed(k, text, lbl);
    SyncFieldNames(k, row, wanted, pruned, current, lbl);
    PrunedExactly(k, e, lbl);
    OursAreNamed(k, current, lbl);
    IsPruned(k, e, remote.value.filters, pruned, field, lbl);
    i := StaysWhole(k, row, wanted, pruned, current, lbl);
  }

  lemma IsPruned(k: Codec, e: Evidence, before: Filters, pruned: seq<string>, field: Field, lbl: string)
    requires ParseFilter(before.movies).Ok? && ParseFilter(before.television).Ok?
    requires ListsPrunable(k, e, before, pruned) && MayPrune(k, e, lbl) && lbl in OursInText(k, before.At(field))
    ensures lbl in pruned
  {
    hide MayPrune;
    hide OursIn;
    hide ParseFilter;
  }

  lemma StaysWhole(k: Codec, row: OwnRow, wanted: seq<string>, pruned: seq<string>, current: string, lbl: string)
    returns (i: nat)
    requires SaneNaming(NamingOf(k)) && ShortlistLabels(NamingOf(k), wanted) && PlannableRow(NamingOf(k), row)
    requires Readable(current) && SyncField(k, row, wanted, pruned, current).Planned? && lbl in pruned
    requires NamesIn(SyncField(k, row, wanted, pruned, current).text, lbl)
    ensures var cs := PlanOf(k, row, wanted, current);
            && i < |cs| && Regroups(cs, i) && lbl in cs[i].values
            && forall v :: v in cs[i].values ==> Listed(NamingOf(k), v, pruned)
  {
    hide Plan;
    hide ParseFilter;
    hide LiteralAmpersand;
    hide Removed;
    hide ShortlistLabels;
    hide SaneNaming;
    hide PlannableRow;
    hide Regroups;
    var n := NamingOf(k);
    PlanRefusesOnlyUnreadable(n, current, wanted, row);
    var cs := ParseFilter(Plan(n, current, wanted, row).value).value;
    RemoveResult(n, Plan(n, current, wanted, row).value, pruned);
    i := NamedStaysWhole(n, cs, pruned, lbl);
  }

  lemma NamedStaysWhole(n: Naming, cs: seq<Condition>, pruned: seq<string>, lbl: string) returns (i: nat)
    requires Names(ReadBack(Removed(n, cs, pruned)), lbl) && lbl in pruned
    ensures i < |cs| && Regroups(cs, i) && lbl in cs[i].values
    ensures forall v :: v in cs[i].values ==> Listed(n, v, pruned)
  {
    hide Removed;
    hide Regroups;
    var es := ReadBack(Removed(n, cs, pruned));
    var m :| 0 <= m < |es| && IsExclude(es[m]) && NamesValue(lbl)(es[m]);
    var j :| 0 <= j < |es[m].values| && es[m].values[j] == lbl;
    assert es[m].values == Removed(n, cs, pruned)[m].values;
    ListedIn(n, lbl, pruned);
    i := RemoveTakesLabelsOut(n, cs, pruned, m, j);
  }
}
