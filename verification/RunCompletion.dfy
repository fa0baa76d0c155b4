/** A run nothing has stood against yet can still promote every row there is: all it takes is that plex.tv stores each
    write as it is given, and that no label comes back out of a clause that cannot go. */
module RunCompletion {
  import opened ShareFilter
  import opened FilterSemantics
  import opened FilterMerge
  import opened MergeTheorems
  import opened FilterRemove
  import opened SharePlan
  import opened PassShape
  import opened PlanSteps
  import opened PlanPasses
  import opened SyncPrune
  import opened AccountSync
  import opened FilterReadBack
  import opened PruneEffects
  import opened RunProtocol
  import opened RunSafety
  import opened RunBlockers

  // ----- what is written passes its own check -----

  lemma LodgedEnforcesOurs(n: Naming, wanted: seq<string>, cs: seq<Condition>, i: nat, v: string)
    requires Lodged(n, wanted, cs) && i < |cs| && IsExclude(cs[i]) && v in cs[i].values && n.ours(v)
    ensures EnforcesLabel(n, cs, v)
  {
    if Enforced(cs, i) {
      ListedIn(n, v, cs[i].values);
      assert IsTarget(cs, i);
    } else {
      assert v in Mine(n, cs[i].values);
      CarriedUpToHas(n, cs, |cs|, i, v);
    }
  }

  lemma PlanLodged(n: Naming, current: string, wanted: seq<string>, row: OwnRow)
    requires ShortlistLabels(n, wanted) && SaneNaming(n) && PlannableRow(n, row) && Readable(current)
    ensures Plan(n, current, wanted, row).Ok? && ParseFilter(Plan(n, current, wanted, row).value).Ok?
    ensures Lodged(n, wanted, ParseFilter(Plan(n, current, wanted, row).value).value)
    ensures Readable(Plan(n, current, wanted, row).value)
  {
    hide PlanFrom;
    hide MergeFor;
    hide Plain;
    hide Lodged;
    hide ParseFilter;
    PlanRefusesOnlyUnreadable(n, current, wanted, row);
    PlanWasMerged(n, current, wanted, row);
  }

  lemma PlanWasMerged(n: Naming, current: string, wanted: seq<string>, row: OwnRow)
    requires ShortlistLabels(n, wanted) && SaneNaming(n) && Plan(n, current, wanted, row).Ok?
    ensures ParseFilter(Plan(n, current, wanted, row).value).Ok?
    ensures Lodged(n, wanted, ParseFilter(Plan(n, current, wanted, row).value).value)
  {
    hide Plain;
    hide Lodged;
    hide ParseFilter;
    hide LiteralAmpersand;
    hide MergeFor;
    var admitted := PlanIsMerged(n, PLAN_PASSES, current, wanted, row);
    MergeNeverFailsItsCheck(n, admitted, wanted);
    ReadablePlain(admitted);
    MergeForPlain(n, wanted, ParseFilter(admitted).value);
    PlainParses(MergeFor(n, wanted, ParseFilter(admitted).value));
  }

  lemma PlainParses(cs: seq<Condition>)
    requires Plain(cs)
    ensures ParseFilter(Serialize(cs)) == Ok(cs)
  {
    PlainSeps(cs);
  }

  lemma OursNotBlank(n: Naming, v: string)
    requires SaneNaming(n) && n.ours(v)
    ensures n.norm(v) != n.norm("")
  {
  }

  /** Each label of ours that a planned text names is enforced by it. */
  lemma PlanHidesOurs(k: Codec, row: OwnRow, wanted: seq<string>, current: string, v: string)
    requires SaneNaming(NamingOf(k)) && ShortlistLabels(NamingOf(k), wanted) && PlannableRow(NamingOf(k), row)
    requires Readable(current) && Plan(NamingOf(k), current, wanted, row).Ok?
    requires NamesIn(Plan(NamingOf(k), current, wanted, row).value, v) && IsOurs(k, v)
    ensures Hides(k, Plan(NamingOf(k), current, wanted, row).value, v)
  {
    hide PlanFrom;
    hide Lodged;
    hide Readable;
    hide EnforcesLabel;
    var n := NamingOf(k);
    PlanLodged(n, current, wanted, row);
    var cs := ParseFilter(Plan(n, current, wanted, row).value).value;
    var i :| 0 <= i < |cs| && IsExclude(cs[i]) && v in cs[i].values;
    LodgedEnforcesOurs(n, wanted, cs, i, v);
  }

  lemma RemovedNames(n: Naming, planned: string, pruned: seq<string>, v: string)
    requires Readable(planned) && NamesIn(Remove(n, planned, pruned).value, v)
    ensures NamesIn(planned, v)
  {
    hide Names;
    RemoveResult(n, planned, pruned);
    RemoveNames(n, ParseFilter(planned).value, pruned, v);
  }

  lemma SyncedText(k: Codec, row: OwnRow, wanted: seq<string>, pruned: seq<string>, current: string)
    requires SyncField(k, row, wanted, pruned, current).Planned?
    ensures var planned := Plan(NamingOf(k), current, wanted, row);
            var text := SyncField(k, row, wanted, pruned, current).text;
            && planned.Ok?
            && (if pruned == [] then text == planned.value else Remove(NamingOf(k), planned.value, pruned) == Ok(text))
  {
    hide Plan;
    hide Remove;
  }

  lemma PlanIsParsed(k: Codec, row: OwnRow, wanted: seq<string>, current: string)
    requires Plan(NamingOf(k), current, wanted, row).Ok?
    requires ParseFilter(Plan(NamingOf(k), current, wanted, row).value).Ok?
    ensures PlanOf(k, row, wanted, current) == ParseFilter(Plan(NamingOf(k), current, wanted, row).value).value
  {
  }

  lemma NothingPruned(n: Naming, v: string, pruned: seq<string>)
    ensures pruned == [] ==> !Listed(n, v, pruned)
  {
  }

  lemma SyncedHidesOurs(k: Codec, row: OwnRow, wanted: seq<string>, pruned: seq<string>, current: string, v: string)
    requires SaneNaming(NamingOf(k)) && ShortlistLabels(NamingOf(k), wanted) && PlannableRow(NamingOf(k), row)
    requires Readable(current) && SyncField(k, row, wanted, pruned, current).Planned?
    requires v in OursInText(k, SyncField(k, row, wanted, pruned, current).text)
    ensures Hides(k, SyncField(k, row, wanted, pruned, current).text, v) <==>
            (Listed(NamingOf(k), v, pruned) ==> LeftStanding(NamingOf(k), PlanOf(k, row, wanted, current), pruned, v))
  {
    hide *;
    var n, text := NamingOf(k), SyncField(k, row, wanted, pruned, current).text;
    OursAreNamed(k, text, v);
    PlanLodged(n, current, wanted, row);
    SyncedText(k, row, wanted, pruned, current);
    PlanIsParsed(k, row, wanted, current);
    var planned := Plan(n, current, wanted, row).value;
    NothingPruned(n, v, pruned);
    if pruned != [] {
      RemovedNames(n, planned, pruned, v);
    }
    PlanHidesOurs(k, row, wanted, current, v);
    if pruned != [] {
      PrunedHides(k, planned, pruned, v);
    }
  }

  lemma PrunedHides(k: Codec, planned: string, pruned: seq<string>, v: string)
    requires SaneNaming(NamingOf(k)) && Readable(planned) && IsOurs(k, v) && Hides(k, planned, v)
    ensures ParseFilter(planned).Ok? && Remove(NamingOf(k), planned, pruned).Ok?
    ensures Hides(k, Remove(NamingOf(k), planned, pruned).value, v) <==>
            (Listed(NamingOf(k), v, pruned) ==>
               LeftStanding(NamingOf(k), ParseFilter(planned).value, pruned, v))
  {
    hide EnforcesLabel;
    hide LeftStanding;
    hide Listed;
    hide IsOurs;
    hide Remove;
    hide ParseFilter;
    hide LiteralAmpersand;
    hide SaneNaming;
    hide Removed;
    var n := NamingOf(k);
    RemoveResult(n, planned, pruned);
    OursNotBlank(n, v);
    var cs := ParseFilter(planned).value;
    if Listed(n, v, pruned) {
      RemovedStaysHidden(n, cs, pruned, v);
      ReadBackEnforces(n, Removed(n, cs, pruned), v);
    } else {
      RemoveKeepsEnforced(n, planned, pruned, v);
    }
  }

  /** What a sync writes, stored as it is, passes the read-back if and only if every pruned label it still names is one
      it still enforces: one left in a clause that could not go, with no `|` behind it any more. */
  lemma WrittenKeepsItself(k: Codec, row: OwnRow, wanted: seq<string>, pruned: seq<string>, current: string)
    requires SaneNaming(NamingOf(k)) && ShortlistLabels(NamingOf(k), wanted) && PlannableRow(NamingOf(k), row)
    requires Readable(current) && SyncField(k, row, wanted, pruned, current).Planned?
    ensures var text := SyncField(k, row, wanted, pruned, current).text;
            FieldKept(k, text, text) <==>
            forall v :: v in OursInText(k, text) && Listed(NamingOf(k), v, pruned) ==>
              LeftStanding(NamingOf(k), PlanOf(k, row, wanted, current), pruned, v)
  {
    hide SyncField;
    hide LeftStanding;
    hide Hides;
    hide OursInText;
    hide ShortlistLabels;
    hide SaneNaming;
    hide PlannableRow;
    hide PlanOf;
    var text := SyncField(k, row, wanted, pruned, current).text;
    forall v | v in OursInText(k, text)
      ensures Hides(k, text, v) <==>
              (Listed(NamingOf(k), v, pruned) ==>
                 LeftStanding(NamingOf(k), PlanOf(k, row, wanted, current), pruned, v))
    {
      SyncedHidesOurs(k, row, wanted, pruned, current, v);
    }
  }

  // ----- one account more -----

  /** What was written so far is what plex.tv holds, as far as the read-back will ask. */
  ghost predicate OnCourse(env: Env, s: State) {
    && s.phase.Syncing? && !s.failed
    && forall account, field: Field :: WroteField(s, account, field) ==>
         account in s.filters
         && FieldKept(env.codec, s.written[account].At(field).value, s.filters[account].At(field))
  }

  /** Both fields parse, and what a sync would write to them passes its own check. */
  ghost predicate Syncable(env: Env, s: State, account: int)
    requires account in s.roster
  {
    && (forall field: Field :: ParseFilter(s.roster[account].filters.At(field)).Ok?)
    && forall wanted, pruned, field: Field ::
         ListsFor(env, s, account, wanted, pruned) && Rewritten(env, s, account, wanted, pruned, field) ==>
           var text := Outcome(env, s, account, wanted, pruned).At(field).text;
           FieldKept(env.codec, text, text)
  }

  ghost predicate AllSyncable(env: Env, s: State) {
    forall account :: account in s.pending && !Unwatched(env, s, account) ==> Syncable(env, s, account)
  }

  /** Nothing that decides what is written has changed. */
  ghost predicate SameBasis(s: State, t: State) {
    && t.stored == s.stored && t.known == s.known && t.marked == s.marked && t.roster == s.roster
    && t.rows == s.rows && t.refused == s.refused && t.promoted == s.promoted
  }

  lemma SameBasisSyncable(env: Env, s: State, t: State)
    requires SameBasis(s, t) && t.pending <= s.pending && AllSyncable(env, s)
    ensures AllSyncable(env, t)
  {
    hide SyncAccount;
    hide FieldKept;
    hide ParseFilter;
    forall account | account in t.pending && !Unwatched(env, t, account)
      ensures Syncable(env, t, account)
    {
      assert Syncable(env, s, account);
      SameBasisAccount(env, s, t, account);
    }
  }

  lemma SameBasisAccount(env: Env, s: State, t: State, account: int)
    requires SameBasis(s, t) && account in s.roster && Syncable(env, s, account)
    ensures Syncable(env, t, account)
  {
    hide SyncAccount;
    hide FieldKept;
    hide ParseFilter;
    hide Lists;
    hide ListsPrunable;
    forall wanted, pruned, field: Field |
      ListsFor(env, t, account, wanted, pruned) && Rewritten(env, t, account, wanted, pruned, field)
      ensures var text := Outcome(env, t, account, wanted, pruned).At(field).text;
              FieldKept(env.codec, text, text)
    {
      assert EvidenceFor(env, t, account) == EvidenceFor(env, s, account);
      assert Outcome(env, t, account, wanted, pruned) == Outcome(env, s, account, wanted, pruned);
      assert ListsFor(env, s, account, wanted, pruned) && Rewritten(env, s, account, wanted, pruned, field);
    }
  }

  lemma ListsExist(env: Env, s: State, account: int) returns (wanted: seq<string>, pruned: seq<string>)
    ensures ListsFor(env, s, account, wanted, pruned)
  {
    hide ParseFilter;
    hide MayPrune;
    hide OursIn;
    hide EvidenceFor;
    hide WantedBy;
    var e := EvidenceFor(env, s, account);
    wanted := Listing(WantedBy(env.codec, e));
    pruned := [];
    if account in s.roster && ParseFilter(s.roster[account].filters.movies).Ok?
       && ParseFilter(s.roster[account].filters.television).Ok? {
      var ours := OursIn(env.codec, ParseFilter(s.roster[account].filters.movies).value)
                  + OursIn(env.codec, ParseFilter(s.roster[account].filters.television).value);
      pruned := Listing(set lbl | lbl in ours && MayPrune(env.codec, e, lbl));
    }
  }

  /** The fields as plex.tv holds them once it has stored a write as it was given. */
  function StoredAs(expected: Expected, before: Filters): Filters {
    Filters(if expected.movies.Some? then expected.movies.value else before.movies,
            if expected.television.Some? then expected.television.value else before.television)
  }

  lemma StoredAsKeeps(expected: Expected, before: Filters)
    ensures KeepsOther(expected, before, StoredAs(expected, before))
    ensures forall field: Field :: expected.At(field).Some? ==>
              StoredAs(expected, before).At(field) == expected.At(field).value
  {
  }

  lemma ChangedIsRewritten(env: Env, s: State, account: int, wanted: seq<string>, pruned: seq<string>, field: Field)
    requires account in s.roster && Outcome(env, s, account, wanted, pruned).Synced?
    ensures var outcome := Outcome(env, s, account, wanted, pruned);
            var change := Changes(outcome, s.roster[account].filters).At(field);
            && (change.Some? <==> Rewritten(env, s, account, wanted, pruned, field))
            && (change.Some? ==> outcome.At(field).Planned? && change.value == outcome.At(field).text)
  {
    hide Outcome;
  }

  lemma WriteStaysOnCourse(env: Env, s: State, account: int, wanted: seq<string>, pruned: seq<string>)
    requires Inv(env, s) && OnCourse(env, s) && account in s.pending && account in s.roster
    requires Syncable(env, s, account) && ListsFor(env, s, account, wanted, pruned)
    requires Outcome(env, s, account, wanted, pruned).Synced?
    ensures var expected := Changes(Outcome(env, s, account, wanted, pruned), s.roster[account].filters);
            var after := StoredAs(expected, s.roster[account].filters);
            OnCourse(env, s.(pending := s.pending - {account}, filters := s.filters[account := after],
                             written := s.written[account := expected]))
  {
    hide Outcome;
    hide Changes;
    hide FieldKept;
    hide ListsFor;
    hide Rewritten;
    hide ParseFilter;
    hide Inv;
    var expected := Changes(Outcome(env, s, account, wanted, pruned), s.roster[account].filters);
    var after := StoredAs(expected, s.roster[account].filters);
    StoredAsKeeps(expected, s.roster[account].filters);
    var t := s.(pending := s.pending - {account}, filters := s.filters[account := after],
                written := s.written[account := expected]);
    forall other, field: Field | WroteField(t, other, field)
      ensures other in t.filters
      ensures FieldKept(env.codec, t.written[other].At(field).value, t.filters[other].At(field))
    {
      if other == account {
        ChangedIsRewritten(env, s, account, wanted, pruned, field);
      } else {
        assert WroteField(s, other, field);
      }
    }
  }

  lemma WrittenStep(env: Env, s: State, account: int, wanted: seq<string>, pruned: seq<string>)
    requires s.phase.Syncing? && account in s.pending && !Unwatched(env, s, account)
    requires ListsFor(env, s, account, wanted, pruned) && Outcome(env, s, account, wanted, pruned).Synced?
    ensures var expected := Changes(Outcome(env, s, account, wanted, pruned), s.roster[account].filters);
            var after := StoredAs(expected, s.roster[account].filters);
            Step(env, s, SyncOne(account, wanted, pruned, Stored(after)),
                 if Untouched(expected) then s.(pending := s.pending - {account})
                 else s.(pending := s.pending - {account}, filters := s.filters[account := after],
                         written := s.written[account := expected]))
  {
    hide Outcome;
    hide Changes;
    hide ListsFor;
    hide Untouched;
    hide KeepsOther;
    var expected := Changes(Outcome(env, s, account, wanted, pruned), s.roster[account].filters);
    StoredAsKeeps(expected, s.roster[account].filters);
  }

  lemma StandStep(env: Env, s: State, account: int, wanted: seq<string>, pruned: seq<string>)
    requires s.phase.Syncing? && account in s.pending && Unwatched(env, s, account)
    requires ListsFor(env, s, account, wanted, pruned)
    ensures Step(env, s, SyncOne(account, wanted, pruned, Refused), s.(pending := s.pending - {account}))
  {
    hide Outcome;
    hide ListsFor;
    if account !in env.unmanaged {
      WatchedIsSynced(env, s, account);
      SkippedUnwatched(env, s, account, wanted, pruned);
    }
  }

  lemma PendingShrinks(env: Env, s: State, account: int)
    requires OnCourse(env, s)
    ensures OnCourse(env, s.(pending := s.pending - {account}))
  {
    hide FieldKept;
    var t := s.(pending := s.pending - {account});
    assert forall other, field: Field :: WroteField(t, other, field) ==> WroteField(s, other, field);
  }

  /** An account more can be synced, plex.tv storing what it is given. */
  lemma SyncsOneMore(env: Env, s: State, account: int) returns (ev: Event, t: State)
    requires GoodEnv(env) && Inv(env, s) && OnCourse(env, s) && AllSyncable(env, s) && account in s.pending
    ensures Step(env, s, ev, t) && OnCourse(env, t) && AllSyncable(env, t)
    ensures SameBasis(s, t) && t.pending == s.pending - {account}
  {
    hide GoodEnv;
    hide Inv;
    hide Step;
    hide ListsFor;
    hide Outcome;
    hide Changes;
    hide Syncable;
    hide FieldKept;
    hide WroteField;
    hide ParseFilter;
    hide StoredAs;
    hide FiledLabels;
    hide Untouched;
    hide Unwatched;
    InvFiles(env, s);
    var wanted, pruned := ListsExist(env, s, account);
    PendingShrinks(env, s, account);
    if Unwatched(env, s, account) {
      ev, t := SyncOne(account, wanted, pruned, Refused), s.(pending := s.pending - {account});
      StandStep(env, s, account, wanted, pruned);
    } else {
      WatchedInRoster(env, s, account);
      RaisesWhereUnparsed(env, s, account, wanted, pruned);
      SyncableParses(env, s, account);
      WrittenStep(env, s, account, wanted, pruned);
      var expected := Changes(Outcome(env, s, account, wanted, pruned), s.roster[account].filters);
      var after := StoredAs(expected, s.roster[account].filters);
      ev := SyncOne(account, wanted, pruned, Stored(after));
      if Untouched(expected) {
        t := s.(pending := s.pending - {account});
      } else {
        t := s.(pending := s.pending - {account}, filters := s.filters[account := after],
                written := s.written[account := expected]);
        WriteStaysOnCourse(env, s, account, wanted, pruned);
      }
    }
    SameBasisSyncable(env, s, t);
  }

  lemma WatchedInRoster(env: Env, s: State, account: int)
    requires !Unwatched(env, s, account)
    ensures account in s.roster
  {
  }

  lemma SyncableParses(env: Env, s: State, account: int)
    requires account in s.roster && Syncable(env, s, account)
    ensures forall field: Field :: ParseFilter(s.roster[account].filters.At(field)).Ok?
  {
  }

  // ----- the rest of the run -----

  lemma RunOn(env: Env, states: seq<State>, events: seq<Event>, ev: Event, t: State)
    requires IsRun(env, states, events) && Step(env, states[|events|], ev, t)
    ensures IsRun(env, states + [t], events + [ev])
  {
    hide Step;
    hide Initial;
    var more, evs := states + [t], events + [ev];
    forall i | 0 <= i < |evs|
      ensures Step(env, more[i], evs[i], more[i + 1])
    {
      if i < |events| {
        assert more[i] == states[i] && more[i + 1] == states[i + 1] && evs[i] == events[i];
      }
    }
  }

  lemma AnyOf<T>(xs: set<T>) returns (x: T)
    requires xs != {}
    ensures x in xs
  {
    x :| x in xs;
  }

  lemma NoneLeft(keys: set<int>, all: set<int>)
    requires keys <= all && all - keys == {}
    ensures keys == all
  {
    assert forall key :: key in all ==> key !in all - keys;
  }

  ghost predicate Continues(env: Env, states: seq<State>, events: seq<Event>, states': seq<State>, events': seq<Event>)
  {
    IsRun(env, states, events) && IsRun(env, states', events') && states <= states' && events <= events'
  }

  lemma ContinuesOn(env: Env, states: seq<State>, events: seq<Event>, ev: Event, t: State)
    requires IsRun(env, states, events) && Step(env, states[|events|], ev, t)
    ensures Continues(env, states, events, states + [t], events + [ev])
    ensures (states + [t])[|events + [ev]|] == t
  {
    hide Step;
    RunOn(env, states, events, ev, t);
  }

  lemma {:induction false} SyncsAll(env: Env, states: seq<State>, events: seq<Event>)
    returns (states': seq<State>, events': seq<Event>)
    requires GoodEnv(env) && IsRun(env, states, events)
    requires OnCourse(env, states[|events|]) && AllSyncable(env, states[|events|])
    ensures Continues(env, states, events, states', events')
    ensures var s, t := states[|events|], states'[|events'|];
            OnCourse(env, t) && SameBasis(s, t) && t.pending == {}
    decreases |states[|events|].pending|
  {
    hide GoodEnv;
    hide Step;
    hide Initial;
    hide Inv;
    hide OnCourse;
    hide AllSyncable;
    var s := states[|events|];
    if s.pending != {} {
      var account := AnyOf(s.pending);
      RunKeepsInv(env, states, events, |events|);
      var ev, t := SyncsOneMore(env, s, account);
      ContinuesOn(env, states, events, ev, t);
      states', events' := SyncsAll(env, states + [t], events + [ev]);
    } else {
      states', events' := states, events;
    }
  }

  lemma ReadsBack(env: Env, s: State)
    requires OnCourse(env, s) && s.pending == {}
    ensures var v := s.(phase := Verifying);
            Step(env, s, AllSynced, v) && Step(env, v, ReadBack(s.filters), v.(phase := Promoting))
  {
    hide FieldKept;
    var v := s.(phase := Verifying);
    forall account, field: Field | WroteField(v, account, field)
      ensures FieldKept(env.codec, v.written[account].At(field).value, RereadField(s.filters, account, field))
    {
      assert WroteField(s, account, field);
    }
    assert AllKept(env, v, s.filters);
    assert v.(phase := Promoting, failed := false) == v.(phase := Promoting);
  }

  /** These rows are on Home, and nothing else about the rows has changed. */
  ghost predicate Shown(s: State, t: State, keys: set<int>) {
    && t.rows.Keys == s.rows.Keys && keys <= t.promoted
    && forall key :: key in s.rows ==>
         t.rows[key] == if key in keys then s.rows[key].(promoted := true) else s.rows[key]
  }

  lemma {:induction false} ShowsAll(env: Env, states: seq<State>, events: seq<Event>, first: State, keys: set<int>)
    returns (states': seq<State>, events': seq<Event>)
    requires IsRun(env, states, events) && states[|events|].phase.Promoting?
    requires keys <= first.rows.Keys && Shown(first, states[|events|], keys)
    ensures Continues(env, states, events, states', events')
    ensures var s, t := states[|events|], states'[|events'|];
            && t.phase.Promoting? && Shown(first, t, first.rows.Keys) && t.filters == s.filters && SameView(s, t)
    decreases first.rows.Keys - keys
  {
    hide Initial;
    hide Step;
    var s := states[|events|];
    if first.rows.Keys - keys != {} {
      var key := AnyOf(first.rows.Keys - keys);
      var t := s.(rows := s.rows[key := s.rows[key].(promoted := true)], promoted := s.promoted + {key});
      PromoteStep(env, s, key);
      ContinuesOn(env, states, events, Promote(key), t);
      states', events' := ShowsAll(env, states + [t], events + [Promote(key)], first, keys + {key});
    } else {
      NoneLeft(keys, first.rows.Keys);
      states', events' := states, events;
    }
  }

  lemma PromoteStep(env: Env, s: State, key: int)
    requires s.phase.Promoting? && key in s.rows
    ensures Step(env, s, Promote(key),
                 s.(rows := s.rows[key := s.rows[key].(promoted := true)], promoted := s.promoted + {key}))
  {
  }

  /** A run in which nothing stands against promotion, whatever its roster, can go on to put every row on Home: it takes
      plex.tv storing each write as given, and for the accounts still to sync, fields that parse and writes that pass
      their own check. Fields Plex cannot read do not matter. */
  lemma UnblockedRunsPromote(env: Env, states: seq<State>, events: seq<Event>)
    returns (states': seq<State>, events': seq<Event>)
    requires GoodEnv(env) && IsRun(env, states, events)
    requires OnCourse(env, states[|events|]) && AllSyncable(env, states[|events|])
    ensures Continues(env, states, events, states', events')
    ensures var s, t := states[|events|], states'[|events'|];
            && t.phase.Promoting? && t.rows.Keys == s.rows.Keys == t.promoted * s.rows.Keys
            && (forall key :: key in s.rows ==> t.rows[key] == Row(s.rows[key].lbl, true))
            && t.roster == s.roster && t.refused == s.refused && t.stored == s.stored
  {
    hide GoodEnv;
    hide Step;
    hide Initial;
    hide OnCourse;
    hide AllSyncable;
    var s := states[|events|];
    var synced, evs := SyncsAll(env, states, events);
    var x := synced[|evs|];
    ReadsBack(env, x);
    var v := x.(phase := Verifying);
    var p := v.(phase := Promoting);
    ContinuesOn(env, synced, evs, AllSynced, v);
    ContinuesOn(env, synced + [v], evs + [AllSynced], ReadBack(x.filters), p);
    states', events' := ShowsAll(env, synced + [v] + [p], evs + [AllSynced] + [ReadBack(x.filters)], p, {});
  }
}
