/** What the model of a run leaves open: every server that deliveries can leave behind, every failure and every answer
    of plex.tv is among the runs the theorems speak of. */
module RunFreedom {
  import opened AccountSync
  import opened RunProtocol
  import opened RunCompletion

  // ----- deliveries -----

  ghost function Fresh(rows: map<int, string>): (made: map<int, Row>)
    ensures made.Keys == rows.Keys && forall key :: key in made ==> made[key] == Row(rows[key], false)
  {
    map key | key in rows :: Row(rows[key], false)
  }

  ghost predicate OtherwiseSame(s: State, t: State) {
    t == s.(rows := t.rows)
  }

  lemma {:induction false} Clears(env: Env, states: seq<State>, events: seq<Event>)
    returns (states': seq<State>, events': seq<Event>)
    requires IsRun(env, states, events) && states[|events|].phase.Delivering?
    ensures Continues(env, states, events, states', events')
    ensures states'[|events'|] == states[|events|].(rows := map[])
    decreases states[|events|].rows.Keys
  {
    hide Initial;
    hide Step;
    var s := states[|events|];
    if s.rows.Keys != {} {
      var key := AnyOf(s.rows.Keys);
      var t := s.(rows := s.rows - {key});
      DropStep(env, s, key);
      ContinuesOn(env, states, events, DropRow(key), t);
      states', events' := Clears(env, states + [t], events + [DropRow(key)]);
    } else {
      states', events' := states, events;
      NoKeys(s.rows);
    }
  }

  lemma NoKeys<T>(m: map<int, T>)
    requires m.Keys == {}
    ensures m == map[]
  {
    assert forall key :: key in m ==> key in m.Keys;
  }

  lemma DropStep(env: Env, s: State, key: int)
    requires s.phase.Delivering?
    ensures Step(env, s, DropRow(key), s.(rows := s.rows - {key}))
  {
  }

  lemma {:induction false} Creates(env: Env, states: seq<State>, events: seq<Event>, rows: map<int, string>,
                                   keys: set<int>)
    returns (states': seq<State>, events': seq<Event>)
    requires IsRun(env, states, events) && states[|events|].phase.Delivering?
    requires (forall key :: key in rows ==> RowLabel(env, rows[key])) && keys <= rows.Keys
    ensures Continues(env, states, events, states', events')
    ensures OtherwiseSame(states[|events|], states'[|events'|])
    ensures var was, now := states[|events|].rows, states'[|events'|].rows;
            && now.Keys == was.Keys + keys
            && forall key :: key in now ==> now[key] == if key in keys then Row(rows[key], false) else was[key]
    decreases keys
  {
    hide Initial;
    hide Step;
    hide RowLabel;
    var s := states[|events|];
    if keys != {} {
      var key := AnyOf(keys);
      var t := s.(rows := s.rows[key := Row(rows[key], false)]);
      CreateStep(env, s, key, rows[key]);
      ContinuesOn(env, states, events, CreateRow(key, rows[key]), t);
      states', events' := Creates(env, states + [t], events + [CreateRow(key, rows[key])], rows, keys - {key});
    } else {
      states', events' := states, events;
    }
  }

  lemma CreateStep(env: Env, s: State, key: int, lbl: string)
    requires s.phase.Delivering? && RowLabel(env, lbl)
    ensures Step(env, s, CreateRow(key, lbl), s.(rows := s.rows[key := Row(lbl, false)]))
  {
    hide RowLabel;
  }

  lemma AllFresh(made: map<int, Row>, rows: map<int, string>)
    requires made.Keys == rows.Keys && forall key :: key in made ==> made[key] == Row(rows[key], false)
    ensures made == Fresh(rows)
  {
    var all := Fresh(rows);
    assert made.Keys == all.Keys;
    assert forall key :: key in made ==> made[key] == all[key];
  }

  /** Deliveries may leave any rows of ours on the server, and the owner any filters, whatever was there before. */
  lemma AnyServer(env: Env, states: seq<State>, events: seq<Event>, rows: map<int, string>, filters: map<int, Filters>)
    returns (states': seq<State>, events': seq<Event>)
    requires IsRun(env, states, events) && states[|events|].phase.Delivering?
    requires forall key :: key in rows ==> RowLabel(env, rows[key])
    ensures Continues(env, states, events, states', events')
    ensures states'[|events'|] == states[|events|].(rows := Fresh(rows), filters := filters)
  {
    hide Initial;
    hide Step;
    hide RowLabel;
    var cleared, evs := Clears(env, states, events);
    var made, more := Creates(env, cleared, evs, rows, rows.Keys);
    var s := made[|more|];
    AllFresh(s.rows, rows);
    EditStep(env, s, filters);
    ContinuesOn(env, made, more, EditFilters(filters), s.(filters := filters));
    states', events' := made + [s.(filters := filters)], more + [EditFilters(filters)];
  }

  // ----- edits, labels, failures and answers -----

  /** Filters change freely until the roster is read, and not after. */
  lemma EditStep(env: Env, s: State, filters: map<int, Filters>)
    ensures Step(env, s, EditFilters(filters), s.(filters := filters)) <==> s.phase in {Delivering, Enumerated}
  {
  }

  /** A sweep takes any rows and ends; a delivery files a label under its slug. */
  lemma EarlySteps(env: Env, s: State, key: int, slug: string, lbl: string)
    ensures s.phase.Sweeping? ==> Step(env, s, SweepRow(key), s.(rows := s.rows - {key}))
    ensures s.phase.Sweeping? ==> Step(env, s, SweepDone, s.(phase := Delivering))
    ensures s.phase.Delivering? && FiledLabel(env, slug, lbl) ==>
              Step(env, s, StoreLabel(slug, lbl), s.(stored := s.stored[slug := lbl]))
  {
    hide FiledLabel;
  }

  /** Every read of a run may fail, the read-back's exactly where something was written. */
  lemma ReadsMayFail(env: Env, s: State)
    ensures s.phase.Sweeping? ==> Step(env, s, SweepFailed, s.(phase := Finished))
    ensures s.phase.Delivering? ==> Step(env, s, EnumerateFailed, s.(phase := Phase.Enumerated, failed := true))
    ensures s.phase.Enumerated? ==> Step(env, s, RosterFailed, s.(phase := Finished))
    ensures s.phase.Verifying? ==>
              ((exists t :: Step(env, s, ReadBackFailed, t)) <==> s.written != map[])
  {
    if s.phase.Verifying? && s.written != map[] {
      assert Step(env, s, ReadBackFailed, s.(phase := Converging, failed := true));
    }
  }

  /** plex.tv may answer the sync of any account still to do in any way, but that a write it stored leaves the field it
      did not name alone. */
  lemma AnyAnswer(env: Env, s: State, account: int, wanted: seq<string>, pruned: seq<string>, answer: Answer)
    requires s.phase.Syncing? && account in s.pending && ListsFor(env, s, account, wanted, pruned)
    requires LeftAlone(account in env.owners, RosterEntry(s, account)) || account in s.roster
    requires answer.Stored? && account in s.roster ==>
               forall field: Field :: answer.filters.At(field) == s.roster[account].filters.At(field)
                                      || (Outcome(env, s, account, wanted, pruned).Synced?
                                          && Outcome(env, s, account, wanted, pruned).At(field).Planned?
                                          && Outcome(env, s, account, wanted, pruned).At(field).text !=
                                             s.roster[account].filters.At(field))
    ensures exists t :: Step(env, s, SyncOne(account, wanted, pruned, answer), t)
  {
    hide Outcome;
    hide ListsFor;
    var u := s.(pending := s.pending - {account});
    var outcome := Outcome(env, s, account, wanted, pruned);
    if account !in env.unmanaged && outcome.Synced? && answer.Stored? && account in s.roster {
      KeepsUnchanged(outcome, s.roster[account].filters, answer.filters);
    }
    if account !in env.unmanaged && account !in s.roster {
      SkippedAlone(env, s, account, wanted, pruned);
    }
    var next := NextSync(env, s, account, wanted, pruned, answer);
    assert next.Some?;
    assert Step(env, s, SyncOne(account, wanted, pruned, answer), next.value);
  }

  lemma SkippedAlone(env: Env, s: State, account: int, wanted: seq<string>, pruned: seq<string>)
    requires LeftAlone(account in env.owners, RosterEntry(s, account))
    ensures Outcome(env, s, account, wanted, pruned).Skipped?
  {
  }

  lemma KeepsUnchanged(outcome: SyncOutcome, before: Filters, after: Filters)
    requires outcome.Synced?
    requires forall field: Field :: after.At(field) == before.At(field)
                                    || (outcome.At(field).Planned? && outcome.At(field).text != before.At(field))
    ensures KeepsOther(Changes(outcome, before), before, after)
  {
  }

  /** Once promotion is over, whatever this run did not put on Home may be taken off it or deleted, and nothing else. */
  lemma ConvergesFreely(env: Env, s: State, key: int)
    ensures (exists t :: Step(env, s, Demote(key), t)) <==> s.phase.Converging? && key in s.rows && key !in s.promoted
    ensures (exists t :: Step(env, s, DeleteOrphan(key), t)) <==> s.phase.Converging? && key !in s.promoted
    ensures s.phase.Converging? ==> Step(env, s, Finish, s.(phase := Finished))
    ensures s.phase.Promoting? ==> Step(env, s, PromotionDone, s.(phase := Converging))
  {
    if s.phase.Converging? && key !in s.promoted {
      assert Step(env, s, DeleteOrphan(key), s.(rows := s.rows - {key}));
      if key in s.rows {
        assert Step(env, s, Demote(key), s.(rows := s.rows[key := s.rows[key].(promoted := false)]));
      }
    }
  }
}
