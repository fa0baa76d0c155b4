/** What a promotion does not establish: a run that promotes goes just the same when plex.tv has kept less of a filter
    than was written, as long as the read-back finds every exclude it recognises. */
module RunReplay {
  import opened Options
  import opened MergeTheorems
  import opened SharePlan
  import opened SyncPrune
  import opened AccountSync
  import opened FilterReadBack
  import opened RunProtocol
  import opened RunSafety

  function WithText(filters: Filters, field: Field, text: string): Filters {
    if field.Movies? then filters.(movies := text) else filters.(television := text)
  }

  /** The same state, with this text in the account's field on plex.tv. */
  function Altered(s: State, account: int, field: Field, text: string): State {
    if account in s.filters then s.(filters := s.filters[account := WithText(s.filters[account], field, text)]) else s
  }

  /** The same event, where plex.tv stored this text and answers with it. */
  function AlteredEvent(ev: Event, account: int, field: Field, text: string): Event {
    if ev.SyncOne? && ev.account == account && ev.answer.Stored? then
      ev.(answer := Stored(WithText(ev.answer.filters, field, text)))
    else if ev.ReadBack? && account in ev.reread then
      ev.(reread := ev.reread[account := WithText(ev.reread[account], field, text)])
    else ev
  }

  function ReplayState(s: State, account: int, field: Field, text: string): State {
    if WroteField(s, account, field) then Altered(s, account, field, text) else s
  }

  // ----- what was written stays written -----

  /** Only a sync writes; and once anything is written, only a sync changes a filter. */
  lemma EarlyStepWritesNothing(env: Env, s: State, ev: Event, t: State)
    requires InStep(s) && NextBefore(env, s, ev) == Some(t)
    ensures t.written == s.written == map[]
  {
    hide RowLabel;
    hide FiledLabel;
    hide FiledLabels;
    hide HoldsLabel;
  }

  lemma LaterStepWritesNothing(env: Env, s: State, ev: Event, t: State)
    requires NextAfter(env, s, ev) == Some(t) && !ev.SyncOne?
    ensures t.written == s.written && t.filters == s.filters && !s.phase.Delivering?
  {
    hide AllKept;
    hide ListsFor;
  }

  lemma OtherStepsWriteNothing(env: Env, s: State, ev: Event, t: State)
    requires InStep(s) && Step(env, s, ev, t) && !ev.SyncOne?
    ensures t.written == s.written && (s.written != map[] ==> t.filters == s.filters && !s.phase.Delivering?)
  {
    hide NextBefore;
    hide NextAfter;
    if NextBefore(env, s, ev) == Some(t) {
      EarlyStepWritesNothing(env, s, ev, t);
    } else {
      LaterStepWritesNothing(env, s, ev, t);
    }
  }

  lemma SyncStepIs(env: Env, s: State, ev: Event, t: State)
    requires Step(env, s, ev, t) && ev.SyncOne?
    ensures s.phase.Syncing? && ev.account in s.pending
    ensures ListsFor(env, s, ev.account, ev.wanted, ev.pruned)
    ensures NextSync(env, s, ev.account, ev.wanted, ev.pruned, ev.answer) == Some(t)
  {
    hide NextSync;
    hide ListsFor;
  }

  lemma WrittenStays(env: Env, s: State, ev: Event, t: State, account: int, field: Field)
    requires InStep(s) && Step(env, s, ev, t) && WroteField(s, account, field)
    ensures account in t.written && t.written[account] == s.written[account]
    ensures s.phase.Syncing? ==> account !in s.pending
  {
    hide NextSync;
    hide ListsFor;
    hide Step;
    if ev.SyncOne? {
      SyncStepIs(env, s, ev, t);
      SyncStepFrame(env, s, ev.account, ev.wanted, ev.pruned, ev.answer, t);
    } else {
      OtherStepsWriteNothing(env, s, ev, t);
    }
  }

  lemma WriteWasStored(env: Env, s: State, account: int, outcome: SyncOutcome, answer: Answer, t: State)
    requires AfterSync(env, s, account, outcome, answer) == Some(t)
    ensures t.written != s.written ==> answer.Stored? && account in s.roster
  {
    hide KeepsOther;
    hide RefusalExplained;
  }

  /** A field comes to be written only by a sync of its account that plex.tv says it stored. */
  lemma FirstWritten(env: Env, s: State, ev: Event, t: State, account: int, field: Field)
    requires InStep(s) && Step(env, s, ev, t) && !WroteField(s, account, field) && WroteField(t, account, field)
    ensures ev.SyncOne? && ev.account == account && ev.answer.Stored? && account in s.roster && account in s.filters
    ensures account !in s.written && account !in env.unmanaged
  {
    hide Outcome;
    hide ListsFor;
    hide Step;
    hide AfterSync;
    if ev.SyncOne? {
      SyncStepIs(env, s, ev, t);
      SyncStepFrame(env, s, ev.account, ev.wanted, ev.pruned, ev.answer, t);
      if ev.account !in env.unmanaged {
        WriteWasStored(env, s.(pending := s.pending - {ev.account}), ev.account,
                       Outcome(env, s, ev.account, ev.wanted, ev.pruned), ev.answer, t);
      }
    } else {
      OtherStepsWriteNothing(env, s, ev, t);
    }
  }

  // ----- each step goes the same -----

  lemma WriteReplays(env: Env, s: State, account: int, outcome: SyncOutcome, filters: Filters, t: State, field: Field,
                     text: string)
    requires AfterSync(env, s, account, outcome, Stored(filters)) == Some(t) && !WroteField(s, account, field)
    requires WroteField(t, account, field)
    ensures AfterSync(env, s, account, outcome, Stored(WithText(filters, field, text))) ==
            Some(Altered(t, account, field, text))
  {
    var after := WithText(filters, field, text);
    var expected := Changes(outcome, s.roster[account].filters);
    assert s.filters[account := filters][account := after] == s.filters[account := after];
    assert forall f: Field :: f != field ==> after.At(f) == filters.At(f);
    assert expected.At(field).Some?;
  }

  lemma FirstWriteReplays(env: Env, s: State, ev: Event, t: State, account: int, field: Field, text: string)
    requires InStep(s) && Step(env, s, ev, t) && !WroteField(s, account, field) && WroteField(t, account, field)
    ensures Step(env, s, AlteredEvent(ev, account, field, text), Altered(t, account, field, text))
  {
    hide Outcome;
    hide AfterSync;
    hide ListsFor;
    FirstWritten(env, s, ev, t, account, field);
    WriteReplays(env, s.(pending := s.pending - {account}), account,
                 Outcome(env, s, account, ev.wanted, ev.pruned), ev.answer.filters, t, field, text);
  }

  /** What a sync works from is not the filters plex.tv holds. */
  lemma SameOutcome(env: Env, s: State, other: int, wanted: seq<string>, pruned: seq<string>, account: int,
                    field: Field, text: string)
    ensures var a := Altered(s, account, field, text);
            && Outcome(env, a, other, wanted, pruned) == Outcome(env, s, other, wanted, pruned)
            && (ListsFor(env, a, other, wanted, pruned) <==> ListsFor(env, s, other, wanted, pruned))
  {
    hide SyncAccount;
    var a := Altered(s, account, field, text);
    assert EvidenceFor(env, a, other) == EvidenceFor(env, s, other);
    assert RosterEntry(a, other) == RosterEntry(s, other);
  }

  lemma OtherWriteReplays(env: Env, s: State, other: int, expected: Expected, answer: Answer, account: int,
                          field: Field, text: string)
    requires other != account && account in s.filters
    ensures AfterWrite(env, Altered(s, account, field, text), other, expected, answer) ==
            Altered(AfterWrite(env, s, other, expected, answer), account, field, text)
  {
    if !answer.Refused? {
      Swapped(s.filters, other, answer.filters, account, WithText(s.filters[account], field, text));
    }
  }

  lemma Swapped<K, V>(m: map<K, V>, a: K, x: V, b: K, y: V)
    requires a != b
    ensures m[a := x][b := y] == m[b := y][a := x]
  {
  }

  lemma OtherAfterSyncReplays(env: Env, s: State, other: int, outcome: SyncOutcome, answer: Answer, t: State,
                              account: int, field: Field, text: string)
    requires other != account && account in s.filters && AfterSync(env, s, other, outcome, answer) == Some(t)
    ensures AfterSync(env, Altered(s, account, field, text), other, outcome, answer) ==
            Some(Altered(t, account, field, text))
  {
    hide AfterWrite;
    hide KeepsOther;
    if outcome.Synced? && other in s.roster {
      OtherWriteReplays(env, s, other, Changes(outcome, s.roster[other].filters), answer, account, field, text);
    }
  }

  lemma LeavingReplays(s: State, other: int, answer: Answer, account: int, field: Field, text: string)
    requires other != account && account in s.filters
    ensures AfterLeaving(Altered(s, account, field, text), other, answer) ==
            Altered(AfterLeaving(s, other, answer), account, field, text)
  {
    if other in s.filters && !answer.Refused? {
      Swapped(s.filters, other, answer.filters, account, WithText(s.filters[account], field, text));
    }
  }

  lemma OtherSyncReplays(env: Env, s: State, other: int, wanted: seq<string>, pruned: seq<string>, answer: Answer,
                         t: State, account: int, field: Field, text: string)
    requires other != account && account in s.filters && NextSync(env, s, other, wanted, pruned, answer) == Some(t)
    ensures NextSync(env, Altered(s, account, field, text), other, wanted, pruned, answer) ==
            Some(Altered(t, account, field, text))
  {
    hide Outcome;
    hide AfterSync;
    hide AfterLeaving;
    var begun := s.(pending := s.pending - {other});
    assert Altered(begun, account, field, text) ==
           Altered(s, account, field, text).(pending := s.pending - {other});
    SameOutcome(env, s, other, wanted, pruned, account, field, text);
    if other in env.unmanaged {
      LeavingReplays(begun, other, answer, account, field, text);
    } else {
      OtherAfterSyncReplays(env, begun, other, Outcome(env, s, other, wanted, pruned), answer, t, account, field, text);
    }
  }

  lemma ReadBackReplays(env: Env, s: State, reread: map<int, Filters>, t: State, account: int, field: Field,
                        text: string)
    requires account in s.filters && !t.failed && NextAfter(env, s, ReadBack(reread)) == Some(t)
    requires WroteField(s, account, field) && FieldKept(env.codec, s.written[account].At(field).value, text)
    ensures NextAfter(env, Altered(s, account, field, text), AlteredEvent(ReadBack(reread), account, field, text)) ==
            Some(Altered(t, account, field, text))
  {
    hide FieldKept;
    var a := Altered(s, account, field, text);
    var ev := AlteredEvent(ReadBack(reread), account, field, text);
    forall other, f: Field | WroteField(a, other, f)
      ensures FieldKept(env.codec, a.written[other].At(f).value, RereadField(ev.reread, other, f))
    {
      assert WroteField(s, other, f);
      assert FieldKept(env.codec, s.written[other].At(f).value, RereadField(reread, other, f));
    }
    assert AllKept(env, a, ev.reread);
  }

  /** What comes after the filters are written pays them no heed, but for the read-back. */
  lemma LateStepReplays(env: Env, s: State, ev: Event, t: State, account: int, field: Field, text: string)
    requires InStep(s) && NextAfter(env, s, ev) == Some(t) && WroteField(s, account, field) && account in s.filters
    requires !ev.SyncOne? && !ev.ReadBack?
    ensures NextAfter(env, Altered(s, account, field, text), ev) == Some(Altered(t, account, field, text))
  {
    hide NextSync;
    hide AllKept;
    hide ListsFor;
  }

  lemma LaterStepReplays(env: Env, s: State, ev: Event, t: State, account: int, field: Field, text: string)
    requires InStep(s) && Step(env, s, ev, t) && WroteField(s, account, field) && account in s.filters && !t.failed
    requires FieldKept(env.codec, s.written[account].At(field).value, text)
    ensures Step(env, Altered(s, account, field, text), AlteredEvent(ev, account, field, text),
                 Altered(t, account, field, text))
  {
    hide NextSync;
    hide NextBefore;
    hide FieldKept;
    hide AllKept;
    hide ListsFor;
    if NextBefore(env, s, ev) == Some(t) {
      EarlyStepWritesNothing(env, s, ev, t);
    } else if ev.SyncOne? {
      WrittenStays(env, s, ev, t, account, field);
      OtherSyncReplays(env, s, ev.account, ev.wanted, ev.pruned, ev.answer, t, account, field, text);
      SameOutcome(env, s, ev.account, ev.wanted, ev.pruned, account, field, text);
    } else if ev.ReadBack? {
      ReadBackReplays(env, s, ev.reread, t, account, field, text);
    } else {
      LateStepReplays(env, s, ev, t, account, field, text);
    }
  }

  // ----- whole runs -----

  /** What was written is a filter Plex can read, of an account that has filters. */
  ghost predicate WrittenGood(s: State) {
    forall account, field: Field :: WroteField(s, account, field) ==>
      account in s.filters && Readable(s.written[account].At(field).value)
  }

  lemma GoodEnvIsSane(env: Env)
    requires GoodEnv(env)
    ensures SaneNaming(NamingOf(env.codec))
  {
  }

  lemma SyncWritesReadable(env: Env, s: State, ev: Event, t: State, account: int, field: Field)
    requires GoodEnv(env) && Inv(env, s) && Step(env, s, ev, t)
    requires !WroteField(s, account, field) && WroteField(t, account, field)
    ensures Readable(t.written[account].At(field).value) && account in s.filters
  {
    hide GoodEnv;
    hide AfterSync;
    hide SyncField;
    hide SyncAccount;
    hide Readable;
    hide EvidenceFor;
    hide RowToAdmit;
    FirstWritten(env, s, ev, t, account, field);
    var k, e, row := env.codec, EvidenceFor(env, s, account), RowLabelOf(env, account);
    var outcome := Outcome(env, s, account, ev.wanted, ev.pruned);
    WrittenIsPlanned(env, s.(pending := s.pending - {account}), account, outcome, ev.answer, t, field);
    WantedAreShortlist(env, s, account, ev.wanted);
    RowPlannable(env, s, account);
    SyncedField(k, account in env.owners, RosterEntry(s, account), e, row, ev.wanted, ev.pruned, field);
    GoodEnvIsSane(env);
    PlannedReadable(k, RowToAdmit(e, row, k.prefix), ev.wanted, ev.pruned, s.roster[account].filters.At(field));
  }

  lemma FiltersStay(env: Env, s: State, ev: Event, t: State, account: int, field: Field)
    requires InStep(s) && Step(env, s, ev, t) && (WroteField(s, account, field) || WroteField(t, account, field))
    ensures t.filters.Keys == s.filters.Keys
  {
    hide NextSync;
    hide ListsFor;
    hide Step;
    if ev.SyncOne? {
      SyncStepIs(env, s, ev, t);
      SyncStepFrame(env, s, ev.account, ev.wanted, ev.pruned, ev.answer, t);
    } else {
      OtherStepsWriteNothing(env, s, ev, t);
    }
  }

  lemma StepKeepsWritten(env: Env, s: State, ev: Event, t: State)
    requires GoodEnv(env) && Inv(env, s) && Step(env, s, ev, t) && WrittenGood(s)
    ensures WrittenGood(t)
  {
    hide GoodEnv;
    hide Step;
    hide Readable;
    hide LabelsGood;
    hide KnowsRows;
    hide AllSettled;
    hide AllSpelt;
    hide PromotesOnlyHidden;
    hide InStep;
    forall account, field: Field | WroteField(t, account, field)
      ensures account in t.filters && Readable(t.written[account].At(field).value)
    {
      FiltersStay(env, s, ev, t, account, field);
      if WroteField(s, account, field) {
        WrittenStays(env, s, ev, t, account, field);
      } else {
        SyncWritesReadable(env, s, ev, t, account, field);
      }
    }
  }

  lemma {:induction false} RunKeepsWritten(env: Env, states: seq<State>, events: seq<Event>, i: nat)
    requires GoodEnv(env) && IsRun(env, states, events) && i < |states|
    ensures WrittenGood(states[i])
  {
    hide GoodEnv;
    hide Step;
    hide Inv;
    if i > 0 {
      RunKeepsWritten(env, states, events, i - 1);
      RunKeepsInv(env, states, events, i - 1);
      StepKeepsWritten(env, states[i - 1], events[i - 1], states[i]);
    }
  }

  lemma AfterSyncKeepsFailed(env: Env, s: State, account: int, outcome: SyncOutcome, answer: Answer, t: State)
    requires AfterSync(env, s, account, outcome, answer) == Some(t) && s.failed
    ensures t.failed
  {
    hide KeepsOther;
    hide RefusalExplained;
  }

  lemma EarlyStepKeepsFailed(env: Env, s: State, ev: Event, t: State)
    requires NextBefore(env, s, ev) == Some(t) && s.failed
    ensures t.failed
  {
    hide RowLabel;
    hide FiledLabel;
    hide FiledLabels;
    hide HoldsLabel;
  }

  lemma LateStepKeepsFailed(env: Env, s: State, ev: Event, t: State)
    requires NextAfter(env, s, ev) == Some(t) && s.failed && !ev.SyncOne?
    ensures t.failed
  {
    hide AllKept;
    hide NextSync;
    hide ListsFor;
  }

  lemma StepKeepsFailed(env: Env, s: State, ev: Event, t: State)
    requires Step(env, s, ev, t) && s.failed
    ensures t.failed
  {
    hide Outcome;
    hide ListsFor;
    hide AfterSync;
    hide NextBefore;
    hide NextAfter;
    if NextBefore(env, s, ev) == Some(t) {
      EarlyStepKeepsFailed(env, s, ev, t);
    } else if ev.SyncOne? {
      SyncStepIs(env, s, ev, t);
      if ev.account !in env.unmanaged {
        AfterSyncKeepsFailed(env, s.(pending := s.pending - {ev.account}), ev.account,
                             Outcome(env, s, ev.account, ev.wanted, ev.pruned), ev.answer, t);
      }
    } else {
      LateStepKeepsFailed(env, s, ev, t);
    }
  }

  /** In a run that has not failed by its end, what was written at some point is still what was written at the end. */
  lemma {:induction false} WrittenToTheEnd(env: Env, states: seq<State>, events: seq<Event>, i: nat, account: int,
                                           field: Field)
    requires GoodEnv(env) && IsRun(env, states, events) && i <= |events| && !states[|events|].failed
    ensures !states[i].failed
    ensures WroteField(states[i], account, field) ==>
              account in states[|events|].written && states[|events|].written[account] == states[i].written[account]
    decreases |events| - i
  {
    hide GoodEnv;
    hide Step;
    if i < |events| {
      WrittenToTheEnd(env, states, events, i + 1, account, field);
      RunKeepsInv(env, states, events, i);
      if states[i].failed {
        StepKeepsFailed(env, states[i], events[i], states[i + 1]);
      }
      if WroteField(states[i], account, field) {
        WrittenStays(env, states[i], events[i], states[i + 1], account, field);
      }
    }
  }

  function ReplayedStates(states: seq<State>, account: int, field: Field, text: string): (replayed: seq<State>)
    ensures |replayed| == |states|
    ensures forall i :: 0 <= i < |states| ==> replayed[i] == ReplayState(states[i], account, field, text)
  {
    seq(|states|, i requires 0 <= i < |states| => ReplayState(states[i], account, field, text))
  }

  function ReplayedEvents(states: seq<State>, events: seq<Event>, account: int, field: Field, text: string)
    : (replayed: seq<Event>)
    requires |states| == |events| + 1
    ensures |replayed| == |events|
    ensures forall i :: 0 <= i < |events| ==>
              replayed[i] == if WroteField(states[i + 1], account, field)
                             then AlteredEvent(events[i], account, field, text) else events[i]
  {
    seq(|events|, i requires 0 <= i < |events| =>
      if WroteField(states[i + 1], account, field) then AlteredEvent(events[i], account, field, text) else events[i])
  }

  /** A run that ends without a failure replays with any text in the field that the read-back would accept. */
  lemma RunReplays(env: Env, states: seq<State>, events: seq<Event>, account: int, field: Field, text: string)
    requires GoodEnv(env) && IsRun(env, states, events) && !states[|events|].failed
    requires WroteField(states[|events|], account, field)
    requires FieldKept(env.codec, states[|events|].written[account].At(field).value, text)
    ensures IsRun(env, ReplayedStates(states, account, field, text),
                  ReplayedEvents(states, events, account, field, text))
  {
    hide GoodEnv;
    hide Step;
    hide FieldKept;
    hide Altered;
    hide AlteredEvent;
    hide WrittenGood;
    var ss := ReplayedStates(states, account, field, text);
    var es := ReplayedEvents(states, events, account, field, text);
    forall i | 0 <= i < |events|
      ensures Step(env, ss[i], es[i], ss[i + 1])
    {
      StepReplays(env, states, events, i, account, field, text);
    }
    assert !WroteField(states[0], account, field);
  }

  lemma StepReplays(env: Env, states: seq<State>, events: seq<Event>, i: nat, account: int, field: Field, text: string)
    requires GoodEnv(env) && IsRun(env, states, events) && !states[|events|].failed && i < |events|
    requires WroteField(states[|events|], account, field)
    requires FieldKept(env.codec, states[|events|].written[account].At(field).value, text)
    ensures Step(env, ReplayState(states[i], account, field, text),
                 ReplayedEvents(states, events, account, field, text)[i],
                 ReplayState(states[i + 1], account, field, text))
  {
    hide GoodEnv;
    hide Step;
    hide FieldKept;
    hide Altered;
    hide AlteredEvent;
    RunKeepsInv(env, states, events, i);
    RunKeepsWritten(env, states, events, i);
    WrittenToTheEnd(env, states, events, i, account, field);
    WrittenToTheEnd(env, states, events, i + 1, account, field);
    if WroteField(states[i], account, field) {
      WrittenStays(env, states[i], events[i], states[i + 1], account, field);
      LaterStepReplays(env, states[i], events[i], states[i + 1], account, field, text);
    } else if WroteField(states[i + 1], account, field) {
      FirstWriteReplays(env, states[i], events[i], states[i + 1], account, field, text);
    }
  }

  // ----- promotion is safe exactly where the check would notice -----

  /** Another run of as many events, ending alike in all but what plex.tv has in this field of the account's. */
  ghost predicate Alike(env: Env, states: seq<State>, events: seq<Event>, ss: seq<State>, es: seq<Event>,
                        account: int, field: Field)
    requires |states| == |events| + 1
  {
    && IsRun(env, ss, es) && |es| == |events|
    && exists text :: ss[|es|] == Altered(states[|events|], account, field, text)
  }

  /** A run that puts a person's row on Home hides it from an account that must not see it in every run that ends
      alike, whatever plex.tv has kept of the field, if and only if the check would notice the label's loss there. */
  lemma HiddenExactlyWhenConfirmable(env: Env, states: seq<State>, events: seq<Event>, key: int, account: int,
                                     field: Field)
    requires GoodEnv(env) && IsRun(env, states, events)
    requires NewlyShown(env, states, |events|, key, account, field)
    ensures Confirmable(env, states[|events|], account, field, states[|events|].rows[key].lbl) <==>
            forall ss, es :: Alike(env, states, events, ss, es, account, field) ==>
              HiddenOn(env, ss[|es|], account, field, states[|events|].rows[key].lbl)
  {
    hide GoodEnv;
    hide Step;
    hide Initial;
    hide HiddenOn;
    hide Readable;
    hide Exempt;
    hide PersonsRow;
    hide Confirmable;
    if Confirmable(env, states[|events|], account, field, states[|events|].rows[key].lbl) {
      forall ss, es | Alike(env, states, events, ss, es, account, field)
        ensures HiddenOn(env, ss[|es|], account, field, states[|events|].rows[key].lbl)
      {
        AlikeHidden(env, states, events, ss, es, key, account, field);
      }
    } else {
      var ss, es := UnconfirmableLeaks(env, states, events, key, account, field);
    }
  }

  lemma AlikeHidden(env: Env, states: seq<State>, events: seq<Event>, ss: seq<State>, es: seq<Event>, key: int,
                    account: int, field: Field)
    requires GoodEnv(env) && IsRun(env, states, events) && Alike(env, states, events, ss, es, account, field)
    requires NewlyShown(env, states, |events|, key, account, field)
    requires Confirmable(env, states[|events|], account, field, states[|events|].rows[key].lbl)
    ensures HiddenOn(env, ss[|es|], account, field, states[|events|].rows[key].lbl)
  {
    hide GoodEnv;
    hide Step;
    hide Initial;
    hide HiddenOn;
    hide Readable;
    OnlyPromotionShows(env, states, events, |events|);
    var s, t := states[|events|], ss[|es|];
    assert RosterEntry(t, account) == RosterEntry(s, account);
    PromotedRowIsHidden(env, ss, es, |es|, key, account, field);
  }

  /** Where the check would not notice, some run ends alike, with the row on Home, and shows it. */
  lemma UnconfirmableLeaks(env: Env, states: seq<State>, events: seq<Event>, key: int, account: int, field: Field)
    returns (ss: seq<State>, es: seq<Event>)
    requires GoodEnv(env) && IsRun(env, states, events)
    requires NewlyShown(env, states, |events|, key, account, field)
    requires !Confirmable(env, states[|events|], account, field, states[|events|].rows[key].lbl)
    ensures Alike(env, states, events, ss, es, account, field)
    ensures !HiddenOn(env, ss[|es|], account, field, states[|events|].rows[key].lbl)
  {
    hide Step;
    hide Initial;
    hide Readable;
    hide SpeltAsOurs;
    hide FieldKept;
    hide Hides;
    OnlyPromotionShows(env, states, events, |events|);
    RunIsOrderly(env, states, events, |events|);
    RunKeepsWritten(env, states, events, |events|);
    var s := states[|events|];
    var text := UnnoticedLoss(env.codec, s.written[account].At(field).value, s.rows[key].lbl);
    RunReplays(env, states, events, account, field, text);
    ss, es := ReplayedStates(states, account, field, text), ReplayedEvents(states, events, account, field, text);
    assert ss[|es|] == Altered(s, account, field, text);
  }
}
