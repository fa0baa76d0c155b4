/** What stands against promotion, event by event, and that a run reads its filters back and goes on to promote if and
    only if nothing has. A field Plex cannot read is not among it. */
module RunBlockers {
  import opened Options
  import opened ShareFilter
  import opened MergeTheorems
  import opened SyncPrune
  import opened AccountSync
  import opened FilterReadBack
  import opened RunProtocol
  import opened RunSafety

  /** An account whose filters a run has no part in. */
  ghost predicate Unwatched(env: Env, s: State, account: int) {
    || account in env.unmanaged || account in env.owners || account !in s.roster
    || (s.roster[account].restricted && s.roster[account].profile != "")
  }

  ghost predicate Rewritten(env: Env, s: State, account: int, wanted: seq<string>, pruned: seq<string>, field: Field)
    requires account in s.roster
  {
    var outcome := Outcome(env, s, account, wanted, pruned);
    outcome.Synced? && outcome.At(field).Planned? && outcome.At(field).text != s.roster[account].filters.At(field)
  }

  /** plex.tv did not take a write, for a reason other than a parental profile. */
  ghost predicate WriteLost(env: Env, s: State, account: int, answer: Answer)
    requires account in s.roster
  {
    || answer.Lost?
    || (answer.Refused? && s.roster[account].profile == ""
        && (account in env.profileKnown || !s.roster[account].restricted))
  }

  ghost predicate SyncBlocks(env: Env, s: State, account: int, wanted: seq<string>, pruned: seq<string>, answer: Answer)
  {
    && !Unwatched(env, s, account)
    && (|| (exists field: Field :: ParseFilter(s.roster[account].filters.At(field)).Err?)
        || (WriteLost(env, s, account, answer)
            && exists field: Field :: Rewritten(env, s, account, wanted, pruned, field)))
  }

  /** What came back does not enforce an exclude of ours that was written. */
  ghost predicate LosesExclude(env: Env, s: State, reread: map<int, Filters>) {
    exists account, field: Field, lbl ::
      WroteField(s, account, field) && lbl in OursInText(env.codec, s.written[account].At(field).value)
      && !Hides(env.codec, if account in reread then reread[account].At(field) else "", lbl)
  }

  ghost predicate Blocks(env: Env, s: State, ev: Event) {
    match ev
    case EnumerateFailed => true
    case Enumerate(_, marked) => marked.None?
    case SyncOne(account, wanted, pruned, answer) => SyncBlocks(env, s, account, wanted, pruned, answer)
    case ReadBack(reread) => LosesExclude(env, s, reread)
    case ReadBackFailed => true
    case _ => false
  }

  // ----- one step -----

  lemma LosesIsNotKept(env: Env, s: State, reread: map<int, Filters>)
    ensures LosesExclude(env, s, reread) <==> !AllKept(env, s, reread)
  {
    hide Hides;
    hide OursInText;
    if !AllKept(env, s, reread) {
      var account, field: Field :| WroteField(s, account, field)
        && !FieldKept(env.codec, s.written[account].At(field).value, RereadField(reread, account, field));
    }
  }

  lemma WatchedIsSynced(env: Env, s: State, account: int)
    requires account !in env.unmanaged
    ensures LeftAlone(account in env.owners, RosterEntry(s, account)) <==> Unwatched(env, s, account)
  {
  }

  lemma UntouchedIsUnwritten(env: Env, s: State, account: int, wanted: seq<string>, pruned: seq<string>)
    requires account in s.roster && Outcome(env, s, account, wanted, pruned).Synced?
    ensures Untouched(Changes(Outcome(env, s, account, wanted, pruned), s.roster[account].filters)) <==>
            forall field: Field :: !Rewritten(env, s, account, wanted, pruned, field)
  {
    hide Outcome;
    var outcome, before := Outcome(env, s, account, wanted, pruned), s.roster[account].filters;
    assert outcome.At(Movies) == outcome.movies && outcome.At(Television) == outcome.television;
    assert before.At(Movies) == before.movies && before.At(Television) == before.television;
    assert Rewritten(env, s, account, wanted, pruned, Movies) <==> Change(outcome.movies, before.movies).Some?;
    assert Rewritten(env, s, account, wanted, pruned, Television) <==>
           Change(outcome.television, before.television).Some?;
  }

  /** A sync raises only where a field does not parse. */
  lemma RaisesWhereUnparsed(env: Env, s: State, account: int, wanted: seq<string>, pruned: seq<string>)
    requires GoodEnv(env) && FiledLabels(env, s.stored) && ListsFor(env, s, account, wanted, pruned)
    requires !Unwatched(env, s, account)
    ensures var outcome := Outcome(env, s, account, wanted, pruned);
            && (outcome.Raised? || outcome.Synced?)
            && (outcome.Raised? <==> exists field: Field :: ParseFilter(s.roster[account].filters.At(field)).Err?)
  {
    hide GoodEnv;
    hide FiledLabels;
    hide ListsFor;
    hide ParseFilter;
    hide RowToAdmit;
    hide SyncField;
    GoodEnvSane(env);
    ListedAreShortlist(env, s, account, wanted, pruned);
    RowPlannable(env, s, account);
    WatchedIsSynced(env, s, account);
    SyncRaisesOnlyUnparseable(env.codec, account in env.owners, RosterEntry(s, account), EvidenceFor(env, s, account),
                              RowLabelOf(env, account), wanted, pruned);
  }

  lemma GoodEnvSane(env: Env)
    requires GoodEnv(env)
    ensures SaneNaming(NamingOf(env.codec))
  {
  }

  lemma SyncStepBlocks(env: Env, s: State, account: int, wanted: seq<string>, pruned: seq<string>, answer: Answer,
                       t: State)
    requires GoodEnv(env) && FiledLabels(env, s.stored) && ListsFor(env, s, account, wanted, pruned)
    requires NextSync(env, s, account, wanted, pruned, answer) == Some(t)
    ensures t.failed <==> s.failed || SyncBlocks(env, s, account, wanted, pruned, answer)
  {
    hide GoodEnv;
    hide FiledLabels;
    hide ListsFor;
    hide Outcome;
    hide Rewritten;
    hide ParseFilter;
    hide Untouched;
    hide Changes;
    if account !in env.unmanaged {
      WatchedIsSynced(env, s, account);
      if Unwatched(env, s, account) {
        SkippedUnwatched(env, s, account, wanted, pruned);
      } else {
        RaisesWhereUnparsed(env, s, account, wanted, pruned);
        if Outcome(env, s, account, wanted, pruned).Synced? {
          UntouchedIsUnwritten(env, s, account, wanted, pruned);
        }
      }
    }
  }

  lemma SkippedUnwatched(env: Env, s: State, account: int, wanted: seq<string>, pruned: seq<string>)
    requires LeftAlone(account in env.owners, RosterEntry(s, account))
    ensures Outcome(env, s, account, wanted, pruned).Skipped?
  {
  }

  /** A step leaves a run failed if and only if it was, or the event is one of the blockers. */
  lemma StepFails(env: Env, s: State, ev: Event, t: State)
    requires GoodEnv(env) && FiledLabels(env, s.stored) && Step(env, s, ev, t)
    ensures t.failed <==> s.failed || Blocks(env, s, ev)
    ensures t.phase.Promoting? ==> s.phase.Promoting? || (ev.ReadBack? && !t.failed)
    ensures ev.ReadBack? && !t.failed ==> t.phase.Promoting?
  {
    hide GoodEnv;
    hide FiledLabels;
    hide ListsFor;
    hide NextSync;
    hide AllKept;
    hide SyncBlocks;
    hide LosesExclude;
    if ev.SyncOne? {
      SyncStepBlocks(env, s, ev.account, ev.wanted, ev.pruned, ev.answer, t);
      SyncKeepsPhase(env, s, ev.account, ev.wanted, ev.pruned, ev.answer, t);
    } else if ev.ReadBack? {
      LosesIsNotKept(env, s, ev.reread);
    }
  }

  lemma WriteKeepsPhase(env: Env, s: State, account: int, expected: Expected, answer: Answer)
    ensures AfterWrite(env, s, account, expected, answer).phase == s.phase
    ensures AfterLeaving(s, account, answer).phase == s.phase
  {
    hide RefusalExplained;
  }

  lemma SyncKeepsPhase(env: Env, s: State, account: int, wanted: seq<string>, pruned: seq<string>, answer: Answer,
                       t: State)
    requires NextSync(env, s, account, wanted, pruned, answer) == Some(t)
    ensures t.phase == s.phase
  {
    hide Outcome;
    hide Changes;
    hide Untouched;
    hide KeepsOther;
    hide AfterWrite;
    hide AfterLeaving;
    var u, outcome := s.(pending := s.pending - {account}), Outcome(env, s, account, wanted, pruned);
    if account !in env.unmanaged && account in s.roster && outcome.Synced? {
      WriteKeepsPhase(env, u, account, Changes(outcome, s.roster[account].filters), answer);
    } else {
      WriteKeepsPhase(env, u, account, Expected(None, None), answer);
    }
  }

  // ----- whole runs -----

  ghost predicate NothingBlocks(env: Env, states: seq<State>, events: seq<Event>, n: nat)
    requires n <= |events| < |states|
  {
    forall i :: 0 <= i < n ==> !Blocks(env, states[i], events[i])
  }

  /** At any point a run has failed if and only if some event so far was a blocker. */
  lemma {:induction false} FailedExactly(env: Env, states: seq<State>, events: seq<Event>, i: nat)
    requires GoodEnv(env) && IsRun(env, states, events) && i < |states|
    ensures states[i].failed <==> !NothingBlocks(env, states, events, i)
  {
    hide GoodEnv;
    hide Step;
    hide Blocks;
    hide Inv;
    if i > 0 {
      FailedExactly(env, states, events, i - 1);
      RunKeepsInv(env, states, events, i - 1);
      InvFiles(env, states[i - 1]);
      StepFails(env, states[i - 1], events[i - 1], states[i]);
    }
  }

  lemma InvFiles(env: Env, s: State)
    requires Inv(env, s)
    ensures FiledLabels(env, s.stored)
  {
  }

  ghost predicate ReadBackAt(env: Env, states: seq<State>, events: seq<Event>, i: nat)
    requires |events| < |states|
  {
    i < |events| && events[i].ReadBack? && NothingBlocks(env, states, events, i + 1)
  }

  lemma {:induction false} PromotingWasReadBack(env: Env, states: seq<State>, events: seq<Event>, i: nat)
    returns (j: nat)
    requires GoodEnv(env) && IsRun(env, states, events) && i < |states| && states[i].phase.Promoting?
    ensures j < i && ReadBackAt(env, states, events, j)
  {
    hide GoodEnv;
    hide Step;
    hide Blocks;
    hide Inv;
    hide NothingBlocks;
    RunKeepsInv(env, states, events, i - 1);
    InvFiles(env, states[i - 1]);
    StepFails(env, states[i - 1], events[i - 1], states[i]);
    if states[i - 1].phase.Promoting? {
      j := PromotingWasReadBack(env, states, events, i - 1);
    } else {
      j := i - 1;
      FailedExactly(env, states, events, i);
    }
  }

  /** A run gets to promoting rows if and only if it reads its filters back with no blocker until then. */
  lemma PromotesExactly(env: Env, states: seq<State>, events: seq<Event>)
    requires GoodEnv(env) && IsRun(env, states, events)
    ensures (exists i :: 0 <= i < |states| && states[i].phase.Promoting?) <==>
            exists i: nat :: ReadBackAt(env, states, events, i)
  {
    hide GoodEnv;
    hide Step;
    hide Blocks;
    hide Inv;
    hide NothingBlocks;
    if i :| 0 <= i < |states| && states[i].phase.Promoting? {
      var j := PromotingWasReadBack(env, states, events, i);
    }
    if i: nat :| ReadBackAt(env, states, events, i) {
      RunKeepsInv(env, states, events, i);
      InvFiles(env, states[i]);
      FailedExactly(env, states, events, i + 1);
      StepFails(env, states[i], events[i], states[i + 1]);
      assert states[i + 1].phase.Promoting?;
    }
  }
}
