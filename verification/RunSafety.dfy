/** What every run keeps: nothing is promoted unless every account's filter is known to hide it. */
module RunSafety {
  import opened Options
  import opened ShareFilter
  import opened FilterSemantics
  import opened MergeTheorems
  import opened SharePlan
  import opened SyncPrune
  import opened AccountSync
  import opened FilterReadBack
  import opened RunProtocol

  // ----- who must not see what -----

  /** The owner, the accounts left alone by choice, and those Plex takes no label filter for. */
  predicate Exempt(env: Env, s: State, account: int) {
    || account in env.owners || account in env.unmanaged || account in s.refused || account !in s.roster
    || (s.roster[account].restricted && s.roster[account].profile != "")
  }

  /** An audience account one of whose fields has to hide a per-person row's label. */
  ghost predicate MustHide(env: Env, s: State, account: int, field: Field, lbl: string) {
    && account in s.roster && !Exempt(env, s, account)
    && Readable(s.roster[account].filters.At(field))
    && lbl in WantedBy(env.codec, EvidenceFor(env, s, account)) && PrivateLabel(env.codec, lbl)
  }

  ghost predicate HiddenOn(env: Env, s: State, account: int, field: Field, lbl: string) {
    account in s.filters && Hides(env.codec, s.filters[account].At(field), lbl)
  }

  /** What the field was written as hides the label; where nothing was written, what it holds does. */
  ghost predicate SettledOn(env: Env, s: State, account: int, field: Field, lbl: string) {
    if WroteField(s, account, field) then
      Hides(env.codec, s.written[account].At(field).value, lbl)
    else HiddenOn(env, s, account, field, lbl)
  }

  /** The check would notice the loss of the label: where the field was written, the text spells it recognisably. */
  ghost predicate Confirmable(env: Env, s: State, account: int, field: Field, lbl: string) {
    WroteField(s, account, field) ==> SpeltAsOurs(env.codec, s.written[account].At(field).value, lbl)
  }

  /** Whatever excludes of the label the roster's filter has are spelt recognisably. */
  ghost predicate KnownBySight(env: Env, s: State, account: int, field: Field, lbl: string) {
    account in s.roster && Recognised(env.codec, s.roster[account].filters.At(field), lbl)
  }

  // ----- the invariant -----

  predicate BeforePromotion(s: State) {
    s.phase in {Sweeping, Delivering, Enumerated, Syncing, Verifying}
  }

  ghost predicate LabelsGood(env: Env, s: State) {
    FiledLabels(env, s.stored) && forall key :: key in s.rows ==> RowLabel(env, s.rows[key].lbl)
  }

  ghost predicate KnowsRows(env: Env, s: State) {
    && (s.known ==> Covers(env, s.stored, s.rows) && !s.phase.Sweeping? && !s.phase.Delivering?)
    && (s.phase in {Enumerated, Syncing, Verifying, Promoting} && !s.failed ==> s.known)
  }

  /** While filters are being written, an account still to come holds what the roster says. */
  ghost predicate InStep(s: State) {
    && (s.phase in {Syncing, Verifying} ==>
          s.roster.Keys == s.filters.Keys && s.written.Keys <= s.roster.Keys)
    && (s.phase.Syncing? ==> forall account :: account in s.pending && account in s.roster ==>
          account in s.filters && s.filters[account] == s.roster[account].filters && account !in s.written)
    && (s.phase in {Sweeping, Delivering, Enumerated} ==> s.written == map[] && s.refused == {})
    && (s.phase.Verifying? ==> s.pending == {})
  }

  ghost predicate AllSettled(env: Env, s: State) {
    s.phase in {Syncing, Verifying} && !s.failed ==>
      forall account, field: Field, lbl :: account !in s.pending && MustHide(env, s, account, field, lbl) ==>
        SettledOn(env, s, account, field, lbl)
  }

  ghost predicate AllHidden(env: Env, s: State) {
    forall account, field: Field, lbl ::
      MustHide(env, s, account, field, lbl) && Confirmable(env, s, account, field, lbl) ==>
        HiddenOn(env, s, account, field, lbl)
  }

  /** A label whose excludes were recognisable is written recognisably. */
  ghost predicate AllSpelt(env: Env, s: State) {
    forall account, field: Field, lbl ::
      MustHide(env, s, account, field, lbl) && KnownBySight(env, s, account, field, lbl) ==>
        Confirmable(env, s, account, field, lbl)
  }

  /** Once anything may be promoted, nothing has failed and every account is known to hide what it must. */
  ghost predicate PromotesOnlyHidden(env: Env, s: State) {
    && (BeforePromotion(s) ==> s.promoted == {})
    && (s.phase.Promoting? || s.promoted != {} ==> !s.failed && s.known && AllHidden(env, s))
  }

  ghost predicate Inv(env: Env, s: State) {
    && LabelsGood(env, s) && KnowsRows(env, s) && InStep(s)
    && AllSettled(env, s) && AllSpelt(env, s) && PromotesOnlyHidden(env, s)
  }

  lemma InitialInv(env: Env, s: State)
    requires Initial(env, s)
    ensures Inv(env, s)
  {
  }

  // ----- steps that leave what is known, and the filters, alone -----

  /** The two states agree on everything a must-hide depends on, and on what was written. */
  ghost predicate SameView(s: State, t: State) {
    && t.stored == s.stored && t.known == s.known && t.marked == s.marked && t.roster == s.roster
    && t.refused == s.refused && t.written == s.written
  }

  lemma SameMustHide(env: Env, s: State, t: State, account: int, field: Field, lbl: string)
    requires SameView(s, t)
    ensures MustHide(env, t, account, field, lbl) <==> MustHide(env, s, account, field, lbl)
  {
    assert EvidenceFor(env, s, account) == EvidenceFor(env, t, account);
    assert RosterEntry(s, account) == RosterEntry(t, account);
  }

  lemma AllHiddenKept(env: Env, s: State, t: State)
    requires SameView(s, t) && t.filters == s.filters && AllHidden(env, s)
    ensures AllHidden(env, t)
  {
    forall account, field: Field, lbl |
      MustHide(env, t, account, field, lbl) && Confirmable(env, t, account, field, lbl)
      ensures HiddenOn(env, t, account, field, lbl)
    {
      SameMustHide(env, s, t, account, field, lbl);
      assert Confirmable(env, s, account, field, lbl);
      assert HiddenOn(env, s, account, field, lbl);
    }
  }

  lemma AllSpeltKept(env: Env, s: State, t: State)
    requires SameView(s, t) && AllSpelt(env, s)
    ensures AllSpelt(env, t)
  {
    forall account, field: Field, lbl |
      MustHide(env, t, account, field, lbl) && KnownBySight(env, t, account, field, lbl)
      ensures Confirmable(env, t, account, field, lbl)
    {
      SameMustHide(env, s, t, account, field, lbl);
      assert KnownBySight(env, s, account, field, lbl);
      assert Confirmable(env, s, account, field, lbl);
    }
  }

  lemma NothingWrittenYet(env: Env, s: State)
    requires s.written == map[]
    ensures AllSpelt(env, s)
  {
  }

  lemma EarlyStepKeepsInv(env: Env, s: State, ev: Event, t: State)
    requires Inv(env, s) && NextBefore(env, s, ev) == Some(t)
    ensures Inv(env, t)
  {
    hide MustHide;
    hide Hides;
    hide EvidenceFor;
    hide FiledLabel;
    hide AllSpelt;
    NothingWrittenYet(env, t);
  }

  predicate LateEvent(ev: Event) {
    ev.Promote? || ev.PromotionDone? || ev.Demote? || ev.DeleteOrphan? || ev.Finish?
  }

  lemma LateStepKeepsInv(env: Env, s: State, ev: Event, t: State)
    requires Inv(env, s) && LateEvent(ev) && NextAfter(env, s, ev) == Some(t)
    ensures Inv(env, t)
  {
    hide MustHide;
    hide HiddenOn;
    hide EvidenceFor;
    hide RowLabel;
    hide HoldsLabel;
    hide FiledLabel;
    hide AllSpelt;
    AllSpeltKept(env, s, t);
    if AllHidden(env, s) {
      AllHiddenKept(env, s, t);
    }
  }

  lemma RosterStepKeepsInv(env: Env, s: State, ev: Event, t: State)
    requires Inv(env, s) && (ev.ReadRoster? || ev.RosterFailed?) && NextAfter(env, s, ev) == Some(t)
    ensures Inv(env, t)
  {
    hide Exempt;
    hide Readable;
    hide EvidenceFor;
    hide SettledOn;
    hide RowLabel;
    hide HoldsLabel;
    hide FiledLabel;
    hide AllSpelt;
    NothingWrittenYet(env, t);
  }

  lemma AllSyncedKeepsInv(env: Env, s: State, t: State)
    requires Inv(env, s) && NextAfter(env, s, AllSynced) == Some(t)
    ensures Inv(env, t)
  {
    hide MustHide;
    hide HiddenOn;
    hide RowLabel;
    hide HoldsLabel;
    hide FiledLabel;
    hide AllSpelt;
    AllSpeltKept(env, s, t);
    forall account, field: Field, lbl | MustHide(env, t, account, field, lbl) && !t.failed
      ensures SettledOn(env, t, account, field, lbl)
    {
      SameMustHide(env, s, t, account, field, lbl);
      assert SettledOn(env, s, account, field, lbl);
      SameSettled(env, s, t, account, field, lbl);
    }
  }

  lemma SameSettled(env: Env, s: State, t: State, account: int, field: Field, lbl: string)
    requires (account in t.written) == (account in s.written)
    requires account in s.written ==> t.written[account] == s.written[account]
    requires (account in t.filters) == (account in s.filters)
    requires account in s.filters ==> t.filters[account] == s.filters[account]
    ensures SettledOn(env, t, account, field, lbl) <==> SettledOn(env, s, account, field, lbl)
  {
  }

  // ----- the read-back confirms what was written -----

  lemma NothingHidesNothing(k: Codec, lbl: string)
    ensures !Hides(k, "", lbl)
  {
  }

  lemma WantedIsRowLabel(env: Env, s: State, account: int, lbl: string)
    requires FiledLabels(env, s.stored) && lbl in WantedBy(env.codec, EvidenceFor(env, s, account))
    ensures RowLabel(env, lbl) && IsOurs(env.codec, lbl)
  {
    var slug :| slug in s.stored && s.stored[slug] == lbl;
    assert FiledLabel(env, slug, lbl);
  }

  lemma ReadBackHides(env: Env, s: State, reread: map<int, Filters>, account: int, field: Field, lbl: string)
    requires Confirmable(env, s, account, field, lbl) && SettledOn(env, s, account, field, lbl)
    requires AllKept(env, s, reread) && reread.Keys <= s.filters.Keys
    requires forall account :: account in reread ==> reread[account] == s.filters[account]
    ensures HiddenOn(env, s, account, field, lbl)
  {
    if WroteField(s, account, field) {
      var got := RereadField(reread, account, field);
      assert FieldKept(env.codec, s.written[account].At(field).value, got);
      KeptStillHides(env.codec, s.written[account].At(field).value, got, lbl);
      NothingHidesNothing(env.codec, lbl);
    }
  }

  lemma ReadBackStepKeepsInv(env: Env, s: State, ev: Event, t: State)
    requires Inv(env, s) && (ev.ReadBack? || ev.ReadBackFailed?) && NextAfter(env, s, ev) == Some(t)
    ensures Inv(env, t)
  {
    hide MustHide;
    hide HiddenOn;
    hide Confirmable;
    hide AllSpelt;
    hide SettledOn;
    hide AllKept;
    hide EvidenceFor;
    hide FiledLabels;
    hide RowLabel;
    hide HoldsLabel;
    AllSpeltKept(env, s, t);
    if !t.failed {
      forall account, field: Field, lbl |
        MustHide(env, t, account, field, lbl) && Confirmable(env, t, account, field, lbl)
        ensures HiddenOn(env, t, account, field, lbl)
      {
        SameMustHide(env, s, t, account, field, lbl);
        SameConfirmable(env, s, t, account, field, lbl);
        ReadBackHides(env, s, ev.reread, account, field, lbl);
        SameHidden(env, s, t, account, field, lbl);
      }
    }
  }

  lemma SameConfirmable(env: Env, s: State, t: State, account: int, field: Field, lbl: string)
    requires (account in t.written) == (account in s.written)
    requires account in s.written ==> t.written[account] == s.written[account]
    ensures Confirmable(env, t, account, field, lbl) <==> Confirmable(env, s, account, field, lbl)
  {
  }

  lemma SameHidden(env: Env, s: State, t: State, account: int, field: Field, lbl: string)
    requires (account in t.filters) == (account in s.filters)
    requires account in s.filters ==> t.filters[account] == s.filters[account]
    ensures HiddenOn(env, t, account, field, lbl) <==> HiddenOn(env, s, account, field, lbl)
  {
  }

  // ----- syncing one account -----

  lemma EvidenceSound(env: Env, s: State, account: int)
    requires GoodEnv(env) && FiledLabels(env, s.stored)
    ensures Sound(env.codec, EvidenceFor(env, s, account))
  {
    forall lbl | lbl in s.stored.Values
      ensures PlainLabel(env.codec, lbl)
    {
      var slug :| slug in s.stored && s.stored[slug] == lbl;
      assert FiledLabel(env, slug, lbl);
    }
  }

  lemma WantedAreShortlist(env: Env, s: State, account: int, wanted: seq<string>)
    requires FiledLabels(env, s.stored) && Lists(wanted, WantedBy(env.codec, EvidenceFor(env, s, account)))
    ensures ShortlistLabels(NamingOf(env.codec), wanted)
  {
    forall i | 0 <= i < |wanted|
      ensures ShortlistLabel(NamingOf(env.codec), wanted[i])
    {
      assert wanted[i] in wanted;
      WantedIsRowLabel(env, s, account, wanted[i]);
    }
  }

  lemma RowPlannable(env: Env, s: State, account: int)
    requires GoodEnv(env) && FiledLabels(env, s.stored)
    ensures PlannableRow(NamingOf(env.codec),
                         RowToAdmit(EvidenceFor(env, s, account), RowLabelOf(env, account), env.codec.prefix))
  {
    var slug := AccountSlug(env, account);
    if slug.Some? {
      assert slug.value in env.slugs.Values;
      if slug.value in s.stored {
        assert FiledLabel(env, slug.value, s.stored[slug.value]);
      }
    }
  }

  /** What a sync plans for a field that must hide a label does hide it. */
  lemma OutcomeHides(env: Env, s: State, account: int, wanted: seq<string>, pruned: seq<string>, field: Field,
                     lbl: string)
    requires GoodEnv(env) && FiledLabels(env, s.stored) && ListsFor(env, s, account, wanted, pruned)
    requires MustHide(env, s, account, field, lbl) && Outcome(env, s, account, wanted, pruned).Synced?
    ensures Outcome(env, s, account, wanted, pruned).At(field).Planned?
    ensures Hides(env.codec, Outcome(env, s, account, wanted, pruned).At(field).text, lbl)
  {
    hide GoodEnv;
    hide Hides;
    hide Readable;
    hide SyncField;
    hide RowToAdmit;
    hide EvidenceFor;
    hide Faithful;
    hide PlainEvidence;
    var k, e, row := env.codec, EvidenceFor(env, s, account), RowLabelOf(env, account);
    EvidenceSound(env, s, account);
    WantedAreShortlist(env, s, account, wanted);
    RowPlannable(env, s, account);
    FieldPlannedOrUnreadable(k, RowToAdmit(e, row, k.prefix), wanted, pruned, s.roster[account].filters.At(field));
    SyncedAccountHides(k, account in env.owners, RosterEntry(s, account), e, row, wanted, pruned, field, lbl);
  }

  /** Every account but this one is as it was. */
  ghost predicate OthersKept(s: State, t: State, account: int) {
    && t.filters.Keys == s.filters.Keys
    && (forall other :: other in s.filters && other != account ==> t.filters[other] == s.filters[other])
    && (forall other :: other != account ==> (other in t.written <==> other in s.written))
    && (forall other :: other in s.written && other != account ==> t.written[other] == s.written[other])
  }

  /** What one sync may change. */
  ghost predicate SyncFrame(env: Env, s: State, t: State, account: int) {
    && t.phase == s.phase && t.rows == s.rows && t.stored == s.stored && t.known == s.known && t.marked == s.marked
    && t.roster == s.roster && t.pending == s.pending - {account} && t.promoted == s.promoted
    && t.written.Keys <= s.written.Keys + (if account in s.roster then {account} else {})
    && s.refused <= t.refused <= s.refused + {account}
    && (account in t.refused - s.refused ==> RefusalExplained(env, s, account))
    && (s.failed ==> t.failed) && OthersKept(s, t, account)
  }

  lemma WriteFrame(env: Env, s: State, account: int, expected: Expected, answer: Answer)
    requires s.roster.Keys == s.filters.Keys && account in s.roster && s.pending == s.pending - {account}
    ensures SyncFrame(env, s, AfterWrite(env, s, account, expected, answer), account)
  {
  }

  lemma AfterSyncFrame(env: Env, s: State, account: int, outcome: SyncOutcome, answer: Answer, t: State)
    requires s.roster.Keys == s.filters.Keys && s.pending == s.pending - {account}
    requires AfterSync(env, s, account, outcome, answer) == Some(t)
    ensures SyncFrame(env, s, t, account)
  {
    hide SyncFrame;
    hide AfterWrite;
    assert SyncFrame(env, s, s, account) && SyncFrame(env, s, s.(failed := true), account) by {
      StandFrame(env, s, account);
    }
    if outcome.Synced? && account in s.roster {
      WriteFrame(env, s, account, Changes(outcome, s.roster[account].filters), answer);
    }
  }

  lemma StandFrame(env: Env, s: State, account: int)
    requires s.pending == s.pending - {account}
    ensures SyncFrame(env, s, s, account) && SyncFrame(env, s, s.(failed := true), account)
  {
  }

  lemma SyncStepFrame(env: Env, s: State, account: int, wanted: seq<string>, pruned: seq<string>, answer: Answer,
                      t: State)
    requires s.roster.Keys == s.filters.Keys && NextSync(env, s, account, wanted, pruned, answer) == Some(t)
    ensures SyncFrame(env, s, t, account)
  {
    hide Outcome;
    hide AfterSync;
    var begun := s.(pending := s.pending - {account});
    if account !in env.unmanaged {
      AfterSyncFrame(env, begun, account, Outcome(env, s, account, wanted, pruned), answer, t);
    }
  }

  lemma OtherMustHide(env: Env, s: State, t: State, account: int, other: int, field: Field, lbl: string)
    requires SyncFrame(env, s, t, account) && MustHide(env, t, other, field, lbl)
    ensures MustHide(env, s, other, field, lbl)
  {
    assert EvidenceFor(env, s, other) == EvidenceFor(env, t, other);
    assert RosterEntry(s, other) == RosterEntry(t, other);
  }

  lemma AfterSyncSettles(env: Env, s: State, account: int, outcome: SyncOutcome, answer: Answer, t: State,
                         field: Field, lbl: string)
    requires AfterSync(env, s, account, outcome, answer) == Some(t) && !t.failed && account !in t.refused
    requires account in s.filters && account in s.roster && s.filters[account] == s.roster[account].filters
    requires account !in s.written && outcome.Synced? && outcome.At(field).Planned?
    requires Hides(env.codec, outcome.At(field).text, lbl)
    ensures SettledOn(env, t, account, field, lbl)
  {
    hide Hides;
    hide RefusalExplained;
  }

  /** The account just synced is settled, unless the sync failed. */
  lemma SyncSettles(env: Env, s: State, account: int, wanted: seq<string>, pruned: seq<string>, answer: Answer,
                    t: State, field: Field, lbl: string)
    requires GoodEnv(env) && FiledLabels(env, s.stored) && ListsFor(env, s, account, wanted, pruned)
    requires account in s.filters && account in s.roster && s.filters[account] == s.roster[account].filters
    requires account !in s.written && !t.failed && account !in t.refused
    requires NextSync(env, s, account, wanted, pruned, answer) == Some(t)
    requires MustHide(env, s, account, field, lbl)
    ensures SettledOn(env, t, account, field, lbl)
  {
    hide GoodEnv;
    hide Hides;
    hide Readable;
    hide AfterSync;
    hide SyncField;
    hide EvidenceFor;
    hide ListsFor;
    hide FiledLabels;
    var outcome := Outcome(env, s, account, wanted, pruned);
    NotSkipped(env, s, account, wanted, pruned, answer, t);
    OutcomeHides(env, s, account, wanted, pruned, field, lbl);
    AfterSyncSettles(env, s.(pending := s.pending - {account}), account, outcome, answer, t, field, lbl);
  }

  lemma NotSkipped(env: Env, s: State, account: int, wanted: seq<string>, pruned: seq<string>, answer: Answer, t: State)
    requires NextSync(env, s, account, wanted, pruned, answer) == Some(t) && !t.failed && !Exempt(env, s, account)
    ensures Outcome(env, s, account, wanted, pruned).Synced?
  {
    hide SyncField;
    hide EvidenceFor;
  }

  lemma ListedAreShortlist(env: Env, s: State, account: int, wanted: seq<string>, pruned: seq<string>)
    requires GoodEnv(env) && FiledLabels(env, s.stored) && ListsFor(env, s, account, wanted, pruned)
    ensures ShortlistLabels(NamingOf(env.codec), wanted)
  {
    WantedAreShortlist(env, s, account, wanted);
  }

  /** What a sync plans for a field whose excludes of the label are recognisable spells it so. */
  lemma OutcomeSpells(env: Env, s: State, account: int, wanted: seq<string>, pruned: seq<string>, field: Field,
                      lbl: string)
    requires GoodEnv(env) && FiledLabels(env, s.stored) && ListsFor(env, s, account, wanted, pruned)
    requires MustHide(env, s, account, field, lbl) && Outcome(env, s, account, wanted, pruned).Synced?
    requires KnownBySight(env, s, account, field, lbl)
    ensures Outcome(env, s, account, wanted, pruned).At(field).Planned?
    ensures SpeltAsOurs(env.codec, Outcome(env, s, account, wanted, pruned).At(field).text, lbl)
  {
    hide Hides;
    hide Readable;
    hide SyncField;
    hide RowToAdmit;
    hide EvidenceFor;
    hide Faithful;
    hide PlainEvidence;
    hide Recognised;
    hide SyncAccount;
    hide ListsFor;
    var k, e, row := env.codec, EvidenceFor(env, s, account), RowLabelOf(env, account);
    OutcomeHides(env, s, account, wanted, pruned, field, lbl);
    ListedAreShortlist(env, s, account, wanted, pruned);
    RowPlannable(env, s, account);
    SyncedField(k, account in env.owners, RosterEntry(s, account), e, row, wanted, pruned, field);
    SyncSpellsAsOurs(k, RowToAdmit(e, row, k.prefix), wanted, pruned, s.roster[account].filters.At(field), lbl);
  }

  lemma WrittenIsPlanned(env: Env, s: State, account: int, outcome: SyncOutcome, answer: Answer, t: State,
                         field: Field)
    requires AfterSync(env, s, account, outcome, answer) == Some(t) && account !in s.written
    requires WroteField(t, account, field)
    ensures outcome.Synced? && outcome.At(field) == Planned(t.written[account].At(field).value)
  {
    hide RefusalExplained;
    hide KeepsOther;
  }

  /** Whatever the account just synced was written as spells recognisably what was recognisable. */
  lemma SyncSpells(env: Env, s: State, account: int, wanted: seq<string>, pruned: seq<string>, answer: Answer,
                   t: State, field: Field, lbl: string)
    requires GoodEnv(env) && FiledLabels(env, s.stored) && ListsFor(env, s, account, wanted, pruned)
    requires account !in s.written && NextSync(env, s, account, wanted, pruned, answer) == Some(t)
    requires MustHide(env, s, account, field, lbl) && KnownBySight(env, s, account, field, lbl)
    ensures Confirmable(env, t, account, field, lbl)
  {
    hide GoodEnv;
    hide SpeltAsOurs;
    hide KnownBySight;
    hide Outcome;
    hide AfterSync;
    hide EvidenceFor;
    hide ListsFor;
    hide FiledLabels;
    if WroteField(t, account, field) {
      var outcome := Outcome(env, s, account, wanted, pruned);
      WrittenIsPlanned(env, s.(pending := s.pending - {account}), account, outcome, answer, t, field);
      OutcomeSpells(env, s, account, wanted, pruned, field, lbl);
    }
  }

  lemma SyncStepSpells(env: Env, s: State, ev: Event, t: State)
    requires GoodEnv(env) && Inv(env, s) && ev.SyncOne? && NextAfter(env, s, ev) == Some(t)
    ensures AllSpelt(env, t)
  {
    hide GoodEnv;
    hide MustHide;
    hide Recognised;
    hide Confirmable;
    hide AllSettled;
    hide ListsFor;
    hide FiledLabels;
    hide NextSync;
    var account := ev.account;
    SyncStepFrame(env, s, account, ev.wanted, ev.pruned, ev.answer, t);
    forall other, field: Field, lbl |
      MustHide(env, t, other, field, lbl) && KnownBySight(env, t, other, field, lbl)
      ensures Confirmable(env, t, other, field, lbl)
    {
      OtherMustHide(env, s, t, account, other, field, lbl);
      assert KnownBySight(env, s, other, field, lbl);
      if other == account {
        MustHideKnows(env, t, account, field, lbl);
        SyncSpells(env, s, account, ev.wanted, ev.pruned, ev.answer, t, field, lbl);
      } else {
        SameConfirmable(env, s, t, other, field, lbl);
      }
    }
  }

  lemma SyncStepKeepsInv(env: Env, s: State, ev: Event, t: State)
    requires GoodEnv(env) && Inv(env, s) && ev.SyncOne? && NextAfter(env, s, ev) == Some(t)
    ensures Inv(env, t)
  {
    hide GoodEnv;
    hide MustHide;
    hide SettledOn;
    hide ListsFor;
    hide FiledLabels;
    hide RowLabel;
    hide HoldsLabel;
    hide NextSync;
    hide AllSpelt;
    SyncStepSpells(env, s, ev, t);
    var account := ev.account;
    SyncStepFrame(env, s, account, ev.wanted, ev.pruned, ev.answer, t);
    if !t.failed {
      forall other, field: Field, lbl | other !in t.pending && MustHide(env, t, other, field, lbl)
        ensures SettledOn(env, t, other, field, lbl)
      {
        OtherMustHide(env, s, t, account, other, field, lbl);
        if other == account {
          MustHideKnows(env, t, account, field, lbl);
          SyncSettles(env, s, account, ev.wanted, ev.pruned, ev.answer, t, field, lbl);
        } else {
          SameSettled(env, s, t, other, field, lbl);
        }
      }
    }
  }

  lemma MustHideKnows(env: Env, s: State, account: int, field: Field, lbl: string)
    requires MustHide(env, s, account, field, lbl)
    ensures account in s.roster && account !in s.refused
  {
  }

  // ----- whole runs -----

  lemma StepKeepsInv(env: Env, s: State, ev: Event, t: State)
    requires GoodEnv(env) && Inv(env, s) && Step(env, s, ev, t)
    ensures Inv(env, t)
  {
    hide GoodEnv;
    hide Inv;
    if NextBefore(env, s, ev) == Some(t) {
      EarlyStepKeepsInv(env, s, ev, t);
    } else if LateEvent(ev) {
      LateStepKeepsInv(env, s, ev, t);
    } else if ev.ReadRoster? || ev.RosterFailed? {
      RosterStepKeepsInv(env, s, ev, t);
    } else if ev.SyncOne? {
      SyncStepKeepsInv(env, s, ev, t);
    } else if ev.AllSynced? {
      AllSyncedKeepsInv(env, s, t);
    } else {
      ReadBackStepKeepsInv(env, s, ev, t);
    }
  }

  lemma {:induction false} RunKeepsInv(env: Env, states: seq<State>, events: seq<Event>, i: nat)
    requires GoodEnv(env) && IsRun(env, states, events) && i < |states|
    ensures Inv(env, states[i])
  {
    hide GoodEnv;
    hide Inv;
    hide Step;
    hide Initial;
    if i == 0 {
      InitialInv(env, states[0]);
    } else {
      RunKeepsInv(env, states, events, i - 1);
      StepKeepsInv(env, states[i - 1], events[i - 1], states[i]);
    }
  }

  /** The row is a person's: its label is neither a configured shared row's nor spelled like one. */
  ghost predicate PersonsRow(env: Env, lbl: string) {
    env.codec.lower(lbl) !in env.shared && PrivateLabel(env.codec, lbl)
  }

  ghost predicate OwnRowOf(env: Env, account: int, lbl: string) {
    account in env.slugs && env.codec.lower(lbl) == env.codec.lower(SlugLabel(env, env.slugs[account]))
  }

  /** A row of someone else's is one the account must not see, under the label the run knows it by. */
  lemma RowMustHide(env: Env, s: State, key: int, account: int) returns (w: string)
    requires GoodEnv(env) && LabelsGood(env, s) && s.known && Covers(env, s.stored, s.rows) && key in s.rows
    requires PersonsRow(env, s.rows[key].lbl) && !OwnRowOf(env, account, s.rows[key].lbl)
    ensures w in WantedBy(env.codec, EvidenceFor(env, s, account)) && PrivateLabel(env.codec, w)
    ensures Norm(env.codec, w) == Norm(env.codec, s.rows[key].lbl)
  {
    assert HoldsLabel(env, s.stored, s.rows[key].lbl);
    var slug :| slug in s.stored && env.codec.lower(s.stored[slug]) == env.codec.lower(s.rows[key].lbl);
    w := s.stored[slug];
    assert FiledLabel(env, slug, w) && RowLabel(env, s.rows[key].lbl);
    var e := EvidenceFor(env, s, account);
    OwnIsSlugs(env, s, account);
    SpelledAlike(env.codec, w, s.rows[key].lbl);
    StoredIsWanted(env.codec, e, w);
  }

  lemma StoredIsWanted(k: Codec, e: Evidence, w: string)
    requires w in e.stored.Values && w != "" && k.lower(w) !in e.shared && !IsOwn(k, w, e.own)
    ensures w in WantedBy(k, e)
  {
  }

  /** A label filed as the account's own is the one its slug makes. */
  lemma OwnIsSlugs(env: Env, s: State, account: int)
    requires FiledLabels(env, s.stored)
    ensures var own := EvidenceFor(env, s, account).own;
            own.Some? ==> account in env.slugs
                          && env.codec.lower(own.value) == env.codec.lower(SlugLabel(env, env.slugs[account]))
  {
    var mine := AccountSlug(env, account);
    if mine.Some? && mine.value in s.stored {
      assert FiledLabel(env, mine.value, s.stored[mine.value]);
    }
  }

  ghost predicate OnHome(rows: map<int, Row>, key: int) {
    key in rows && rows[key].promoted
  }

  // ----- what needs no knowledge of labels -----

  /** Nothing that failed has promoted, and every refusal passed over has its reason. */
  ghost predicate Orderly(env: Env, s: State) {
    && (BeforePromotion(s) || s.failed ==> s.promoted == {})
    && (s.phase.Promoting? ==> !s.failed)
    && (s.phase in {Sweeping, Delivering, Enumerated} ==> s.refused == {} && s.written == map[])
    && (forall account :: account in s.refused ==> RefusalExplained(env, s, account))
  }

  lemma SyncKeepsOrder(env: Env, s: State, account: int, outcome: SyncOutcome, answer: Answer, t: State)
    requires Orderly(env, s) && s.phase.Syncing? && AfterSync(env, s, account, outcome, answer) == Some(t)
    ensures Orderly(env, t) && t.phase == s.phase && t.rows == s.rows && t.promoted == s.promoted
  {
    hide KeepsOther;
  }

  lemma StepKeepsOrder(env: Env, s: State, ev: Event, t: State)
    requires Orderly(env, s) && Step(env, s, ev, t)
    ensures Orderly(env, t)
    ensures ev.SyncOne? ==> t.rows == s.rows && t.promoted == s.promoted
  {
    hide Outcome;
    hide AfterSync;
    hide AllKept;
    hide RowLabel;
    hide FiledLabel;
    hide FiledLabels;
    hide HoldsLabel;
    hide ListsFor;
    if ev.SyncOne? && ev.account !in env.unmanaged {
      SyncKeepsOrder(env, s.(pending := s.pending - {ev.account}), ev.account,
                     Outcome(env, s, ev.account, ev.wanted, ev.pruned), ev.answer, t);
    }
  }

  lemma StartIsOrderly(env: Env, s: State)
    requires Initial(env, s)
    ensures Orderly(env, s)
  {
  }

  lemma {:induction false} RunIsOrderly(env: Env, states: seq<State>, events: seq<Event>, i: nat)
    requires IsRun(env, states, events) && i < |states|
    ensures Orderly(env, states[i])
  {
    hide Orderly;
    hide Step;
    if i == 0 {
      StartIsOrderly(env, states[0]);
    } else {
      RunIsOrderly(env, states, events, i - 1);
      StepKeepsOrder(env, states[i - 1], events[i - 1], states[i]);
    }
  }

  /** A run in which anything stood against promotion, or which has not yet read its filters back, has promoted
      nothing. */
  lemma FailedRunPromotesNothing(env: Env, states: seq<State>, events: seq<Event>, i: nat)
    requires IsRun(env, states, events) && i < |states|
    ensures states[i].failed || BeforePromotion(states[i]) ==> states[i].promoted == {}
  {
    RunIsOrderly(env, states, events, i);
  }

  /** An account is passed over as refused only with a parental profile, or restricted with the profile unknown. */
  lemma RefusedOnlyWithProfile(env: Env, states: seq<State>, events: seq<Event>, i: nat, account: int)
    requires IsRun(env, states, events) && i < |states| && account in states[i].refused
    ensures RefusalExplained(env, states[i], account)
  {
    RunIsOrderly(env, states, events, i);
  }

  // ----- what is on Home is what was promoted -----

  ghost predicate FlagsExplained(first: State, s: State) {
    && (forall key :: OnHome(s.rows, key) ==> key in s.promoted || OnHome(first.rows, key))
    && (forall key :: key in s.promoted ==> OnHome(s.rows, key))
  }

  lemma EarlyStepKeepsFlags(env: Env, first: State, s: State, ev: Event, t: State)
    requires FlagsExplained(first, s) && Orderly(env, s) && NextBefore(env, s, ev) == Some(t)
    ensures FlagsExplained(first, t)
  {
    hide RowLabel;
    hide FiledLabel;
    hide FiledLabels;
    hide HoldsLabel;
  }

  lemma LateStepKeepsFlags(env: Env, first: State, s: State, ev: Event, t: State)
    requires FlagsExplained(first, s) && Orderly(env, s) && NextAfter(env, s, ev) == Some(t) && !ev.SyncOne?
    ensures FlagsExplained(first, t)
  {
    hide RefusalExplained;
    hide AllKept;
    hide NextSync;
    hide ListsFor;
  }

  lemma StepKeepsFlags(env: Env, first: State, s: State, ev: Event, t: State)
    requires FlagsExplained(first, s) && Orderly(env, s) && Step(env, s, ev, t)
    ensures FlagsExplained(first, t)
  {
    hide Orderly;
    hide NextBefore;
    hide NextAfter;
    if NextBefore(env, s, ev) == Some(t) {
      EarlyStepKeepsFlags(env, first, s, ev, t);
    } else if ev.SyncOne? {
      StepKeepsOrder(env, s, ev, t);
    } else {
      LateStepKeepsFlags(env, first, s, ev, t);
    }
  }

  /** Only a promotion puts a row on anyone's Home, and what the run promoted stays there. */
  lemma {:induction false} OnlyPromotionShows(env: Env, states: seq<State>, events: seq<Event>, i: nat)
    requires IsRun(env, states, events) && i < |states|
    ensures FlagsExplained(states[0], states[i])
  {
    hide Step;
    hide FlagsExplained;
    if i == 0 {
      assert FlagsExplained(states[0], states[0]) by {
        StartExplained(states[0]);
      }
    } else {
      OnlyPromotionShows(env, states, events, i - 1);
      RunIsOrderly(env, states, events, i - 1);
      StepKeepsFlags(env, states[0], states[i - 1], events[i - 1], states[i]);
    }
  }

  lemma StartExplained(s: State)
    requires s.promoted == {}
    ensures FlagsExplained(s, s)
  {
  }

  // ----- whoever must not see a promoted row does not -----

  /** A person's row that this run has promoted, or that has come onto Home since it began, and an account that must
      not see it. */
  ghost predicate NewlyShown(env: Env, states: seq<State>, i: nat, key: int, account: int, field: Field)
    requires i < |states|
  {
    var s := states[i];
    && key in s.rows && (key in s.promoted || (OnHome(s.rows, key) && !OnHome(states[0].rows, key)))
    && PersonsRow(env, s.rows[key].lbl) && !OwnRowOf(env, account, s.rows[key].lbl)
    && account in s.roster && !Exempt(env, s, account) && Readable(s.roster[account].filters.At(field))
  }

  /** In every reachable state, a person's row this run put on Home is enforced as hidden, under either grouping, in
      every field where the check would notice its loss: of every account but its own and the exempt ones, and
      leaving out a field Plex cannot read. */
  lemma PromotedRowIsHidden(env: Env, states: seq<State>, events: seq<Event>, i: nat, key: int, account: int,
                            field: Field)
    requires GoodEnv(env) && IsRun(env, states, events) && i < |states|
    requires NewlyShown(env, states, i, key, account, field)
    requires Confirmable(env, states[i], account, field, states[i].rows[key].lbl)
    ensures HiddenOn(env, states[i], account, field, states[i].rows[key].lbl)
  {
    hide Readable;
    hide Exempt;
    hide IsRun;
    hide GoodEnv;
    hide EvidenceFor;
    var s := states[i];
    OnlyPromotionShows(env, states, events, i);
    RunKeepsInv(env, states, events, i);
    var w := RowMustHide(env, s, key, account);
    assert MustHide(env, s, account, field, w);
    assert Confirmable(env, s, account, field, w);
    assert HiddenOn(env, s, account, field, w);
    EnforcesSame(NamingOf(env.codec), ParseFilter(s.filters[account].At(field)).value, w, s.rows[key].lbl);
  }

  /** Where the account's filter spelt the label recognisably, or did not exclude it, before the run, the check would
      notice. */
  lemma KnownBySightIsConfirmable(env: Env, states: seq<State>, events: seq<Event>, i: nat, key: int, account: int,
                                  field: Field)
    requires GoodEnv(env) && IsRun(env, states, events) && i < |states|
    requires NewlyShown(env, states, i, key, account, field)
    requires KnownBySight(env, states[i], account, field, states[i].rows[key].lbl)
    ensures Confirmable(env, states[i], account, field, states[i].rows[key].lbl)
  {
    hide Readable;
    hide Exempt;
    hide IsRun;
    hide GoodEnv;
    hide EvidenceFor;
    var s := states[i];
    OnlyPromotionShows(env, states, events, i);
    RunKeepsInv(env, states, events, i);
    var w := RowMustHide(env, s, key, account);
    assert MustHide(env, s, account, field, w);
    assert KnownBySight(env, s, account, field, w);
    assert Confirmable(env, s, account, field, w);
  }

  /** So no such account is shown an item carrying the row's label. */
  lemma PromotedRowIsUnseen(env: Env, states: seq<State>, events: seq<Event>, i: nat, key: int, account: int,
                            field: Field, g: Grouping, item: Item)
    requires GoodEnv(env) && IsRun(env, states, events) && i < |states|
    requires NewlyShown(env, states, i, key, account, field)
    requires KnownBySight(env, states[i], account, field, states[i].rows[key].lbl)
    requires CarriesLabel(NamingOf(env.codec), item, states[i].rows[key].lbl)
    ensures account in states[i].filters && ParseFilter(states[i].filters[account].At(field)).Ok?
    ensures !Shows(g, NamingOf(env.codec), ParseFilter(states[i].filters[account].At(field)).value, item)
  {
    hide Readable;
    hide Exempt;
    hide IsRun;
    hide GoodEnv;
    hide KnownBySight;
    hide Confirmable;
    KnownBySightIsConfirmable(env, states, events, i, key, account, field);
    PromotedRowIsHidden(env, states, events, i, key, account, field);
    EnforcedLabelHides(g, NamingOf(env.codec), ParseFilter(states[i].filters[account].At(field)).value,
                       states[i].rows[key].lbl, item);
  }
}
