/** One account's sync: each of its two filter fields is planned, pruned and written back only where it changed. */
module AccountSync {
  import opened Options
  import opened ShareFilter
  import opened FilterSemantics
  import opened FilterEdits
  import opened FilterGroups
  import opened FilterMerge
  import opened MergeTheorems
  import opened FilterRemove
  import opened FilterAllow
  import opened AllowTheorems
  import opened AllowRestore
  import opened SharePlan
  import opened SyncPrune

  // ----- a plan refuses exactly the filters Plex cannot read -----

  /** Whether it lets the own row in or takes it out, the allow-list step leaves a filter Plex can read. */
  lemma AdmitKeepsReadable(n: Naming, raw: string, own: string, prefix: string, show: bool)
    requires OwnLabel(n, own)
    ensures Admit(n, raw, own, prefix, show).Ok? <==> Readable(raw)
    ensures Readable(raw) ==> Readable(Admit(n, raw, own, prefix, show).value)
    ensures ParseFilter(raw).Ok? && !Readable(raw) ==> Admit(n, raw, own, prefix, show) == Err(Ambiguous)
  {
    if Readable(raw) {
      if show {
        AdmitLetsOwnRowPass(n, raw, own, prefix);
      } else {
        HiddenReadable(n, raw, own, prefix);
      }
    }
  }

  lemma HiddenReadable(n: Naming, raw: string, own: string, prefix: string)
    requires Readable(raw)
    ensures Readable(Admit(n, raw, own, prefix, false).value)
  {
    var cs := ParseFilter(raw).value;
    ParseRoundTrip(raw);
    NoLiteralAmpersand(cs);
    GoodGroupsOf(cs);
    HideGroupsPrintable(n, own, GroupsOf(cs));
    var hidden := Flatten(HiddenGroups(n, own, cs));
    MembersPrintable(hidden);
    UnledText(hidden);
    ParseOfPrinted(hidden);
    ReadBackReadable(hidden);
  }

  lemma PassReadable(n: Naming, planned: string, wanted: seq<string>, row: OwnRow)
    requires ShortlistLabels(n, wanted) && SaneNaming(n) && PlannableRow(n, row)
    ensures Pass(n, planned, wanted, row).Ok? <==> Readable(planned)
    ensures Readable(planned) ==> Readable(Pass(n, planned, wanted, row).value)
    ensures ParseFilter(planned).Ok? && !Readable(planned) ==> Pass(n, planned, wanted, row) == Err(Ambiguous)
  {
    var admitted := planned;
    if row.own.Some? {
      AdmitKeepsReadable(n, planned, row.own.value, row.prefix, row.show);
      if !Readable(planned) {
        return;
      }
      admitted := Admit(n, planned, row.own.value, row.prefix, row.show).value;
    }
    MergeNeverFailsItsCheck(n, admitted, wanted);
    if Readable(admitted) {
      MergeReadsBack(n, admitted, wanted);
    }
  }

  lemma {:induction false} PlanFromReadable(n: Naming, passes: nat, planned: string, wanted: seq<string>, row: OwnRow)
    requires ShortlistLabels(n, wanted) && SaneNaming(n) && PlannableRow(n, row) && Readable(planned)
    ensures PlanFrom(n, passes, planned, wanted, row).Ok?
    ensures Readable(PlanFrom(n, passes, planned, wanted, row).value)
  {
    hide Pass;
    hide Readable;
    if passes > 0 {
      PassReadable(n, planned, wanted, row);
      var merged := Pass(n, planned, wanted, row).value;
      if merged != planned {
        PlanFromReadable(n, passes - 1, merged, wanted, row);
      }
    }
  }

  /** A plan is refused exactly when the filter it starts from does not parse or is one Plex cannot read, and no
      later pass ever fails. */
  lemma PlanRefusesOnlyUnreadable(n: Naming, current: string, wanted: seq<string>, row: OwnRow)
    requires ShortlistLabels(n, wanted) && SaneNaming(n) && PlannableRow(n, row)
    ensures Plan(n, current, wanted, row).Ok? <==> Readable(current)
    ensures Readable(current) ==> Readable(Plan(n, current, wanted, row).value)
    ensures ParseFilter(current).Ok? && !Readable(current) ==> Plan(n, current, wanted, row) == Err(Ambiguous)
  {
    PassReadable(n, current, wanted, row);
    if Readable(current) {
      PlanFromReadable(n, PLAN_PASSES, current, wanted, row);
    }
  }

  // ----- one account -----

  datatype Field = Movies | Television

  /** The two share filters Plex keeps for an account. */
  datatype Filters = Filters(movies: string, television: string) {
    function At(field: Field): string {
      if field.Movies? then movies else television
    }
  }

  /** What plex.tv says of an account. */
  datatype Remote = Remote(restricted: bool, profile: string, filters: Filters)

  /** Plex cannot read the field, or planning raised, or this is the text the field should hold. */
  datatype FieldOutcome = Unreadable | Failed | Planned(text: string)

  datatype SyncOutcome = Skipped | Raised | Synced(movies: FieldOutcome, television: FieldOutcome) {
    function At(field: Field): FieldOutcome
      requires Synced?
    {
      if field.Movies? then movies else television
    }
  }

  /** The row the account's allow lists must let through: none when a missing row may only be one we failed to read. */
  function RowToAdmit(e: Evidence, rowLabel: Option<string>, prefix: string): OwnRow {
    var own := if e.own.Some? && e.own.value != "" then e.own else rowLabel;
    OwnRow(if e.own.None? && !e.collectionsKnown then None else own, prefix, e.own.Some?)
  }

  function SyncField(k: Codec, row: OwnRow, wanted: seq<string>, pruned: seq<string>, current: string): FieldOutcome {
    var planned := Plan(NamingOf(k), current, wanted, row);
    if planned == Err(Ambiguous) then Unreadable
    else if planned.Err? then Failed
    else
      var merged := if |pruned| > 0 then Remove(NamingOf(k), planned.value, pruned) else planned;
      if merged.Err? then Failed else Planned(merged.value)
  }

  /** The owner, an account off the share and one Plex refuses label filters for are left alone. */
  predicate LeftAlone(isOwner: bool, remote: Option<Remote>) {
    isOwner || remote.None? || (remote.value.restricted && remote.value.profile != "")
  }

  function SyncAccount(k: Codec, isOwner: bool, remote: Option<Remote>, e: Evidence, rowLabel: Option<string>,
                       wanted: seq<string>, pruned: seq<string>): SyncOutcome
  {
    if LeftAlone(isOwner, remote) then Skipped
    else
      var before, row := remote.value.filters, RowToAdmit(e, rowLabel, k.prefix);
      if ParseFilter(before.movies).Err? || ParseFilter(before.television).Err? then Raised
      else
        var movies := SyncField(k, row, wanted, pruned, before.movies);
        var television := SyncField(k, row, wanted, pruned, before.television);
        if movies.Failed? || television.Failed? then Raised else Synced(movies, television)
  }

  /** What the caller gets: a field Plex cannot read is skipped where the caller collects such fields, and raised where
      it does not. */
  function Reported(collects: bool, outcome: SyncOutcome): SyncOutcome {
    if !collects && outcome.Synced? && (outcome.movies.Unreadable? || outcome.television.Unreadable?) then Raised
    else outcome
  }

  ghost predicate Lists(xs: seq<string>, s: set<string>) {
    forall x :: x in xs <==> x in s
  }

  method ListOf(s: set<string>) returns (xs: seq<string>)
    ensures Lists(xs, s)
  {
    xs := [];
    var pending := s;
    while pending != {}
      invariant pending <= s && Lists(xs, s - pending)
      decreases |pending|
    {
      var x :| x in pending;
      pending := pending - {x};
      xs := xs + [x];
    }
  }

  /** The excludes of ours, in either field, that may come out. */
  ghost predicate ListsPrunable(k: Codec, e: Evidence, before: Filters, pruned: seq<string>)
    requires ParseFilter(before.movies).Ok? && ParseFilter(before.television).Ok?
  {
    forall lbl :: lbl in pruned <==>
      MayPrune(k, e, lbl) && (lbl in OursIn(k, ParseFilter(before.movies).value)
                              || lbl in OursIn(k, ParseFilter(before.television).value))
  }

  method PlanField(k: Codec, row: OwnRow, wanted: seq<string>, pruned: seq<string>, current: string)
    returns (outcome: FieldOutcome)
    ensures outcome == SyncField(k, row, wanted, pruned, current)
  {
    var merged := PlanShareFilter(NamingOf(k), current, wanted, row);
    if merged.Err? {
      return if merged.error == Ambiguous then Unreadable else Failed;
    }
    if |pruned| > 0 {
      merged := RemoveLabelExcludes(NamingOf(k), merged.value, pruned);
    }
    outcome := if merged.Err? then Failed else Planned(merged.value);
  }

  method PlanBoth(k: Codec, row: OwnRow, wanted: seq<string>, pruned: seq<string>, before: Filters, collects: bool)
    returns (outcome: SyncOutcome)
    ensures var movies := SyncField(k, row, wanted, pruned, before.movies);
            var television := SyncField(k, row, wanted, pruned, before.television);
            outcome == Reported(collects, if movies.Failed? || television.Failed? then Raised
                                          else Synced(movies, television))
  {
    var movies := PlanField(k, row, wanted, pruned, before.movies);
    if movies.Failed? || (movies.Unreadable? && !collects) {
      return Raised;
    }
    var television := PlanField(k, row, wanted, pruned, before.television);
    if television.Failed? || (television.Unreadable? && !collects) {
      return Raised;
    }
    outcome := Synced(movies, television);
  }

  method SyncUserRestrictions(k: Codec, isOwner: bool, remote: Option<Remote>, e: Evidence, rowLabel: Option<string>,
                              collects: bool)
    returns (outcome: SyncOutcome, wanted: seq<string>, pruned: seq<string>)
    ensures outcome == Reported(collects, SyncAccount(k, isOwner, remote, e, rowLabel, wanted, pruned))
    ensures outcome.Synced? ==>
              && Lists(wanted, WantedBy(k, e))
              && ParseFilter(remote.value.filters.movies).Ok? && ParseFilter(remote.value.filters.television).Ok?
              && ListsPrunable(k, e, remote.value.filters, pruned)
  {
    hide SyncField;
    wanted, pruned := [], [];
    if LeftAlone(isOwner, remote) {
      return Skipped, wanted, pruned;
    }
    var excludes := DesiredExcludes(k, e.own, e.stored, e.account, e.shared, e.hideAllShared);
    wanted := ListOf(excludes);
    var before := remote.value.filters;
    var movies, television := ParseFilter(before.movies), ParseFilter(before.television);
    if movies.Err? || television.Err? {
      return Raised, wanted, pruned;
    }
    var prunable := Prunable(k, e, [movies.value, television.value]);
    pruned := ListOf(prunable);
    assert [movies.value, television.value][0] == movies.value;
    assert [movies.value, television.value][1] == television.value;
    outcome := PlanBoth(k, RowToAdmit(e, rowLabel, k.prefix), wanted, pruned, before, collects);
  }

  // ----- what a synced field holds -----

  /** The text reads as a filter that hides the label whichever grouping Plex uses. */
  ghost predicate Hides(k: Codec, text: string, lbl: string) {
    ParseFilter(text).Ok? && EnforcesLabel(NamingOf(k), ParseFilter(text).value, lbl)
  }

  /** The labels the server holds are ones a filter can carry, and the code tells them from everyone else's. */
  ghost predicate Sound(k: Codec, e: Evidence) {
    Faithful(k) && SaneNaming(NamingOf(k)) && PlainEvidence(k, e)
  }

  lemma PlanHides(k: Codec, row: OwnRow, wanted: seq<string>, current: string, w: string)
    requires SaneNaming(NamingOf(k)) && ShortlistLabels(NamingOf(k), wanted) && w in wanted
    requires Plan(NamingOf(k), current, wanted, row).Ok?
    ensures Hides(k, Plan(NamingOf(k), current, wanted, row).value, w)
    ensures Readable(Plan(NamingOf(k), current, wanted, row).value)
  {
    var n := NamingOf(k);
    var i :| 0 <= i < |wanted| && wanted[i] == w;
    PlanEnforcesWanted(n, current, wanted, row, i);
    var admitted := PlanIsMerged(n, PLAN_PASSES, current, wanted, row);
    MergeReadsBack(n, admitted, wanted);
  }

  lemma WantedNotBlank(k: Codec, wanted: seq<string>, w: string)
    requires SaneNaming(NamingOf(k)) && ShortlistLabels(NamingOf(k), wanted) && w in wanted
    ensures NamingOf(k).norm(w) != NamingOf(k).norm("")
  {
    var i :| 0 <= i < |wanted| && wanted[i] == w;
    assert ShortlistLabel(NamingOf(k), wanted[i]);
  }

  /** Whatever a field is set to hides every wanted label that was not pruned under another spelling. */
  lemma SyncedFieldHides(k: Codec, row: OwnRow, wanted: seq<string>, pruned: seq<string>, current: string, w: string)
    requires SaneNaming(NamingOf(k)) && ShortlistLabels(NamingOf(k), wanted) && w in wanted
    requires forall p :: p in pruned ==> Norm(k, p) != Norm(k, w)
    requires SyncField(k, row, wanted, pruned, current).Planned?
    ensures Hides(k, SyncField(k, row, wanted, pruned, current).text, w)
  {
    var n := NamingOf(k);
    PlanHides(k, row, wanted, current, w);
    WantedNotBlank(k, wanted, w);
    assert !Listed(n, w, pruned);
    RemoveKeepsEnforced(n, Plan(n, current, wanted, row).value, pruned, w);
  }

  ghost predicate PrivateLabel(k: Codec, w: string) {
    !(k.lower(k.sharedPrefix) <= k.lower(w))
  }

  /** After a sync, each field Plex can read hides every label the account must not see: a per-person row's always,
      a shared row's unless its exclude was pruned under a disguised spelling. */
  lemma SyncedAccountHides(k: Codec, isOwner: bool, remote: Option<Remote>, e: Evidence, rowLabel: Option<string>,
                           wanted: seq<string>, pruned: seq<string>, field: Field, w: string)
    requires Sound(k, e) && Lists(wanted, WantedBy(k, e)) && ShortlistLabels(NamingOf(k), wanted)
    requires forall p :: p in pruned ==> MayPrune(k, e, p)
    requires SyncAccount(k, isOwner, remote, e, rowLabel, wanted, pruned).Synced?
    requires SyncAccount(k, isOwner, remote, e, rowLabel, wanted, pruned).At(field).Planned?
    requires w in WantedBy(k, e) && (PrivateLabel(k, w) || forall p :: p in pruned ==> !Disguised(k, e, p))
    ensures Hides(k, SyncAccount(k, isOwner, remote, e, rowLabel, wanted, pruned).At(field).text, w)
  {
    forall p | p in pruned
      ensures Norm(k, p) != Norm(k, w)
    {
      if PrivateLabel(k, w) {
        PruneSparesPrivateRows(k, e, p, w);
      } else {
        PruneSparesWanted(k, e, p);
      }
    }
    SyncedFieldHides(k, RowToAdmit(e, rowLabel, k.prefix), wanted, pruned, remote.value.filters.At(field), w);
  }

  lemma SyncedField(k: Codec, isOwner: bool, remote: Option<Remote>, e: Evidence, rowLabel: Option<string>,
                    wanted: seq<string>, pruned: seq<string>, field: Field)
    requires SyncAccount(k, isOwner, remote, e, rowLabel, wanted, pruned).Synced?
    ensures remote.Some?
    ensures SyncAccount(k, isOwner, remote, e, rowLabel, wanted, pruned).At(field) ==
            SyncField(k, RowToAdmit(e, rowLabel, k.prefix), wanted, pruned, remote.value.filters.At(field))
  {
    hide SyncField;
    hide RowToAdmit;
  }

  lemma FieldPlannedOrUnreadable(k: Codec, row: OwnRow, wanted: seq<string>, pruned: seq<string>, current: string)
    requires SaneNaming(NamingOf(k)) && ShortlistLabels(NamingOf(k), wanted) && PlannableRow(NamingOf(k), row)
    requires ParseFilter(current).Ok?
    ensures Readable(current) ==> SyncField(k, row, wanted, pruned, current).Planned?
    ensures !Readable(current) ==> SyncField(k, row, wanted, pruned, current) == Unreadable
  {
    PlanRefusesOnlyUnreadable(NamingOf(k), current, wanted, row);
    if Readable(current) {
      RemoveResult(NamingOf(k), Plan(NamingOf(k), current, wanted, row).value, pruned);
    }
  }

  lemma PlannedReadable(k: Codec, row: OwnRow, wanted: seq<string>, pruned: seq<string>, current: string)
    requires SaneNaming(NamingOf(k)) && ShortlistLabels(NamingOf(k), wanted) && PlannableRow(NamingOf(k), row)
    requires SyncField(k, row, wanted, pruned, current).Planned?
    ensures Readable(current) && Readable(SyncField(k, row, wanted, pruned, current).text)
  {
    PlanRefusesOnlyUnreadable(NamingOf(k), current, wanted, row);
    if |pruned| > 0 {
      RemoveReadable(NamingOf(k), Plan(NamingOf(k), current, wanted, row).value, pruned);
    }
  }

  lemma UnparsedUnreadable(raw: string)
    ensures Readable(raw) ==> ParseFilter(raw).Ok?
  {
  }

  /** A field Plex cannot read is skipped alone: a sync raises only when a field does not parse at all, or for a caller
      that collects no unreadable fields, when there is one. */
  lemma SyncRaisesOnlyUnparseable(k: Codec, isOwner: bool, remote: Option<Remote>, e: Evidence,
                                  rowLabel: Option<string>, wanted: seq<string>, pruned: seq<string>)
    requires SaneNaming(NamingOf(k)) && ShortlistLabels(NamingOf(k), wanted)
    requires PlannableRow(NamingOf(k), RowToAdmit(e, rowLabel, k.prefix)) && !LeftAlone(isOwner, remote)
    ensures var outcome := SyncAccount(k, isOwner, remote, e, rowLabel, wanted, pruned);
            && (outcome.Raised? <==> exists f: Field :: ParseFilter(remote.value.filters.At(f)).Err?)
            && (outcome.Synced? ==> forall f: Field ::
                  outcome.At(f).Unreadable? <==> !Readable(remote.value.filters.At(f)))
            && (Reported(false, outcome).Raised? <==> exists f: Field :: !Readable(remote.value.filters.At(f)))
  {
    hide SyncField;
    hide Readable;
    hide RowToAdmit;
    hide SaneNaming;
    hide ShortlistLabels;
    hide PlannableRow;
    var row, before := RowToAdmit(e, rowLabel, k.prefix), remote.value.filters;
    assert before.At(Movies) == before.movies && before.At(Television) == before.television;
    UnparsedUnreadable(before.movies);
    UnparsedUnreadable(before.television);
    if ParseFilter(before.movies).Ok? && ParseFilter(before.television).Ok? {
      FieldPlannedOrUnreadable(k, row, wanted, pruned, before.movies);
      FieldPlannedOrUnreadable(k, row, wanted, pruned, before.television);
    }
  }
}
