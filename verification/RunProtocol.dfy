/** A whole run as a state machine: sweep, deliver, enumerate, read the roster, write every filter, read them back,
    promote, converge. Any step may fail, and deliveries interleave as they like. */
module RunProtocol {
  import opened Options
  import opened ShareFilter
  import opened MergeTheorems
  import opened AllowTheorems
  import opened SyncPrune
  import opened AccountSync
  import opened FilterReadBack

  /** What does not change during a run: how labels read, who owns which slug, and the owner's settings. */
  datatype Env = Env(codec: Codec, slugs: map<int, string>, owners: set<int>, unmanaged: set<int>, optedOut: set<int>,
                     profileKnown: set<int>, processed: set<int>, shared: SharedRows, departed: Option<set<string>>)

  /** A collection of ours on the server: the label Plex stored for it, and whether it is on anyone's Home. */
  datatype Row = Row(lbl: string, promoted: bool)

  datatype Phase = Sweeping | Delivering | Enumerated | Syncing | Verifying | Promoting | Converging | Finished

  /** What an account's fields were written as, where they were. */
  datatype Expected = Expected(movies: Option<string>, television: Option<string>) {
    function At(field: Field): Option<string> {
      if field.Movies? then movies else television
    }
  }

  datatype State = State(
    phase: Phase,
    rows: map<int, Row>,               // the server's collections, by rating key
    filters: map<int, Filters>,        // plex.tv's share filters, by account
    stored: map<string, string>,       // the labels the run knows of, by slug
    known: bool,                       // whether `stored` covers every row on the server
    marked: Option<set<int>>,          // the accounts whose rows carry a title marker
    roster: map<int, Remote>,          // plex.tv's account list, as the run read it
    pending: set<int>,                 // the accounts still to sync
    written: map<int, Expected>,       // what the read-back must find
    refused: set<int>,                 // the accounts Plex takes no label filter for
    failed: bool,                      // whether anything stands against promotion
    promoted: set<int>)                // the rows this run promoted

  /** How plex.tv answered a filter write. A write that raised may still have stored anything. */
  datatype Answer = Stored(filters: Filters) | Refused | Lost(filters: Filters)

  datatype Event =
    | SweepRow(key: int)
    | SweepDone
    | SweepFailed
    | CreateRow(key: int, lbl: string)
    | DropRow(key: int)
    | StoreLabel(slug: string, lbl: string)
    | EditFilters(filters: map<int, Filters>)
    | Enumerate(owned: map<string, string>, marked: Option<set<int>>)
    | EnumerateFailed
    | ReadRoster(roster: map<int, Remote>)
    | RosterFailed
    | SyncOne(account: int, wanted: seq<string>, pruned: seq<string>, answer: Answer)
    | AllSynced
    | ReadBack(reread: map<int, Filters>)
    | ReadBackFailed
    | Promote(key: int)
    | PromotionDone
    | Demote(key: int)
    | DeleteOrphan(key: int)
    | Finish

  // ----- labels -----

  function SlugLabel(env: Env, slug: string): string {
    env.codec.prefix + "_" + slug
  }

  /** A label one of our rows can carry. */
  ghost predicate RowLabel(env: Env, lbl: string) {
    PlainLabel(env.codec, lbl) && ShortlistLabel(NamingOf(env.codec), lbl) && OwnLabel(NamingOf(env.codec), lbl)
  }

  /** A label filed under a slug: a person's slug holds only that person's label. */
  ghost predicate FiledLabel(env: Env, slug: string, lbl: string) {
    && RowLabel(env, lbl)
    && (slug in env.slugs.Values ==> env.codec.lower(lbl) == env.codec.lower(SlugLabel(env, slug)))
  }

  ghost predicate FiledLabels(env: Env, stored: map<string, string>) {
    forall slug :: slug in stored ==> FiledLabel(env, slug, stored[slug])
  }

  /** Every row's label is one the run knows of. */
  ghost predicate Covers(env: Env, stored: map<string, string>, rows: map<int, Row>) {
    forall key :: key in rows ==> HoldsLabel(env, stored, rows[key].lbl)
  }

  ghost predicate HoldsLabel(env: Env, stored: map<string, string>, lbl: string) {
    exists slug :: slug in stored && env.codec.lower(stored[slug]) == env.codec.lower(lbl)
  }

  /** Configured shared labels are plain ones, filed in lower case, and a slug makes a label a row can carry. */
  ghost predicate GoodEnv(env: Env) {
    && Faithful(env.codec) && SaneNaming(NamingOf(env.codec))
    && (forall lbl :: lbl in env.shared ==> PlainLabel(env.codec, lbl) && env.codec.lower(lbl) == lbl)
    && (forall slug :: slug in env.slugs.Values && slug != "" ==> RowLabel(env, SlugLabel(env, slug)))
  }

  // ----- syncing one account -----

  function AccountSlug(env: Env, account: int): Option<string> {
    if account in env.slugs && env.slugs[account] != "" then Some(env.slugs[account]) else None
  }

  function MarkedSlugs(env: Env, marked: Option<set<int>>): Option<set<string>> {
    if marked.None? then None
    else Some(set account | account in env.slugs && account in marked.value :: env.slugs[account])
  }

  function EvidenceFor(env: Env, s: State, account: int): Evidence {
    var slug := AccountSlug(env, account);
    var own := if slug.Some? && slug.value in s.stored then Some(s.stored[slug.value]) else None;
    Evidence(own, s.stored, s.known, env.departed, MarkedSlugs(env, s.marked), env.shared, Some(account),
             account in env.optedOut)
  }

  function RosterEntry(s: State, account: int): Option<Remote> {
    if account in s.roster then Some(s.roster[account]) else None
  }

  function RowLabelOf(env: Env, account: int): Option<string> {
    var slug := AccountSlug(env, account);
    if slug.Some? then Some(SlugLabel(env, slug.value)) else None
  }

  function Outcome(env: Env, s: State, account: int, wanted: seq<string>, pruned: seq<string>): SyncOutcome {
    SyncAccount(env.codec, account in env.owners, RosterEntry(s, account), EvidenceFor(env, s, account),
                RowLabelOf(env, account), wanted, pruned)
  }

  /** What a field was written as, if it was. */
  function Change(outcome: FieldOutcome, before: string): Option<string> {
    if outcome.Planned? && outcome.text != before then Some(outcome.text) else None
  }

  function Changes(outcome: SyncOutcome, before: Filters): Expected
    requires outcome.Synced?
  {
    Expected(Change(outcome.movies, before.movies), Change(outcome.television, before.television))
  }

  predicate Untouched(expected: Expected) {
    expected.movies.None? && expected.television.None?
  }

  /** A write leaves the field it did not name alone. */
  predicate KeepsOther(expected: Expected, before: Filters, after: Filters) {
    forall field: Field :: expected.At(field).None? ==> after.At(field) == before.At(field)
  }

  /** Plex refuses label filters while a parental profile is set; one we could not ask about counts as set when the
      account is restricted. */
  predicate RefusalExplained(env: Env, s: State, account: int) {
    account in s.roster
    && (s.roster[account].profile != "" || (account !in env.profileKnown && s.roster[account].restricted))
  }

  function AfterWrite(env: Env, s: State, account: int, expected: Expected, answer: Answer): State {
    match answer
    case Stored(filters) =>
      s.(filters := s.filters[account := filters], written := s.written[account := expected])
    case Refused =>
      if RefusalExplained(env, s, account) then s.(refused := s.refused + {account}) else s.(failed := true)
    case Lost(filters) =>
      s.(filters := s.filters[account := filters], failed := true)
  }

  function AfterSync(env: Env, s: State, account: int, outcome: SyncOutcome, answer: Answer): Option<State> {
    match outcome
    case Skipped => Some(s)
    case Raised => Some(s.(failed := true))
    case Synced(_, _) =>
      if account !in s.roster then None
      else
        var before := s.roster[account].filters;
        var expected := Changes(outcome, before);
        if Untouched(expected) then Some(s)
        else if answer.Stored? && !KeepsOther(expected, before, answer.filters) then None
        else Some(AfterWrite(env, s, account, expected, answer))
  }

  /** An account the owner wants left alone: our excludes come back out, and nothing is checked. */
  function AfterLeaving(s: State, account: int, answer: Answer): State {
    if account in s.filters && !answer.Refused? then s.(filters := s.filters[account := answer.filters]) else s
  }

  function NextSync(env: Env, s: State, account: int, wanted: seq<string>, pruned: seq<string>, answer: Answer)
    : Option<State>
  {
    var t := s.(pending := s.pending - {account});
    if account in env.unmanaged then Some(AfterLeaving(t, account, answer))
    else AfterSync(env, t, account, Outcome(env, s, account, wanted, pruned), answer)
  }

  /** The lists a sync works from are those of the labels wanted and prunable there. */
  ghost predicate ListsFor(env: Env, s: State, account: int, wanted: seq<string>, pruned: seq<string>) {
    && Lists(wanted, WantedBy(env.codec, EvidenceFor(env, s, account)))
    && (account in s.roster && ParseFilter(s.roster[account].filters.movies).Ok?
        && ParseFilter(s.roster[account].filters.television).Ok? ==>
          ListsPrunable(env.codec, EvidenceFor(env, s, account), s.roster[account].filters, pruned))
  }

  // ----- the read-back -----

  function RereadField(reread: map<int, Filters>, account: int, field: Field): string {
    if account in reread then reread[account].At(field) else ""
  }

  predicate WroteField(s: State, account: int, field: Field) {
    account in s.written && s.written[account].At(field).Some?
  }

  /** Wherever a field was written, what came back enforces every exclude of ours that was. */
  ghost predicate AllKept(env: Env, s: State, reread: map<int, Filters>) {
    forall account, field: Field :: WroteField(s, account, field) ==>
      FieldKept(env.codec, s.written[account].At(field).value, RereadField(reread, account, field))
  }

  // ----- the machine -----

  ghost function NextBefore(env: Env, s: State, ev: Event): Option<State> {
    match ev
    case SweepRow(key) => if s.phase.Sweeping? then Some(s.(rows := s.rows - {key})) else None
    case SweepDone => if s.phase.Sweeping? then Some(s.(phase := Delivering)) else None
    case SweepFailed => if s.phase.Sweeping? then Some(s.(phase := Finished)) else None
    case CreateRow(key, lbl) =>
      if s.phase.Delivering? && RowLabel(env, lbl) then Some(s.(rows := s.rows[key := Row(lbl, false)])) else None
    case DropRow(key) => if s.phase.Delivering? then Some(s.(rows := s.rows - {key})) else None
    case StoreLabel(slug, lbl) =>
      if s.phase.Delivering? && FiledLabel(env, slug, lbl) then Some(s.(stored := s.stored[slug := lbl])) else None
    case EditFilters(filters) =>
      if s.phase.Delivering? || s.phase.Enumerated? then Some(s.(filters := filters)) else None
    case Enumerate(owned, marked) =>
      if s.phase.Delivering? && FiledLabels(env, owned) && Covers(env, owned, s.rows) then
        Some(s.(phase := Enumerated, stored := s.stored + owned, known := true, marked := marked,
                failed := s.failed || marked.None?))
      else None
    case EnumerateFailed => if s.phase.Delivering? then Some(s.(phase := Enumerated, failed := true)) else None
    case _ => None
  }

  ghost function NextAfter(env: Env, s: State, ev: Event): Option<State> {
    match ev
    case ReadRoster(roster) =>
      if s.phase.Enumerated? && roster.Keys == s.filters.Keys
         && (forall account :: account in roster ==> roster[account].filters == s.filters[account]) then
        Some(s.(phase := Syncing, roster := roster, pending := env.processed + roster.Keys))
      else None
    case RosterFailed => if s.phase.Enumerated? then Some(s.(phase := Finished)) else None
    case SyncOne(account, wanted, pruned, answer) =>
      if s.phase.Syncing? && account in s.pending && ListsFor(env, s, account, wanted, pruned) then
        NextSync(env, s, account, wanted, pruned, answer)
      else None
    case AllSynced => if s.phase.Syncing? && s.pending == {} then Some(s.(phase := Verifying)) else None
    case ReadBack(reread) =>
      if s.phase.Verifying? && reread.Keys <= s.filters.Keys
         && (forall account :: account in reread ==> reread[account] == s.filters[account]) then
        var failed := s.failed || !AllKept(env, s, reread);
        Some(s.(phase := if failed then Converging else Promoting, failed := failed))
      else None
    case ReadBackFailed =>
      if s.phase.Verifying? && s.written != map[] then Some(s.(phase := Converging, failed := true)) else None
    case Promote(key) =>
      if s.phase.Promoting? && key in s.rows then
        Some(s.(rows := s.rows[key := s.rows[key].(promoted := true)], promoted := s.promoted + {key}))
      else None
    case PromotionDone => if s.phase.Promoting? then Some(s.(phase := Converging)) else None
    case Demote(key) =>
      if s.phase.Converging? && key in s.rows && key !in s.promoted then
        Some(s.(rows := s.rows[key := s.rows[key].(promoted := false)]))
      else None
    case DeleteOrphan(key) =>
      if s.phase.Converging? && key !in s.promoted then Some(s.(rows := s.rows - {key})) else None
    case Finish => if s.phase.Converging? then Some(s.(phase := Finished)) else None
    case _ => None
  }

  ghost predicate Step(env: Env, s: State, ev: Event, t: State) {
    NextBefore(env, s, ev) == Some(t) || NextAfter(env, s, ev) == Some(t)
  }

  /** A run has started: nothing is known of the filters, and nothing has been promoted by it. */
  ghost predicate Initial(env: Env, s: State) {
    && s.phase.Sweeping? && s.promoted == {} && !s.failed && !s.known && s.refused == {} && s.written == map[]
    && FiledLabels(env, s.stored)
    && forall key :: key in s.rows ==> RowLabel(env, s.rows[key].lbl)
  }

  /** `states` is a run: each step is one the machine can take. */
  ghost predicate IsRun(env: Env, states: seq<State>, events: seq<Event>) {
    && |states| == |events| + 1
    && Initial(env, states[0])
    && forall i :: 0 <= i < |events| ==> Step(env, states[i], events[i], states[i + 1])
  }
}
