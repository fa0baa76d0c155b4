/** A run that goes well does promote: the safety of runs is not bought by never promoting anything. */
module RunWitness {
  import opened Options
  import opened FilterText
  import opened ShareFilter
  import opened FilterSemantics
  import opened MergeTheorems
  import opened SharePlan
  import opened SyncPrune
  import opened AccountSync
  import opened FilterReadBack
  import opened PruneEffects
  import opened RunProtocol
  import opened RunSafety
  import opened RunBlockers
  import opened RunCompletion
  import opened TextCodec

  // ----- a run up to its syncs -----

  /** One person's row, one other account, and nothing else. */
  ghost predicate Simple(env: Env, slug: string, w: string, account: int) {
    && GoodEnv(env) && FiledLabel(env, slug, w) && w != "" && PersonsRow(env, w)
    && account !in env.slugs && account !in env.owners && account !in env.unmanaged && env.processed == {}
  }

  /** Blank, or a text that parses but holds a literal `&`, so that Plex cannot read it. */
  ghost predicate BlankOrUnreadable(text: string) {
    text == "" || (ParseFilter(text).Ok? && !Readable(text))
  }

  function Begun(account: int, television: string): State {
    State(Sweeping, map[], map[account := Filters("", television)], map[], false, None, map[], {}, map[], {}, false, {})
  }

  function Delivered(account: int, television: string, w: string): State {
    Begun(account, television).(phase := Delivering, rows := map[1 := Row(w, false)])
  }

  function Enumerated(account: int, television: string, slug: string, w: string): State {
    Delivered(account, television, w).(phase := Phase.Enumerated, stored := map[slug := w], known := true,
                                       marked := Some({}))
  }

  function Opened(account: int, television: string, slug: string, w: string): State {
    Enumerated(account, television, slug, w).(phase := Syncing, pending := {account},
                                              roster := map[account := Remote(false, "", Filters("", television))])
  }

  lemma Delivers(env: Env, slug: string, w: string, account: int, television: string)
    requires Simple(env, slug, w, account)
    ensures var b, d := Begun(account, television), Delivered(account, television, w);
            && Step(env, b, SweepDone, b.(phase := Delivering))
            && Step(env, b.(phase := Delivering), CreateRow(1, w), d)
            && Step(env, d, Enumerate(map[slug := w], Some({})), Enumerated(account, television, slug, w))
  {
    var owned := map[slug := w];
    assert owned[slug] == w;
    assert HoldsLabel(env, owned, w);
    var s := Delivered(account, television, w);
    assert s.stored + owned == owned;
  }

  lemma Opens(env: Env, slug: string, w: string, account: int, television: string)
    requires Simple(env, slug, w, account)
    ensures Step(env, Enumerated(account, television, slug, w),
                 ReadRoster(map[account := Remote(false, "", Filters("", television))]),
                 Opened(account, television, slug, w))
  {
    var roster := map[account := Remote(false, "", Filters("", television))];
    assert roster.Keys == {account} && Enumerated(account, television, slug, w).filters.Keys == {account};
    assert env.processed + roster.Keys == {account};
  }

  /** The run as far as the roster. */
  lemma RunOpens(env: Env, slug: string, w: string, account: int, television: string)
    returns (states: seq<State>, events: seq<Event>)
    requires Simple(env, slug, w, account)
    ensures IsRun(env, states, events) && states[0] == Begun(account, television)
    ensures states[|events|] == Opened(account, television, slug, w)
  {
    hide Step;
    hide Simple;
    Delivers(env, slug, w, account, television);
    Opens(env, slug, w, account, television);
    states := [Begun(account, television), Begun(account, television).(phase := Delivering),
               Delivered(account, television, w), Enumerated(account, television, slug, w),
               Opened(account, television, slug, w)];
    events := [SweepDone, CreateRow(1, w), Enumerate(map[slug := w], Some({})),
               ReadRoster(map[account := Remote(false, "", Filters("", television))])];
    assert |states| == |events| + 1;
    forall i | 0 <= i < |events|
      ensures Step(env, states[i], events[i], states[i + 1])
    {
      assert i == 0 || i == 1 || i == 2 || i == 3;
    }
  }

  // ----- its one account -----

  lemma WantsTheRow(env: Env, slug: string, w: string, account: int, television: string)
    requires Simple(env, slug, w, account)
    ensures WantedBy(env.codec, EvidenceFor(env, Opened(account, television, slug, w), account)) == {w}
  {
    var e := EvidenceFor(env, Opened(account, television, slug, w), account);
    assert e.stored[slug] == w;
    assert e.own.None? && e.stored.Values == {w};
  }

  lemma BlankNamesNothing(v: string)
    ensures Readable("") && !NamesIn("", v)
  {
    assert ParseFilter("") == Ok([]);
  }

  /** Into a blank field goes the row's label alone, which no prune takes out, so the text passes its own check. */
  lemma BlankFieldKept(k: Codec, e: Evidence, row: OwnRow, wanted: seq<string>, pruned: seq<string>, w: string)
    requires Sound(k, e) && ShortlistLabels(NamingOf(k), wanted) && PlannableRow(NamingOf(k), row)
    requires Lists(wanted, WantedBy(k, e)) && WantedBy(k, e) == {w} && PrivateLabel(k, w)
    requires forall p :: p in pruned ==> MayPrune(k, e, p)
    requires SyncField(k, row, wanted, pruned, "").Planned?
    ensures FieldKept(k, SyncField(k, row, wanted, pruned, "").text, SyncField(k, row, wanted, pruned, "").text)
  {
    hide SyncField;
    hide LeftStanding;
    hide NamesIn;
    hide MayPrune;
    hide WantedBy;
    hide IsOurs;
    hide FieldKept;
    hide Readable;
    BlankNamesNothing(w);
    var text := SyncField(k, row, wanted, pruned, "").text;
    WrittenKeepsItself(k, row, wanted, pruned, "");
    forall v | v in OursInText(k, text)
      ensures !FilterMerge.Listed(NamingOf(k), v, pruned)
    {
      OursAreNamed(k, text, v);
      SyncFieldNames(k, row, wanted, pruned, "", v);
      BlankNamesNothing(v);
      forall i | 0 <= i < |pruned|
        ensures !SameValue(NamingOf(k), v, pruned[i])
      {
        PruneSparesPrivateRows(k, e, pruned[i], w);
      }
    }
  }

  lemma AccountSyncable(env: Env, slug: string, w: string, account: int, television: string)
    requires Simple(env, slug, w, account) && BlankOrUnreadable(television)
    ensures OnCourse(env, Opened(account, television, slug, w))
    ensures AllSyncable(env, Opened(account, television, slug, w))
  {
    hide GoodEnv;
    hide FiledLabel;
    hide FieldKept;
    hide ListsFor;
    hide Readable;
    var s := Opened(account, television, slug, w);
    BlankNamesNothing(w);
    forall wanted, pruned, field: Field |
      ListsFor(env, s, account, wanted, pruned) && Rewritten(env, s, account, wanted, pruned, field)
      ensures var text := Outcome(env, s, account, wanted, pruned).At(field).text;
              FieldKept(env.codec, text, text)
    {
      FieldPasses(env, slug, w, account, television, wanted, pruned, field);
    }
  }

  lemma FieldPasses(env: Env, slug: string, w: string, account: int, television: string, wanted: seq<string>,
                    pruned: seq<string>, field: Field)
    requires Simple(env, slug, w, account) && BlankOrUnreadable(television)
    requires ListsFor(env, Opened(account, television, slug, w), account, wanted, pruned)
    requires Rewritten(env, Opened(account, television, slug, w), account, wanted, pruned, field)
    ensures var text := Outcome(env, Opened(account, television, slug, w), account, wanted, pruned).At(field).text;
            FieldKept(env.codec, text, text)
  {
    hide GoodEnv;
    hide FiledLabels;
    hide FieldKept;
    hide SyncField;
    hide SyncAccount;
    hide RowToAdmit;
    hide Readable;
    hide Sound;
    hide WantedBy;
    hide MayPrune;
    hide ParseFilter;
    var s := Opened(account, television, slug, w);
    var k, e := env.codec, EvidenceFor(env, s, account);
    var row := RowToAdmit(e, RowLabelOf(env, account), k.prefix);
    FiledOne(env, slug, w);
    EvidenceSound(env, s, account);
    ListedAreShortlist(env, s, account, wanted, pruned);
    RowPlannable(env, s, account);
    WantsTheRow(env, slug, w, account, television);
    BlankNamesNothing(w);
    GoodEnvSane(env);
    SyncedField(k, account in env.owners, RosterEntry(s, account), e, RowLabelOf(env, account), wanted, pruned, field);
    PlannedReadable(k, row, wanted, pruned, s.roster[account].filters.At(field));
    PrunedArePrunable(env, s, account, wanted, pruned);
    BlankFieldKept(k, e, row, wanted, pruned, w);
  }

  lemma FiledOne(env: Env, slug: string, w: string)
    requires FiledLabel(env, slug, w)
    ensures FiledLabels(env, map[slug := w])
  {
  }

  lemma PrunedArePrunable(env: Env, s: State, account: int, wanted: seq<string>, pruned: seq<string>)
    requires ListsFor(env, s, account, wanted, pruned) && account in s.roster
    requires ParseFilter(s.roster[account].filters.movies).Ok?
    requires ParseFilter(s.roster[account].filters.television).Ok?
    ensures forall p :: p in pruned ==> MayPrune(env.codec, EvidenceFor(env, s, account), p)
  {
  }

  /** From a server with one other account, each of whose fields is blank or, for television, one Plex cannot read, a
      run that meets no failure promotes the row it delivered, and by then the account's blank fields hide it. */
  lemma SomeRunPromotes(env: Env, slug: string, w: string, account: int, television: string)
    returns (states: seq<State>, events: seq<Event>)
    requires Simple(env, slug, w, account) && BlankOrUnreadable(television)
    ensures IsRun(env, states, events) && 1 in states[|events|].promoted
    ensures states[0] == Begun(account, television)
    ensures states[|events|].rows == map[1 := Row(w, true)] && account in states[|events|].filters
    ensures Hides(env.codec, states[|events|].filters[account].movies, w)
    ensures television == "" ==> Hides(env.codec, states[|events|].filters[account].television, w)
  {
    hide Step;
    hide GoodEnv;
    hide FiledLabel;
    hide Hides;
    hide OnCourse;
    hide AllSyncable;
    hide Readable;
    hide PersonsRow;
    var begun, evs := RunOpens(env, slug, w, account, television);
    AccountSyncable(env, slug, w, account, television);
    states, events := UnblockedRunsPromote(env, begun, evs);
    var s, t := Opened(account, television, slug, w), states[|events|];
    assert 1 in s.rows && t.rows[1] == Row(w, true) && 1 in t.promoted * s.rows.Keys;
    OneRow(t.rows, w);
    BlankNamesNothing(w);
    RowHidden(env, states, events, account, w, Movies);
    if television == "" {
      RowHidden(env, states, events, account, w, Television);
    }
  }

  lemma OneRow(rows: map<int, Row>, w: string)
    requires rows.Keys == map[1 := Row(w, false)].Keys && rows[1] == Row(w, true)
    ensures rows == map[1 := Row(w, true)]
  {
    assert 1 in rows.Keys;
  }

  lemma RowHidden(env: Env, states: seq<State>, events: seq<Event>, account: int, w: string, field: Field)
    requires GoodEnv(env) && IsRun(env, states, events) && PersonsRow(env, w)
    requires account !in env.slugs && account !in env.owners && account !in env.unmanaged
    requires var t := states[|events|];
             && 1 in t.rows && t.rows[1].lbl == w && 1 in t.promoted && t.refused == {} && account in t.roster
             && t.roster[account].filters.At(field) == "" && !t.roster[account].restricted
    ensures account in states[|events|].filters
    ensures Hides(env.codec, states[|events|].filters[account].At(field), w)
  {
    hide GoodEnv;
    hide Initial;
    hide Step;
    hide PersonsRow;
    hide Hides;
    hide Readable;
    hide NamesIn;
    BlankNamesNothing(w);
    forall v
      ensures !NamesIn("", v)
    {
      BlankNamesNothing(v);
    }
    KnownBySightIsConfirmable(env, states, events, |events|, 1, account, field);
    PromotedRowIsHidden(env, states, events, |events|, 1, account, field);
  }

  const AMBIGUOUS := Condition("label", IsNot, ["A&B"], '|', [])

  lemma AmbiguousText()
    ensures Serialize([AMBIGUOUS]) == "label!=A&B"
  {
    assert JoinedValues(AMBIGUOUS) == "A&B" && OpText(IsNot) == "!=";
    assert "label" + "!=" + "A&B" == "label!=A&B";
    assert ToPieces([AMBIGUOUS])[0] == Piece("label!=A&B", '|');
    assert ToPieces([AMBIGUOUS]) == [Piece("label!=A&B", '|')];
    JoinSnoc([], Piece("label!=A&B", '|'));
  }

  lemma AmbiguousPieces()
    ensures !AllHaveOperator(Pieces("label!=A&B", CONDITION_SEPS))
  {
    hide Pieces;
    PiecesAppend("label!=A", '&', "B", CONDITION_SEPS);
    var ps := Pieces("label!=A&B", CONDITION_SEPS);
    assert "label!=A" + ['&'] + "B" == "label!=A&B";
    assert ps[|ps| - 1].text == "B";
  }

  lemma AmbiguousClean()
    ensures Clean(AMBIGUOUS)
  {
    assert forall i :: 0 <= i < |"label"| ==> "label"[i] !in FIELD_STOPS;
  }

  /** A field that parses, and that Plex cannot read for the `&` in its label. */
  lemma SomeFieldIsUnreadable()
    ensures BlankOrUnreadable("label!=A&B")
  {
    hide Pieces;
    hide Clean;
    hide ParseFilter;
    hide ToPieces;
    AmbiguousText();
    AmbiguousPieces();
    AmbiguousClean();
    SerializeRoundTrip([AMBIGUOUS]);
    assert '&' in AMBIGUOUS.values[0];
  }

  lemma PlainShortlistLabel()
    ensures PlainLabel(Shortlist(), "shortlist_a") && Lower("shortlist_a") == "shortlist_a"
    ensures Norm(Shortlist(), "shortlist_a") == "shortlist_a"
  {
    hide Decode;
    var w := "shortlist_a";
    assert forall i :: 0 <= i < |w| ==> w[i] != '%' && LowerChar(w[i]) == w[i] != LONG_S;
    NothingEncoded(w);
    SameLetters(w);
  }

  lemma ShortlistLabelA(env: Env)
    requires env.codec == Shortlist()
    ensures RowLabel(env, "shortlist_a")
    ensures PrivateLabel(Shortlist(), "shortlist_a")
  {
    hide Decode;
    hide NoNe;
    hide NoValueSep;
    hide Free;
    var w := "shortlist_a";
    PlainText(w);
    PlainShortlistLabel();
    PrefixIsLower();
    NothingEncoded("");
    assert PREFIX + "_" == "shortlist_" <= w;
    assert w[10] == 'a' && SHARED_PREFIX[10] == '_';
  }

  lemma SlugA(env: Env)
    requires env.codec == Shortlist()
    ensures SlugLabel(env, "a") == "shortlist_a"
  {
    assert PREFIX + "_" + "a" == "shortlist_a";
  }

  lemma OneSlug(slugs: map<int, string>)
    requires slugs == map[8 := "a"]
    ensures forall slug :: slug in slugs.Values ==> slug == "a"
  {
  }

  lemma EnvIsGood(env: Env)
    requires env.codec == Shortlist() && env.slugs == map[8 := "a"] && env.shared == map[]
    ensures GoodEnv(env) && FiledLabel(env, "a", "shortlist_a")
  {
    hide RowLabel;
    hide Faithful;
    hide SaneNaming;
    hide SlugLabel;
    hide Shortlist;
    OneSlug(env.slugs);
    ShortlistIsFaithful();
    ShortlistLabelA(env);
    SlugA(env);
  }

  /** Such a server exists, reading labels by decoding and folding them, with a row labelled `shortlist_a` for the
      person of slug `a`. */
  lemma SimpleServer() returns (env: Env, slug: string, w: string, account: int)
    ensures Simple(env, slug, w, account) && env.codec == Shortlist() && env.slugs == map[8 := slug]
  {
    hide GoodEnv;
    hide FiledLabel;
    hide PrivateLabel;
    hide Shortlist;
    env := Env(Shortlist(), map[8 := "a"], {}, {}, {}, {}, {}, map[], None);
    slug, w, account := "a", "shortlist_a", 7;
    EnvIsGood(env);
    ShortlistLabelA(env);
  }
}
