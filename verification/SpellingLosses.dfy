/** What becomes of labels spelt in ways the program only half recognises, with labels read as it reads them. */
module SpellingLosses {
  import opened Options
  import opened FilterText
  import opened ShareFilter
  import opened FilterSemantics
  import opened FilterEdits
  import opened FilterMerge
  import opened FilterRemove
  import opened MergeTheorems
  import opened SharePlan
  import opened PlanPasses
  import opened SyncPrune
  import opened AccountSync
  import opened PruneEffects
  import opened FilterReadBack
  import opened TextCodec
  import opened Counterexamples

  // ----- filters of one clause -----

  /** A filter of the one exclude. */
  function Excluding(v: string): seq<Condition> {
    [Hiding([v], '|')]
  }

  lemma ExcludingReads(v: string)
    requires v != "" && Free(v, CONDITION_SEPS) && NoValueSep(v)
    ensures ParseFilter(Serialize(Excluding(v))) == Ok(Excluding(v)) && !LiteralAmpersand(Excluding(v))
  {
    hide NoValueSep;
    var cs := Excluding(v);
    FreeBoth(v);
    assert Clean(cs[0]) && NoAmpersand(cs);
    SerializeRoundTrip(cs);
    NoLiteralAmpersand(cs);
  }

  // ----- a loss the read-back cannot notice -----

  /** A filter of one clause that hides a label under some spelling. */
  ghost predicate Alone(n: Naming, cs: seq<Condition>, v: string, x: string) {
    cs == Excluding(v) && SameValue(n, v, x)
  }

  /** A spelling not recognised as ours. */
  ghost predicate OtherwiseSpelt(n: Naming, cs: seq<Condition>, v: string, x: string) {
    Alone(n, cs, v, x) && !n.ours(v)
  }

  lemma AloneIsKept(n: Naming, cs: seq<Condition>, v: string, x: string)
    requires Alone(n, cs, v, x)
    ensures Lifted(n, cs) == cs && FrontRun(n, cs) == 0
    ensures forall u :: EnforcesLabel(n, cs, u) <==> SameValue(n, u, x)
  {
    assert LiftEdits(n, cs)[0] == Some(cs[0]);
    CollectAll(cs, LiftEdits(n, cs));
    forall u
      ensures EnforcesLabel(n, cs, u) <==> SameValue(n, u, x)
    {
      assert IsTarget(cs, 0);
      if SameValue(n, u, x) {
        assert SameValue(n, u, cs[0].values[0]);
      }
    }
  }

  /** Merging adds the label in no other spelling. */
  lemma SpellingKept(n: Naming, cs: seq<Condition>, v: string, x: string, wanted: seq<string>, u: string)
    requires OtherwiseSpelt(n, cs, v, x)
    requires Names(ReadBack(MergedConditions(n, cs, wanted)), u) && SameValue(n, u, x)
    ensures u == v
  {
    AloneIsKept(n, cs, v, x);
    var missing := Missing(n, Wanted(n, cs, wanted), cs);
    ReadBackNames(MergedConditions(n, cs, wanted), u);
    if |missing| > 0 {
      PlaceNames(cs, missing, HouseValueSep(cs), u);
    }
  }

  const LONG_X := [LONG_S] + "hortlist_x"

  function LongFilter(): seq<Condition> {
    Excluding(LONG_X)
  }

  /** `ſhortlist_x` folds to `shortlist_x`, but does not begin with our prefix. */
  lemma LongReads()
    ensures Norm(Shortlist(), LONG_X) == Label('x') == Norm(Shortlist(), Label('x'))
    ensures !IsOurs(Shortlist(), LONG_X) && Norm(Shortlist(), Label('y')) == Label('y')
    ensures forall j :: 0 <= j < |LONG_X| ==> LONG_X[j] !in {',', '%', '|', '&', '=', '!'}
  {
    hide Decode;
    LabelReads('x');
    LabelReads('y');
    NothingEncoded(LONG_X);
    assert Fold(LONG_X) == Label('x');
    assert Lower(LONG_X)[0] == LONG_S;
    PrefixIsLower();
    assert (PREFIX + "_")[0] == 's';
  }

  lemma LongFilterReads()
    ensures ParseFilter(Serialize(LongFilter())) == Ok(LongFilter()) && !LiteralAmpersand(LongFilter())
  {
    hide Free;
    hide NoValueSep;
    LongReads();
    PlainText(LONG_X);
    ExcludingReads(LONG_X);
  }

  lemma LongPlan(wanted: seq<string>) returns (text: string)
    requires ShortlistLabels(Labels(), wanted) && SaneNaming(Labels())
    ensures Plan(Labels(), Serialize(LongFilter()), wanted, NO_ROW) == Ok(text)
    ensures ParseFilter(text) == Ok(ReadBack(MergedConditions(Labels(), LongFilter(), wanted))) && Readable(text)
    ensures !EnforcesLabel(Labels(), LongFilter(), Label('y'))
  {
    hide Plan;
    hide Merge;
    hide Label;
    hide Labels;
    hide LongFilter;
    hide MergedConditions;
    hide EnforcesLabel;
    LongFilterReads();
    LongIsOtherwise();
    AloneIsKept(Labels(), LongFilter(), LONG_X, Label('x'));
    PlanIsMerge(Labels(), Serialize(LongFilter()), wanted, NO_ROW);
    text := Merge(Labels(), Serialize(LongFilter()), wanted).value;
    MergeReadsBack(Labels(), Serialize(LongFilter()), wanted);
  }

  lemma NotBlankPlan(k: Codec, row: OwnRow, wanted: seq<string>, current: string, text: string)
    requires Plan(NamingOf(k), current, wanted, row) == Ok(text)
    ensures SyncField(k, row, wanted, [], current) == Planned(text)
  {
  }

  /** From `label!=ſhortlist_x` a sync that must hide `shortlist_x` and `shortlist_y` writes a text that hides both.
      The read-back accepts in its place a text that shows `shortlist_x`: folding took the first spelling for the
      label, so it was not added again, and the check, which lower-cases, does not take it for one of ours. */
  lemma LossGoesUnnoticed() returns (text: string, got: string)
    ensures SyncField(Shortlist(), NO_ROW, LabelsFor("xy"), [], Serialize(LongFilter())) == Planned(text)
    ensures text != Serialize(LongFilter())
    ensures Hides(Shortlist(), text, Label('x')) && Hides(Shortlist(), text, Label('y'))
    ensures FieldKept(Shortlist(), text, got) && !Hides(Shortlist(), got, Label('x'))
  {
    hide Plan;
    hide SyncField;
    hide Label;
    hide LongFilter;
    hide MergedConditions;
    hide EnforcesLabel;
    hide ShortlistLabel;
    hide Shortlist;
    hide FieldKept;
    hide SpeltAsOurs;
    hide Readable;
    var raw, wanted := Serialize(LongFilter()), LabelsFor("xy");
    LabelsWritable("xy");
    text := LongPlan(wanted);
    NotBlankPlan(Shortlist(), NO_ROW, wanted, raw, text);
    LongHides(text, wanted);
    LongFilterReads();
    LongStays(text, wanted);
    got := UnnoticedLoss(Shortlist(), text, Label('x'));
  }

  lemma LongHides(text: string, wanted: seq<string>)
    requires wanted == LabelsFor("xy") && ShortlistLabels(Labels(), wanted) && SaneNaming(Labels())
    requires Plan(Labels(), Serialize(LongFilter()), wanted, NO_ROW) == Ok(text)
    ensures Hides(Shortlist(), text, Label('x')) && Hides(Shortlist(), text, Label('y'))
  {
    hide Plan;
    hide Hides;
    hide Label;
    hide LongFilter;
    hide ShortlistLabel;
    assert wanted[0] in wanted && wanted[1] in wanted;
    PlanHides(Shortlist(), NO_ROW, wanted, Serialize(LongFilter()), wanted[0]);
    PlanHides(Shortlist(), NO_ROW, wanted, Serialize(LongFilter()), wanted[1]);
  }

  lemma LongIsOtherwise()
    ensures OtherwiseSpelt(Labels(), LongFilter(), LONG_X, Label('x')) && !SameValue(Labels(), Label('y'), Label('x'))
  {
    LongReads();
    assert Label('x')[10] != Label('y')[10];
  }

  lemma LongStays(text: string, wanted: seq<string>)
    requires ParseFilter(text) == Ok(ReadBack(MergedConditions(Labels(), LongFilter(), wanted)))
    ensures !SpeltAsOurs(Shortlist(), text, Label('x'))
  {
    hide MergedConditions;
    hide LongFilter;
    hide Label;
    hide Names;
    LongIsOtherwise();
    if SpeltAsOurs(Shortlist(), text, Label('x')) {
      var v :| v in OursInText(Shortlist(), text) && Norm(Shortlist(), v) == Norm(Shortlist(), Label('x'));
      OursAreNamed(Shortlist(), text, v);
      SpellingKept(Labels(), LongFilter(), LONG_X, Label('x'), wanted, v);
      assert false;
    }
  }

  // ----- a wanted label pruned in disguise -----

  const SHARED_A := "shortlist__shared_a"
  const ESCAPED_A := "shortlist__shared_%61"

  lemma DecodesEscape()
    ensures Decode("%61") == "a"
  {
    assert HexValue('6') == 6 && HexValue('1') == 1;
    assert "%61"[3..] == "" && Decode("") == "";
  }

  lemma EscapedDecodes()
    ensures Decode(ESCAPED_A) == SHARED_A == Decode(SHARED_A)
  {
    hide Decode;
    assert ESCAPED_A == SHARED_PREFIX + "%61" && SHARED_A == SHARED_PREFIX + "a";
    assert forall i :: 0 <= i < |SHARED_PREFIX| ==> SHARED_PREFIX[i] != '%';
    DecodesPlainStart(SHARED_PREFIX, "%61");
    DecodesEscape();
    NothingEncoded(SHARED_A);
  }

  lemma SharedPlain()
    ensures forall i :: 0 <= i < |SHARED_A| ==>
              SHARED_A[i] !in {',', '%', '|', '&', '=', '!', LONG_S} && LowerChar(SHARED_A[i]) == SHARED_A[i]
    ensures Lower(SHARED_A) == SHARED_A == Fold(SHARED_A)
  {
    assert forall i :: 0 <= i < |SHARED_A| ==>
      SHARED_A[i] !in {',', '%', '|', '&', '=', '!', LONG_S} && LowerChar(SHARED_A[i]) == SHARED_A[i];
    SameLetters(SHARED_A);
  }

  /** The escaped spelling folds to the label and is recognised as ours, but lower-cases to something else. */
  lemma EscapedReads()
    ensures Norm(Shortlist(), ESCAPED_A) == SHARED_A == Norm(Shortlist(), SHARED_A)
    ensures IsOurs(Shortlist(), ESCAPED_A) && IsOurs(Shortlist(), SHARED_A)
    ensures PlainLabel(Shortlist(), SHARED_A) && Shortlist().lower(SHARED_A) == SHARED_A
    ensures Disguises(Shortlist(), ESCAPED_A, SHARED_A)
  {
    hide Decode;
    EscapedDecodes();
    SharedPlain();
    PrefixIsLower();
    assert PREFIX + "_" == "shortlist_" <= SHARED_A;
    assert SHARED_PREFIX <= Lower(ESCAPED_A);
    assert Lower(ESCAPED_A)[18] == '%' != SHARED_A[18];
  }

  lemma SharedWritable()
    ensures ShortlistLabels(Labels(), [SHARED_A]) && SaneNaming(Labels())
  {
    hide Shortlist;
    hide NoValueSep;
    hide Free;
    hide NoNe;
    hide IsOurs;
    EscapedReads();
    SharedPlain();
    PlainText(SHARED_A);
    ShortlistIsFaithful();
  }

  /** A server whose one row is a shared one that this account may not see. */
  function SharedEvidence(): Evidence {
    Evidence(None, map["_shared_a" := SHARED_A], true, None, None, map[SHARED_A := Some({})], Some(7), false)
  }

  lemma SharedIsWanted()
    ensures Sound(Shortlist(), SharedEvidence()) && WantedBy(Shortlist(), SharedEvidence()) == {SHARED_A}
    ensures Existing(Shortlist(), SharedEvidence()).Some?
    ensures RowToAdmit(SharedEvidence(), None, PREFIX).own.None?
  {
    hide Norm;
    hide Faithful;
    hide SaneNaming;
    hide Shortlist;
    hide PlainLabel;
    EscapedReads();
    ShortlistIsFaithful();
    var e := SharedEvidence();
    assert e.stored["_shared_a"] == SHARED_A && e.stored.Values == {SHARED_A};
  }

  lemma EscapedWritable()
    ensures Free(ESCAPED_A, CONDITION_SEPS) && NoValueSep(ESCAPED_A)
  {
    var v := ESCAPED_A;
    assert forall i :: 0 <= i < |v| ==> v[i] !in {',', '|', '&', '2', 'c', 'C'};
    forall i | 0 <= i < |v|
      ensures SepLen(v, i) == 0
    {
      assert i + 1 < |v| ==> v[i + 1] != '2';
    }
  }

  lemma ExcludingPruned(n: Naming, v: string, raw: string, pruned: seq<string>)
    requires ParseFilter(raw) == Ok(Excluding(v)) && Listed(n, v, pruned)
    ensures Remove(n, raw, pruned) == Ok("")
  {
    var cs := Excluding(v);
    NothingLeft(n, cs[0], pruned);
    var edits := RemoveEdits(n, cs, pruned);
    assert edits[0] == None && edits[..0] == [];
    assert Collect(edits) == Collect(edits[..0]) == [];
    assert ToPieces([]) == [];
  }

  lemma EscapedFilterReads()
    ensures ParseFilter(Serialize(Excluding(ESCAPED_A))) == Ok(Excluding(ESCAPED_A))
    ensures !LiteralAmpersand(Excluding(ESCAPED_A))
    ensures OursIn(Shortlist(), Excluding(ESCAPED_A)) == {ESCAPED_A}
  {
    hide ParseFilter;
    hide Serialize;
    hide LiteralAmpersand;
    hide Excluding;
    hide Norm;
    hide Shortlist;
    hide Free;
    hide NoValueSep;
    hide IsOurs;
    EscapedWritable();
    EscapedReads();
    ExcludingReads(ESCAPED_A);
    OursOfExcluding(Shortlist(), ESCAPED_A);
  }

  lemma OursOfExcluding(k: Codec, v: string)
    requires IsOurs(k, v)
    ensures OursIn(k, Excluding(v)) == {v}
  {
    hide IsOurs;
    assert Excluding(v)[0].values[0] == v;
  }

  /** The filter that already hides the label, in disguise, is planned as it is; pruning then empties it. */
  lemma EscapedEmptied(row: OwnRow)
    requires row.own.None?
    ensures SyncField(Shortlist(), row, [SHARED_A], [ESCAPED_A], Serialize(Excluding(ESCAPED_A))) == Planned("")
  {
    hide ParseFilter;
    hide Serialize;
    hide LiteralAmpersand;
    hide EnforcesLabel;
    hide Lifted;
    hide FrontRun;
    hide MergedConditions;
    hide Excluding;
    hide ShortlistLabels;
    hide Merge;
    hide PlanFrom;
    hide Remove;
    hide Shortlist;
    hide Norm;
    hide IsOurs;
    var n, cs, raw := Labels(), Excluding(ESCAPED_A), Serialize(Excluding(ESCAPED_A));
    EscapedFilterReads();
    EscapedReads();
    SharedWritable();
    AloneIsKept(n, cs, ESCAPED_A, SHARED_A);
    AlreadyHides(n, raw, cs, ESCAPED_A, SHARED_A);
    PlanIsMerge(n, raw, [SHARED_A], row);
    SameListed(n, ESCAPED_A);
    ExcludingPruned(n, ESCAPED_A, raw, [ESCAPED_A]);
  }

  lemma SameListed(n: Naming, v: string)
    ensures Listed(n, v, [v])
  {
    assert SameValue(n, v, [v][0]);
  }

  lemma AlreadyHides(n: Naming, raw: string, cs: seq<Condition>, v: string, x: string)
    requires ParseFilter(raw) == Ok(cs) && !LiteralAmpersand(cs) && Alone(n, cs, v, x)
    ensures Merge(n, raw, [x]) == Ok(raw)
  {
    hide ParseFilter;
    hide Serialize;
    AloneIsKept(n, cs, v, x);
    assert LiftEdit(n, cs, 0) == Some(cs[0]) && !LiftChanges(n, cs);
    assert Carried(n, cs) == CarriedUpTo(n, cs, 0) == [];
    assert [] + [x] == [x];
    assert Missing(n, Wanted(n, cs, [x]), cs) == [];
  }

  lemma EmptyPlanned(n: Naming, w: string, row: OwnRow)
    requires row.own.None? && ShortlistLabels(n, [w]) && SaneNaming(n) && w != ""
    ensures Plan(n, "", [w], row) == Ok(Serialize(Excluding(w)))
    ensures ParseFilter(Serialize(Excluding(w))) == Ok(Excluding(w)) && Serialize(Excluding(w)) != ""
  {
    hide Merge;
    hide Plan;
    hide MergedConditions;
    assert ParseFilter("") == Ok([]) && Lifted(n, []) == [];
    PlanIsMerge(n, "", [w], row);
    MergeReadsBack(n, "", [w]);
    MergedAlone(n, w);
  }

  /** An empty filter is planned as the one exclude, which pruning takes out again. */
  lemma EmptyEmptied(row: OwnRow)
    requires row.own.None?
    ensures SyncField(Shortlist(), row, [SHARED_A], [ESCAPED_A], "") == Planned("")
    ensures SyncField(Shortlist(), row, [SHARED_A], [], "") == Planned(Serialize(Excluding(SHARED_A)))
    ensures Serialize(Excluding(SHARED_A)) != ""
  {
    hide Plan;
    hide Remove;
    hide Shortlist;
    hide Norm;
    hide IsOurs;
    hide Excluding;
    hide ShortlistLabels;
    EscapedReads();
    SharedWritable();
    EmptyPlanned(Labels(), SHARED_A, row);
    assert Listed(Labels(), SHARED_A, [ESCAPED_A]) by {
      assert SameValue(Labels(), SHARED_A, [ESCAPED_A][0]);
    }
    ExcludingPruned(Labels(), SHARED_A, Serialize(Excluding(SHARED_A)), [ESCAPED_A]);
  }

  lemma OneDistinct(n: Naming, w: string)
    ensures Distinct(n, [w]) == [w]
  {
    assert [w][..0] == [];
    assert Distinct(n, [w][..0]) == [] && !Listed(n, w, []);
  }

  lemma OneMissing(n: Naming, w: string)
    ensures Missing(n, [w], []) == [w]
  {
    assert [w][..0] == [];
    assert Missing(n, [w][..0], []) == [] && !EnforcesLabel(n, [], w);
  }

  lemma OneWanted(n: Naming, w: string)
    ensures Lifted(n, []) == [] && Wanted(n, [], [w]) == [w] && Missing(n, [w], []) == [w]
  {
    hide Distinct;
    hide Missing;
    OneDistinct(n, w);
    OneMissing(n, w);
    assert Carried(n, []) == [] && [] + [w] == [w];
  }

  lemma MergedAlone(n: Naming, w: string)
    requires w != ""
    ensures ReadBack(MergedConditions(n, [], [w])) == Excluding(w)
  {
    hide Lifted;
    hide Wanted;
    hide Missing;
    OneWanted(n, w);
    var merged := [Condition("label", IsNot, [w], '&', [])];
    assert Place([], [w], ",") == merged;
    assert MergedConditions(n, [], [w]) == merged;
    assert Blanked(merged[0]) == merged[0];
  }

  function BeforeSync(): Filters {
    Filters(Serialize(Excluding(ESCAPED_A)), "")
  }

  lemma EscapedIsPrunable()
    ensures ParseFilter(BeforeSync().movies).Ok? && ParseFilter(BeforeSync().television).Ok?
    ensures ListsPrunable(Shortlist(), SharedEvidence(), BeforeSync(), [ESCAPED_A])
  {
    hide MayPrune;
    hide Shortlist;
    hide Norm;
    hide OursIn;
    hide SharedEvidence;
    hide Excluding;
    EscapedFilterReads();
    EscapedReads();
    SharedIsWanted();
    assert ParseFilter("") == Ok([]);
    NoneOurs(Shortlist());
    SpellingPrunedExactly(Shortlist(), SharedEvidence(), ESCAPED_A, SHARED_A);
  }

  lemma NoneOurs(k: Codec)
    ensures OursIn(k, []) == {}
  {
  }

  /** An account whose movie filter hides a shared row's label in a percent-encoded spelling only. The sync empties
      both its filters, so the row it must not see is not hidden by either; the next sync puts the label back. */
  lemma DisguiseUncovers() returns (row: OwnRow)
    ensures Sound(Shortlist(), SharedEvidence()) && WantedBy(Shortlist(), SharedEvidence()) == {SHARED_A}
    ensures ParseFilter(BeforeSync().movies).Ok? && ParseFilter(BeforeSync().television).Ok?
    ensures ListsPrunable(Shortlist(), SharedEvidence(), BeforeSync(), [ESCAPED_A])
    ensures SyncAccount(Shortlist(), false, Some(Remote(false, "", BeforeSync())), SharedEvidence(), None, [SHARED_A],
                        [ESCAPED_A]) == Synced(Planned(""), Planned(""))
    ensures Hides(Shortlist(), BeforeSync().movies, SHARED_A) && !Hides(Shortlist(), "", SHARED_A)
    ensures row == RowToAdmit(SharedEvidence(), None, PREFIX)
    ensures ListsPrunable(Shortlist(), SharedEvidence(), Filters("", ""), [])
    ensures SyncField(Shortlist(), row, [SHARED_A], [], "") == Planned(Serialize(Excluding(SHARED_A)))
    ensures Serialize(Excluding(SHARED_A)) != ""
  {
    hide SyncField;
    hide WantedBy;
    hide MayPrune;
    hide OursIn;
    hide Norm;
    hide Excluding;
    hide Faithful;
    hide PlainEvidence;
    hide SharedEvidence;
    hide RowToAdmit;
    row := RowToAdmit(SharedEvidence(), None, PREFIX);
    SharedIsWanted();
    EscapedIsPrunable();
    EscapedEmptied(row);
    EmptyEmptied(row);
    NoneOurs(Shortlist());
    assert ParseFilter("") == Ok([]);
    EscapedHides();
  }

  lemma EscapedHides()
    ensures Hides(Shortlist(), BeforeSync().movies, SHARED_A) && !Hides(Shortlist(), "", SHARED_A)
  {
    hide Shortlist;
    hide Norm;
    hide EnforcesLabel;
    EscapedFilterReads();
    EscapedReads();
    AloneIsKept(Labels(), Excluding(ESCAPED_A), ESCAPED_A, SHARED_A);
    assert ParseFilter("") == Ok([]);
    assert !EnforcesLabel(Labels(), [], SHARED_A) by {
      NothingEnforced(Labels(), SHARED_A);
    }
  }

  lemma NothingEnforced(n: Naming, w: string)
    ensures !EnforcesLabel(n, [], w)
  {
  }

  // ----- a pruned label left standing -----

  /** `contentRating!=R&label!=shortlist__shared_%61|label!=`: a clause that cannot go without regrouping its
      neighbours, and behind it one that names nothing. */
  function StandingFilter(): seq<Condition> {
    [RATING, Hiding([ESCAPED_A], '&'), Condition("label", IsNot, [], '|', [])]
  }

  lemma StandingReads()
    ensures ParseFilter(Serialize(StandingFilter())) == Ok(StandingFilter()) && !LiteralAmpersand(StandingFilter())
  {
    hide NoValueSep;
    var cs := StandingFilter();
    EscapedWritable();
    FreeBoth(ESCAPED_A);
    PlainClause(RATING, "R");
    assert Clean(cs[1]) && Clean(cs[2]) && NoAmpersand(cs);
    SerializeRoundTrip(cs);
    NoLiteralAmpersand(cs);
  }

  /** A clause of these labels in second place, with a pipe behind it that joins a clause naming nothing. */
  lemma StandingLifts(n: Naming, v: string)
    requires n.ours(v)
    ensures var cs := [RATING, Hiding([v], '&'), Condition("label", IsNot, [], '|', [])];
            Lifted(n, cs) == cs && FrontRun(n, cs) == 0 && FirstTarget(cs, 0) == 3
  {
    var cs := [RATING, Hiding([v], '&'), Condition("label", IsNot, [], '|', [])];
    LoneLabel(n, v, '&');
    assert cs[2].sep != '&';
    forall i | 0 <= i < 3
      ensures LiftEdits(n, cs)[i] == Some(cs[i])
      ensures !IsTarget(cs, i)
    {
    }
    CollectAll(cs, LiftEdits(n, cs));
    assert !IsExclude(cs[0]);
  }

  lemma StandingStands(n: Naming, v: string, x: string, wanted: seq<string>)
    requires n.ours(v) && v != "" && SameValue(n, x, v)
    ensures var cs := [RATING, Hiding([v], '&'), Condition("label", IsNot, [], '|', [])];
            LeftStanding(n, ReadBack(MergedConditions(n, cs, wanted)), [v], x)
  {
    hide Missing;
    hide Wanted;
    hide Lifted;
    hide FirstTarget;
    hide FrontRun;
    var cs := [RATING, Hiding([v], '&'), Condition("label", IsNot, [], '|', [])];
    StandingLifts(n, v);
    var ds := ReadBack(MergedConditions(n, cs, wanted));
    assert ds[1] == cs[1] && ds[2] == cs[2] && (|ds| == 3 || (|ds| == 4 && ds[3].sep == '&'));
    SameListed(n, v);
    NothingLeft(n, ds[1], [v]);
    NothingLeft(n, ds[2], [v]);
    assert SameValue(n, x, ds[1].values[0]);
    assert StandsAt(n, ds, [v], x, 1);
  }

  /** A label some spelling of which was pruned, and that the filter written still hides: the clause that could not go
      is in force once the one behind it has gone. */
  lemma PrunedButStanding() returns (text: string)
    ensures SyncField(Shortlist(), NO_ROW, [SHARED_A], [ESCAPED_A], Serialize(StandingFilter())) == Planned(text)
    ensures Norm(Shortlist(), ESCAPED_A) == Norm(Shortlist(), SHARED_A) && Hides(Shortlist(), text, SHARED_A)
  {
    hide Plan;
    hide Merge;
    hide Remove;
    hide Serialize;
    hide ParseFilter;
    hide LeftStanding;
    hide MergedConditions;
    hide FrontRun;
    hide Shortlist;
    hide Norm;
    hide IsOurs;
    hide Hides;
    hide SaneNaming;
    hide ShortlistLabels;
    var n, raw := Labels(), Serialize(StandingFilter());
    EscapedReads();
    SharedWritable();
    StandingReads();
    StandingLifts(n, ESCAPED_A);
    PlanIsMerge(n, raw, [SHARED_A], NO_ROW);
    StandingStands(n, ESCAPED_A, SHARED_A, [SHARED_A]);
    PlanIsReadable(raw);
    text := SyncField(Shortlist(), NO_ROW, [SHARED_A], [ESCAPED_A], raw).text;
    SyncedFieldHidesExactly(Shortlist(), NO_ROW, [SHARED_A], [ESCAPED_A], raw, SHARED_A);
  }

  lemma PlanIsReadable(raw: string)
    requires ParseFilter(raw).Ok? && !LiteralAmpersand(ParseFilter(raw).value)
    ensures SyncField(Shortlist(), NO_ROW, [SHARED_A], [ESCAPED_A], raw).Planned?
  {
    hide SyncField;
    hide ParseFilter;
    hide LiteralAmpersand;
    SharedWritable();
    FieldPlannedOrUnreadable(Shortlist(), NO_ROW, [SHARED_A], [ESCAPED_A], raw);
  }
}
