/** A filter from which a sync cannot take a pruned label without regrouping the owner's conditions: the label stays,
    unenforced, and the write that leaves it there fails its own read-back. */
module Leftovers {
  import opened Options
  import opened FilterText
  import opened ShareFilter
  import opened FilterSemantics
  import opened FilterEdits
  import opened FilterMerge
  import opened MergeTheorems
  import opened FilterRemove
  import opened SharePlan
  import opened PlanPasses
  import opened SyncPrune
  import opened AccountSync
  import opened FilterReadBack
  import opened PruneEffects
  import opened TextCodec
  import opened Counterexamples
  import opened RunCompletion
  import SpellingLosses

  /** `contentRating!=R&label!=shortlist_x|contentRating!=R`. */
  function Stuck(): seq<Condition> {
    [RATING, Hiding([Label('x')], '&'), RATING]
  }

  lemma StuckReads()
    ensures ParseFilter(Serialize(Stuck())) == Ok(Stuck()) && !LiteralAmpersand(Stuck())
  {
    hide NoValueSep;
    hide Clean;
    var cs := Stuck();
    PlainClause(RATING, "R");
    LabelChars('x');
    LabelNotBlank('x');
    PlainClause(cs[1], Label('x'));
    assert NoAmpersand(cs) by {
      assert forall i :: 0 <= i < |cs| ==> AmpersandFree(cs[i]);
    }
    SerializeRoundTrip(cs);
    NoLiteralAmpersand(cs);
  }

  lemma StuckLifts(n: Naming)
    requires n.ours(Label('x'))
    ensures Lifted(n, Stuck()) == Stuck() && FrontRun(n, Stuck()) == 0
    ensures forall v :: !EnforcesLabel(n, Stuck(), v)
  {
    var cs := Stuck();
    LoneLabel(n, Label('x'), '&');
    assert cs[2].sep != '&' && !IsExclude(cs[0]) && !IsExclude(cs[2]);
    forall i | 0 <= i < 3
      ensures LiftEdits(n, cs)[i] == Some(cs[i])
    {
    }
    CollectAll(cs, LiftEdits(n, cs));
  }

  /** What the merge of a further label leaves of it, before the prune. */
  lemma StuckMerged(n: Naming, wanted: seq<string>)
    requires n.ours(Label('x'))
    ensures var ds := ReadBack(MergedConditions(n, Stuck(), wanted));
            && |ds| >= 3 && ds[1] == Stuck()[1] && ds[2] == Stuck()[2]
            && forall k :: 3 <= k < |ds| ==> ds[k].sep == '&'
  {
    hide Missing;
    hide Wanted;
    hide Lifted;
    hide FirstTarget;
    var cs := Stuck();
    StuckLifts(n);
    LabelNotBlank('x');
    assert !IsExclude(cs[0]) && !IsExclude(cs[2]) && !Enforced(cs, 1);
    assert FirstTarget(cs, 0) == |cs| || IsTarget(cs, FirstTarget(cs, 0));
  }

  lemma StuckStays(n: Naming, wanted: seq<string>)
    requires n.ours(Label('x'))
    ensures var ds := ReadBack(MergedConditions(n, Stuck(), wanted));
            Names(ReadBack(Removed(n, ds, [Label('x')])), Label('x')) && !LeftStanding(n, ds, [Label('x')], Label('x'))
  {
    hide MergedConditions;
    hide Collect;
    var x := Label('x');
    StuckMerged(n, wanted);
    var ds := ReadBack(MergedConditions(n, Stuck(), wanted));
    SpellingLosses.SameListed(n, x);
    NothingLeft(n, ds[1], [x]);
    assert PipeAfter(ds, 1) by {
      assert ds[2].sep != '&';
    }
    assert RemoveEdit(n, ds, [x], 1) == Some(ds[1]);
    var k := KeptHasPlace(RemoveEdits(n, ds, [x]), 1);
    var es := Removed(n, ds, [x]);
    LabelNotBlank('x');
    assert ReadBack(es)[k].values == [x];
    assert NamesValue(x)(ReadBack(es)[k]);
    assert RemoveEdit(n, ds, [x], 2).Some?;
    forall i | 0 <= i < |ds|
      ensures !StandsAt(n, ds, [x], x, i)
    {
      if i >= 2 {
        assert !PipeAfter(ds, i);
      } else if i == 0 {
        assert !Regroups(ds, 0);
      }
    }
  }

  lemma StuckPlan(wanted: seq<string>) returns (planned: string)
    requires ShortlistLabels(Labels(), wanted) && SaneNaming(Labels())
    ensures Plan(Labels(), Serialize(Stuck()), wanted, NO_ROW) == Ok(planned) && Readable(planned)
    ensures ParseFilter(planned) == Ok(ReadBack(MergedConditions(Labels(), Stuck(), wanted)))
  {
    hide Stuck;
    hide Plan;
    hide Merge;
    hide Serialize;
    hide ParseFilter;
    hide FrontRun;
    hide MergedConditions;
    LabelOurs('x');
    StuckReads();
    StuckLifts(Labels());
    PlanIsMerge(Labels(), Serialize(Stuck()), wanted, NO_ROW);
    MergeReadsBack(Labels(), Serialize(Stuck()), wanted);
    planned := Plan(Labels(), Serialize(Stuck()), wanted, NO_ROW).value;
  }

  lemma OneLabelWritable(x: char)
    requires 'a' <= x <= 'z'
    ensures ShortlistLabels(Labels(), [Label(x)]) && SaneNaming(Labels())
  {
    LabelsWritable([x]);
    assert LabelsFor([x]) == [Label(x)];
  }

  /** With `shortlist_x` to prune and `shortlist_y` wanted, the filter is rewritten, and what is written names a label
      it does not enforce: plex.tv may store it exactly, and the read-back still stops the run. */
  lemma LeftoverFailsItsCheck() returns (text: string)
    ensures SyncField(Shortlist(), NO_ROW, [Label('y')], [Label('x')], Serialize(Stuck())) == Planned(text)
    ensures text != Serialize(Stuck()) && !FieldKept(Shortlist(), text, text)
  {
    hide *;
    var k, n, raw := Shortlist(), NamingOf(Shortlist()), Serialize(Stuck());
    NamingIs();
    OneLabelWritable('y');
    LabelOurs('x');
    StuckReads();
    var planned := StuckPlan([Label('y')]);
    StuckReadable();
    NoRowPlannable(n);
    FieldPlannedOrUnreadable(k, NO_ROW, [Label('y')], [Label('x')], raw);
    text := SyncField(k, NO_ROW, [Label('y')], [Label('x')], raw).text;
    SyncedText(k, NO_ROW, [Label('y')], [Label('x')], raw);
    RemovesInto(n, planned, [Label('x')], text);
    StuckStays(n, [Label('y')]);
    PlanIsParsed(k, NO_ROW, [Label('y')], raw);
    WrittenKeepsItself(k, NO_ROW, [Label('y')], [Label('x')], raw);
    NamedInText(k, text, Label('x'));
    SpellingLosses.SameListed(n, Label('x'));
    OthersDiffer();
    SyncedFieldHides(k, NO_ROW, [Label('y')], [Label('x')], raw, Label('y'));
    StuckLifts(n);
    HidesIs(k, raw, Label('y'));
  }

  lemma NamingIs()
    ensures Labels() == NamingOf(Shortlist()) && Labels().ours(Label('x')) == IsOurs(Shortlist(), Label('x'))
  {
  }

  lemma StuckReadable()
    ensures Readable(Serialize(Stuck())) && ParseFilter(Serialize(Stuck())).Ok?
  {
    hide ParseFilter;
    hide Serialize;
    StuckReads();
  }

  lemma NoRowPlannable(n: Naming)
    ensures PlannableRow(n, NO_ROW)
  {
  }

  lemma RemovesInto(n: Naming, planned: string, labels: seq<string>, text: string)
    requires Readable(planned) && Remove(n, planned, labels) == Ok(text)
    ensures ParseFilter(planned).Ok?
    ensures ParseFilter(text) == Ok(ReadBack(Removed(n, ParseFilter(planned).value, labels)))
  {
    RemoveResult(n, planned, labels);
  }

  lemma NamedInText(k: Codec, text: string, v: string)
    requires ParseFilter(text).Ok? && Names(ParseFilter(text).value, v) && IsOurs(k, v)
    ensures v in OursInText(k, text)
  {
    OursAreNamed(k, text, v);
  }

  lemma OthersDiffer()
    ensures Label('y') in [Label('y')]
    ensures forall p :: p in [Label('x')] ==> Norm(Shortlist(), p) != Norm(Shortlist(), Label('y'))
  {
    LabelReads('x');
    LabelReads('y');
    assert Label('x')[10] != Label('y')[10];
  }

  lemma HidesIs(k: Codec, text: string, v: string)
    ensures Hides(k, text, v) ==> ParseFilter(text).Ok? && EnforcesLabel(NamingOf(k), ParseFilter(text).value, v)
  {
  }
}
