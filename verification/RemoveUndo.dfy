/** Removing labels that were merged into a filter: when it gives back the filter there was. */
module RemoveUndo {
  import opened Options
  import opened FilterText
  import opened ShareFilter
  import opened FilterSemantics
  import opened FilterEdits
  import opened FilterMerge
  import opened MergeTheorems
  import opened FilterRemove

  // ----- removing what a merge added -----

  /** A `label!=` clause naming nothing, which removal would drop. */
  predicate EmptyExclude(cs: seq<Condition>, i: nat)
    requires i < |cs|
  {
    IsExclude(cs[i]) && |cs[i].values| == 0 && !Regroups(cs, i)
  }

  ghost predicate HoldsNone(n: Naming, cs: seq<Condition>, labels: seq<string>) {
    forall i, j :: 0 <= i < |cs| && IsExclude(cs[i]) && 0 <= j < |cs[i].values| ==> !Listed(n, cs[i].values[j], labels)
  }

  /** Removing labels a filter does not hold drops its empty excludes and nothing else. */
  lemma RemoveAbsent(n: Naming, cs: seq<Condition>, labels: seq<string>, i: nat)
    requires WellFormed(cs) && HoldsNone(n, cs, labels) && i < |cs|
    ensures RemoveEdit(n, cs, labels, i) == if EmptyExclude(cs, i) then None else Some(cs[i])
  {
    var c := cs[i];
    assert Clean(c);
    ExactSeps(c);
    if IsExclude(c) {
      forall v | v in c.values
        ensures !InList(n, labels)(v)
      {
        var j :| 0 <= j < |c.values| && c.values[j] == v;
      }
      SurvivorsAll(c.values, c.valueSeps, InList(n, labels));
    }
  }

  lemma GrownThenRemoved(n: Naming, c: Condition, more: seq<string>, valueSep: string, labels: seq<string>)
    requires Clean(c) && IsExclude(c) && |more| > 0
    requires forall v :: v in more ==> Listed(n, v, labels)
    requires forall v :: v in c.values ==> !Listed(n, v, labels)
    ensures WithoutValues(Grow(c, more, valueSep), InList(n, labels)) == if |c.values| == 0 then None else Some(c)
  {
    var d := Grow(c, more, valueSep);
    ExactSeps(c);
    var extra := d.valueSeps[|c.valueSeps|..];
    assert d.valueSeps == c.valueSeps + extra;
    assert PaddedSeps(d) == d.valueSeps;
    SurvivorsOfGrown(c.values, c.valueSeps, more, extra, InList(n, labels));
    SurvivorsAll(c.values, c.valueSeps, InList(n, labels));
  }

  lemma NewClauseRemoved(n: Naming, c: Condition, labels: seq<string>)
    requires IsExclude(c) && |c.values| > 0 && |c.valueSeps| == |c.values| - 1
    requires forall v :: v in c.values ==> Listed(n, v, labels)
    ensures WithoutValues(c, InList(n, labels)) == None
  {
    assert PaddedSeps(c) == c.valueSeps;
    SurvivorsOfGrown([], [], c.values, c.valueSeps, InList(n, labels));
    assert [] + c.values == c.values && [] + c.valueSeps == c.valueSeps;
  }

  /** Position by position, removing what was placed gives back the original condition. */
  lemma PlacedThenRemoved(n: Naming, cs: seq<Condition>, missing: seq<string>, valueSep: string,
                          labels: seq<string>, i: nat)
    requires WellFormed(cs) && HoldsNone(n, cs, labels) && |missing| > 0
    requires forall v :: v in missing ==> Listed(n, v, labels)
    requires i < |Place(cs, missing, valueSep)|
    ensures RemoveEdit(n, Place(cs, missing, valueSep), labels, i) ==
            if i >= |cs| || EmptyExclude(cs, i) then None else Some(cs[i])
  {
    var t := FirstTarget(cs, 0);
    var ds := Place(cs, missing, valueSep);
    if i < |cs| {
      PlaceKeepsPipes(cs, missing, valueSep, i);
      RemoveAbsent(n, cs, labels, i);
    }
    if i == t {
      if t < |cs| {
        forall v | v in cs[t].values
          ensures !Listed(n, v, labels)
        {
          var j :| 0 <= j < |cs[t].values| && cs[t].values[j] == v;
        }
        assert Clean(cs[t]);
        GrownThenRemoved(n, cs[t], missing, valueSep, labels);
      } else {
        NewClauseRemoved(n, ds[t], labels);
      }
    }
  }

  lemma PlaceKeepsPipes(cs: seq<Condition>, missing: seq<string>, valueSep: string, i: nat)
    requires |missing| > 0 && i < |cs|
    ensures PipeAfter(Place(cs, missing, valueSep), i) <==> PipeAfter(cs, i)
    ensures Place(cs, missing, valueSep)[i].sep == cs[i].sep
    ensures i == FirstTarget(cs, 0) ==> !PipeAfter(cs, i)
  {
    var ds := Place(cs, missing, valueSep);
    assert forall j :: 0 <= j < |cs| ==> ds[j].sep == cs[j].sep;
    assert |ds| > |cs| ==> ds[|cs|].sep == '&';
  }

  predicate HasEmptyExclude(cs: seq<Condition>) {
    exists i :: 0 <= i < |cs| && EmptyExclude(cs, i)
  }

  /** A list edited only by dropping its empty excludes, and possibly a trailing addition. */
  lemma {:induction false} OnlyEmptiesDropped(cs: seq<Condition>, edits: seq<Option<Condition>>)
    requires |edits| >= |cs|
    requires forall i :: 0 <= i < |cs| ==> edits[i] == None || edits[i] == Some(cs[i])
    requires forall i :: |cs| <= i < |edits| ==> edits[i] == None
    ensures |Collect(edits)| <= |cs|
    ensures (exists i :: 0 <= i < |cs| && edits[i] == None) <==> |Collect(edits)| < |cs|
    ensures |Collect(edits)| == |cs| ==> Collect(edits) == cs
    decreases |edits|
  {
    if |edits| > 0 {
      var init := edits[..|edits| - 1];
      CollectLast(edits);
      if |edits| > |cs| {
        OnlyEmptiesDropped(cs, init);
        assert forall i :: 0 <= i < |cs| ==> init[i] == edits[i];
      } else {
        OnlyEmptiesDropped(cs[..|cs| - 1], init);
        assert cs == cs[..|cs| - 1] + [cs[|cs| - 1]];
        assert forall i :: 0 <= i < |cs| - 1 ==> init[i] == edits[i];
      }
    }
  }

  /** The lift has nothing to move: whatever of ours stands where Plex ignores it stays there, and is enforced
      elsewhere. */
  ghost predicate Undisturbed(n: Naming, cs: seq<Condition>) {
    !LiftChanges(n, cs) && forall l :: l in Carried(n, cs) ==> EnforcesLabel(n, cs, l)
  }

  lemma MergedIsPlaced(n: Naming, cs: seq<Condition>, labels: seq<string>)
    requires Undisturbed(n, cs)
    ensures Lifted(n, cs) == cs
    ensures var missing := Missing(n, Wanted(n, cs, labels), cs);
            && (|missing| == 0 ==> MergedConditions(n, cs, labels) == cs)
            && (|missing| > 0 ==> MergedConditions(n, cs, labels) == Place(cs, missing, HouseValueSep(cs)))
            && forall v :: v in missing ==> v in labels && Listed(n, v, labels)
  {
    LiftUnchanged(n, cs);
    forall v | v in Missing(n, Wanted(n, cs, labels), cs)
      ensures v in labels && Listed(n, v, labels)
    {
      assert v in Carried(n, cs) + labels;
      ListedIn(n, v, labels);
    }
  }

  lemma RemoveEditReadBack(n: Naming, cs: seq<Condition>, labels: seq<string>, i: nat)
    requires Printable(cs) && i < |cs| && (i > 0 || Regroups(cs, i) == Regroups(ReadBack(cs), i))
    requires cs[i].values != [""]
    ensures RemoveEdit(n, ReadBack(cs), labels, i) ==
            match RemoveEdit(n, cs, labels, i)
            case None => None
            case Some(c) => Some(c.(sep := if i == 0 then '|' else c.sep))
  {
    var ds := ReadBack(cs);
    assert ds[i] == cs[i].(sep := if i == 0 then '|' else cs[i].sep);
    assert PaddedSeps(ds[i]) == PaddedSeps(cs[i]);
    assert PipeAfter(ds, i) <==> PipeAfter(cs, i) by {
      assert forall j :: 1 <= j < |cs| ==> ds[j].sep == cs[j].sep;
    }
  }

  lemma MergedEdit(n: Naming, cs: seq<Condition>, labels: seq<string>, i: nat)
    requires WellFormed(cs) && NoAmpersand(cs) && HoldsNone(n, cs, labels) && Undisturbed(n, cs)
    requires ShortlistLabels(n, labels) && SaneNaming(n)
    requires i < |MergedConditions(n, cs, labels)|
    ensures RemoveEdit(n, ReadBack(MergedConditions(n, cs, labels)), labels, i) ==
            if i >= |cs| || EmptyExclude(cs, i) then None else Some(cs[i])
  {
    var missing := Missing(n, Wanted(n, cs, labels), cs);
    var merged := MergedConditions(n, cs, labels);
    MergedIsPlaced(n, cs, labels);
    MergedPrintable(n, cs, labels);
    MergedNeverBlank(n, cs, labels, i);
    RemoveEditReadBack(n, merged, labels, i);
    if |missing| > 0 {
      PlacedThenRemoved(n, cs, missing, HouseValueSep(cs), labels, i);
    } else {
      RemoveAbsent(n, cs, labels, i);
    }
  }

  lemma MergedNeverBlank(n: Naming, cs: seq<Condition>, labels: seq<string>, i: nat)
    requires WellFormed(cs) && NoAmpersand(cs) && HoldsNone(n, cs, labels) && Undisturbed(n, cs)
    requires ShortlistLabels(n, labels) && SaneNaming(n)
    requires i < |MergedConditions(n, cs, labels)|
    ensures MergedConditions(n, cs, labels)[i].values != [""]
  {
    var missing := Missing(n, Wanted(n, cs, labels), cs);
    MergedIsPlaced(n, cs, labels);
    if |missing| > 0 && i == FirstTarget(cs, 0) {
      var v := missing[|missing| - 1];
      assert v in missing;
      var k :| 0 <= k < |labels| && labels[k] == v;
      assert ShortlistLabel(n, labels[k]) && !n.ours("");
      EndsIn(cs, missing, HouseValueSep(cs));
    } else {
      assert Clean(cs[i]);
    }
  }

  lemma EndsIn(cs: seq<Condition>, missing: seq<string>, valueSep: string)
    requires |missing| > 0
    ensures var values := Place(cs, missing, valueSep)[FirstTarget(cs, 0)].values;
            |values| > 0 && values[|values| - 1] == missing[|missing| - 1]
  {
  }

  lemma MergedConditionsRemoved(n: Naming, cs: seq<Condition>, labels: seq<string>)
    requires WellFormed(cs) && NoAmpersand(cs) && HoldsNone(n, cs, labels) && Undisturbed(n, cs)
    requires ShortlistLabels(n, labels) && SaneNaming(n)
    ensures var removed := Removed(n, ReadBack(MergedConditions(n, cs, labels)), labels);
            && (HasEmptyExclude(cs) <==> |removed| < |cs|)
            && (!HasEmptyExclude(cs) ==> removed == cs)
  {
    MergedEdits(n, cs, labels);
    var edits := RemoveEdits(n, ReadBack(MergedConditions(n, cs, labels)), labels);
    OnlyEmptiesDropped(cs, edits);
    if HasEmptyExclude(cs) {
      var i :| 0 <= i < |cs| && EmptyExclude(cs, i);
      assert edits[i] == None;
    }
  }

  lemma MergedThenRemoved(n: Naming, raw: string, labels: seq<string>)
    requires ShortlistLabels(n, labels) && SaneNaming(n) && Merge(n, raw, labels).Ok?
    ensures ParseFilter(raw).Ok?
    ensures var removed := Removed(n, ReadBack(MergedConditions(n, ParseFilter(raw).value, labels)), labels);
            && Remove(n, Merge(n, raw, labels).value, labels) == Ok(Serialize(removed))
            && ParseFilter(Serialize(removed)) == Ok(ReadBack(removed))
  {
    MergeReadsBack(n, raw, labels);
    RemoveResult(n, Serialize(ReadBack(MergedConditions(n, ParseFilter(raw).value, labels))), labels);
  }

  lemma MergedEdits(n: Naming, cs: seq<Condition>, labels: seq<string>)
    requires WellFormed(cs) && NoAmpersand(cs) && HoldsNone(n, cs, labels) && Undisturbed(n, cs)
    requires ShortlistLabels(n, labels) && SaneNaming(n)
    ensures var edits := RemoveEdits(n, ReadBack(MergedConditions(n, cs, labels)), labels);
            && |edits| >= |cs|
            && (forall i :: 0 <= i < |cs| ==> edits[i] == if EmptyExclude(cs, i) then None else Some(cs[i]))
            && (forall i :: |cs| <= i < |edits| ==> edits[i] == None)
  {
    var merged := MergedConditions(n, cs, labels);
    MergedIsPlaced(n, cs, labels);
    forall i | 0 <= i < |merged|
      ensures RemoveEdit(n, ReadBack(merged), labels, i) ==
              if i >= |cs| || EmptyExclude(cs, i) then None else Some(cs[i])
    {
      MergedEdit(n, cs, labels, i);
    }
  }

  lemma UndoneWhenUndisturbed(n: Naming, raw: string, labels: seq<string>)
    requires ShortlistLabels(n, labels) && SaneNaming(n) && Merge(n, raw, labels).Ok? && ParseFilter(raw).Ok?
    requires HoldsNone(n, ParseFilter(raw).value, labels) && Undisturbed(n, ParseFilter(raw).value)
    ensures Remove(n, Merge(n, raw, labels).value, labels) == Ok(raw) <==> !HasEmptyExclude(ParseFilter(raw).value)
  {
    var cs := ParseFilter(raw).value;
    MergeReadsBack(n, raw, labels);
    MergedThenRemoved(n, raw, labels);
    MergedConditionsRemoved(n, cs, labels);
    var removed := Removed(n, ReadBack(MergedConditions(n, cs, labels)), labels);
    if HasEmptyExclude(cs) {
      assert |ReadBack(removed)| < |cs|;
    }
  }

  // ----- how much of ours a filter holds -----

  /** Ours, and not among these labels. */
  function OtherOurs(n: Naming, labels: seq<string>): string -> bool {
    v => n.ours(v) && !Listed(n, v, labels)
  }

  function Count(values: seq<string>, p: string -> bool): nat {
    if |values| == 0 then 0
    else Count(values[..|values| - 1], p) + (if p(values[|values| - 1]) then 1 else 0)
  }

  function Weight(c: Condition, p: string -> bool): nat {
    if IsExclude(c) then Count(c.values, p) else 0
  }

  function EditWeight(e: Option<Condition>, p: string -> bool): nat {
    if e.Some? then Weight(e.value, p) else 0
  }

  function TotalWeight(cs: seq<Condition>, p: string -> bool): nat {
    if |cs| == 0 then 0 else TotalWeight(cs[..|cs| - 1], p) + Weight(cs[|cs| - 1], p)
  }

  lemma CountSnoc(values: seq<string>, v: string, p: string -> bool)
    ensures Count(values + [v], p) == Count(values, p) + (if p(v) then 1 else 0)
  {
    assert (values + [v])[..|values|] == values;
  }

  lemma {:induction false} CountMore(values: seq<string>, more: seq<string>, p: string -> bool)
    requires forall v :: v in more ==> !p(v)
    ensures Count(values + more, p) == Count(values, p)
    decreases |more|
  {
    if |more| == 0 {
      assert values + more == values;
    } else {
      var init, v := more[..|more| - 1], more[|more| - 1];
      CountMore(values, init, p);
      CountSnoc(values + init, v, p);
      assert values + more == values + init + [v];
    }
  }

  function Spared(p: string -> bool, drop: string -> bool): string -> bool {
    v => p(v) && !drop(v)
  }

  lemma {:induction false} CountSpared(values: seq<string>, seps: seq<string>, drop: string -> bool,
                                       p: string -> bool)
    requires GapCount(values, seps)
    ensures Count(Survivors(values, seps, drop).values, p) == Count(values, Spared(p, drop))
  {
    hide Count;
    hide Survivors;
    if |values| > 0 {
      var init, v := values[..|values| - 1], values[|values| - 1];
      var initSeps := if |init| == 0 then [] else seps[..|init| - 1];
      SplitLast(values);
      CountSpared(init, initSeps, drop, p);
      SurvivorsLast(init, seps, v, drop);
      CountSnoc(Survivors(init, initSeps, drop).values, v, p);
      CountSnoc(init, v, Spared(p, drop));
      assert [] + [v] == [v];
    } else {
      CountNone(p, drop);
    }
  }

  lemma CountNone(p: string -> bool, drop: string -> bool)
    ensures Count([], p) == 0 == Count([], Spared(p, drop)) && Survivors([], [], drop).values == []
  {
  }

  /** Dropping values counts no more; dropping one that counts, fewer. */
  lemma {:induction false} CountFewer(values: seq<string>, p: string -> bool, drop: string -> bool)
    ensures Count(values, Spared(p, drop)) <= Count(values, p)
    ensures (exists v :: v in values && drop(v) && p(v)) ==> Count(values, Spared(p, drop)) < Count(values, p)
  {
    if |values| > 0 {
      var init, v := values[..|values| - 1], values[|values| - 1];
      SplitLast(values);
      CountFewer(init, p, drop);
    }
  }

  lemma CountSurvivors(values: seq<string>, seps: seq<string>, drop: string -> bool, p: string -> bool)
    requires GapCount(values, seps)
    ensures Count(Survivors(values, seps, drop).values, p) <= Count(values, p)
    ensures (exists v :: v in values && drop(v) && p(v)) ==>
              Count(Survivors(values, seps, drop).values, p) < Count(values, p)
  {
    CountSpared(values, seps, drop, p);
    CountFewer(values, p, drop);
  }

  lemma {:induction false} CollectWeight(cs: seq<Condition>, edits: seq<Option<Condition>>, p: string -> bool)
    requires |edits| == |cs| && forall i :: 0 <= i < |cs| ==> EditWeight(edits[i], p) <= Weight(cs[i], p)
    ensures TotalWeight(Collect(edits), p) <= TotalWeight(cs, p)
    ensures (exists i :: 0 <= i < |cs| && EditWeight(edits[i], p) < Weight(cs[i], p)) ==>
              TotalWeight(Collect(edits), p) < TotalWeight(cs, p)
  {
    if |cs| > 0 {
      var k := |cs| - 1;
      CollectWeight(cs[..k], edits[..k], p);
      CollectLast(edits);
      if i :| 0 <= i < |cs| && EditWeight(edits[i], p) < Weight(cs[i], p) {
        assert i < k ==> edits[..k][i] == edits[i] && cs[..k][i] == cs[i];
      }
    }
  }

  lemma WithoutWeight(c: Condition, drop: string -> bool, p: string -> bool)
    requires IsExclude(c)
    ensures EditWeight(WithoutValues(c, drop), p) <= Weight(c, p)
    ensures (exists v :: v in c.values && drop(v) && p(v)) ==> EditWeight(WithoutValues(c, drop), p) < Weight(c, p)
  {
    CountSurvivors(c.values, PaddedSeps(c), drop, p);
  }

  lemma RemoveWeighsLess(n: Naming, cs: seq<Condition>, labels: seq<string>, p: string -> bool)
    ensures TotalWeight(Removed(n, cs, labels), p) <= TotalWeight(cs, p)
  {
    var edits := RemoveEdits(n, cs, labels);
    forall i | 0 <= i < |cs|
      ensures EditWeight(edits[i], p) <= Weight(cs[i], p)
    {
      if IsExclude(cs[i]) {
        WithoutWeight(cs[i], InList(n, labels), p);
      }
    }
    CollectWeight(cs, edits, p);
  }

  lemma BlankedWeighs(c: Condition, sep: char, p: string -> bool)
    requires !p("")
    ensures Weight(Blanked(c).(sep := sep), p) == Weight(c, p)
  {
    CountSnoc([], "", p);
    assert [] + [""] == [""];
  }

  lemma WeightSnoc(cs: seq<Condition>, c: Condition, p: string -> bool)
    ensures TotalWeight(cs + [c], p) == TotalWeight(cs, p) + Weight(c, p)
  {
    assert (cs + [c])[..|cs|] == cs;
  }

  lemma {:induction false} ReadBackWeighs(cs: seq<Condition>, p: string -> bool)
    requires !p("")
    ensures TotalWeight(ReadBack(cs), p) == TotalWeight(cs, p)
  {
    hide Weight;
    hide Blanked;
    hide TotalWeight;
    hide ReadBack;
    if |cs| > 0 {
      var init, c := cs[..|cs| - 1], cs[|cs| - 1];
      SplitLast(cs);
      ReadBackWeighs(init, p);
      ReadBackSnoc(init, c);
      BlankedWeighs(c, if |init| == 0 then '|' else c.sep, p);
      WeightSnoc(init, c, p);
      WeightSnoc(ReadBack(init), Blanked(c).(sep := if |init| == 0 then '|' else c.sep), p);
    } else {
      assert ReadBack(cs) == cs;
    }
  }

  lemma {:induction false} ReplacedWeighs(cs: seq<Condition>, t: nat, d: Condition, p: string -> bool)
    requires t < |cs| && Weight(d, p) == Weight(cs[t], p)
    ensures TotalWeight(cs[t := d], p) == TotalWeight(cs, p)
  {
    var k := |cs| - 1;
    if t < k {
      assert cs[t := d][..k] == cs[..k][t := d];
      ReplacedWeighs(cs[..k], t, d, p);
    } else {
      assert cs[t := d][..k] == cs[..k];
    }
  }

  lemma PlaceWeighs(cs: seq<Condition>, missing: seq<string>, valueSep: string, p: string -> bool)
    requires |missing| > 0 && forall v :: v in missing ==> !p(v)
    ensures TotalWeight(Place(cs, missing, valueSep), p) == TotalWeight(cs, p)
  {
    var t, ds := FirstTarget(cs, 0), Place(cs, missing, valueSep);
    if t < |cs| {
      CountMore(cs[t].values, missing, p);
      ReplacedWeighs(cs, t, ds[t], p);
    } else {
      CountMore([], missing, p);
      assert [] + missing == missing;
      assert ds[..|cs|] == cs;
    }
  }

  lemma LiftWeighsLess(n: Naming, cs: seq<Condition>, labels: seq<string>)
    requires HoldsNone(n, cs, labels) && LiftChanges(n, cs)
    ensures TotalWeight(Lifted(n, cs), OtherOurs(n, labels)) < TotalWeight(cs, OtherOurs(n, labels))
  {
    var edits, p := LiftEdits(n, cs), OtherOurs(n, labels);
    forall i | 0 <= i < |cs|
      ensures EditWeight(edits[i], p) <= Weight(cs[i], p)
      ensures edits[i] != Some(cs[i]) ==> EditWeight(edits[i], p) < Weight(cs[i], p)
    {
      LiftEditWeighs(n, cs, labels, i);
    }
    var i :| 0 <= i < |cs| && LiftEdit(n, cs, i) != Some(cs[i]);
    CollectWeight(cs, edits, p);
  }

  lemma LiftEditWeighs(n: Naming, cs: seq<Condition>, labels: seq<string>, i: nat)
    requires HoldsNone(n, cs, labels) && i < |cs|
    ensures EditWeight(LiftEdit(n, cs, i), OtherOurs(n, labels)) <= Weight(cs[i], OtherOurs(n, labels))
    ensures LiftEdit(n, cs, i) != Some(cs[i]) ==>
              EditWeight(LiftEdit(n, cs, i), OtherOurs(n, labels)) < Weight(cs[i], OtherOurs(n, labels))
  {
    if LiftEdit(n, cs, i) != Some(cs[i]) {
      var v := Mine(n, cs[i].values)[0];
      assert v in Mine(n, cs[i].values);
      var j :| 0 <= j < |cs[i].values| && cs[i].values[j] == v;
      assert OtherOurs(n, labels)(v);
      WithoutWeight(cs[i], n.ours, OtherOurs(n, labels));
    }
  }

  // ----- what giving the text back tells -----

  /** A filter given back had each label of ours that Plex ignores enforced elsewhere. */
  lemma UndoneThenEnforced(n: Naming, raw: string, labels: seq<string>, l: string)
    requires ShortlistLabels(n, labels) && SaneNaming(n) && Merge(n, raw, labels).Ok? && ParseFilter(raw).Ok?
    requires HoldsNone(n, ParseFilter(raw).value, labels) && l in Carried(n, ParseFilter(raw).value)
    requires Remove(n, Merge(n, raw, labels).value, labels) == Ok(raw)
    ensures EnforcesLabel(n, ParseFilter(raw).value, l)
  {
    hide Remove;
    hide MergedConditions;
    hide Removed;
    var cs := ParseFilter(raw).value;
    MergeReadsBack(n, raw, labels);
    MergedThenRemoved(n, raw, labels);
    var ds := ReadBack(MergedConditions(n, cs, labels));
    var i := CarriedUpToFrom(n, cs, |cs|, l);
    CarriedNotListed(n, cs, labels, i, l);
    CarriedEnforced(n, cs, labels, l);
    RemovedStillEnforces(n, ds, labels, l);
    ReadBackEnforces(n, Removed(n, ds, labels), l);
  }

  lemma CarriedNotListed(n: Naming, cs: seq<Condition>, labels: seq<string>, i: nat, l: string)
    requires HoldsNone(n, cs, labels) && i < |cs| && IsExclude(cs[i]) && l in cs[i].values
    ensures !Listed(n, l, labels)
  {
    var j :| 0 <= j < |cs[i].values| && cs[i].values[j] == l;
  }

  lemma CarriedEnforced(n: Naming, cs: seq<Condition>, labels: seq<string>, l: string)
    requires AllEnforced(n, ReadBack(MergedConditions(n, cs, labels)), Wanted(n, cs, labels))
    requires l in Carried(n, cs)
    ensures EnforcesLabel(n, ReadBack(MergedConditions(n, cs, labels)), l)
  {
    var all, wanted := Carried(n, cs) + labels, Wanted(n, cs, labels);
    var a :| 0 <= a < |Carried(n, cs)| && Carried(n, cs)[a] == l;
    assert all[a] == l;
    DistinctLists(n, all, a);
    var w :| 0 <= w < |wanted| && SameValue(n, l, wanted[w]);
    EnforcesSame(n, ReadBack(MergedConditions(n, cs, labels)), wanted[w], l);
  }

  /** A lift that changed anything, with nothing carried to put back, leaves less of ours. */
  lemma UndoneThenUnlifted(n: Naming, raw: string, labels: seq<string>)
    requires ShortlistLabels(n, labels) && SaneNaming(n) && Merge(n, raw, labels).Ok? && ParseFilter(raw).Ok?
    requires HoldsNone(n, ParseFilter(raw).value, labels)
    requires forall l :: l in Carried(n, ParseFilter(raw).value) ==> EnforcesLabel(n, ParseFilter(raw).value, l)
    requires Remove(n, Merge(n, raw, labels).value, labels) == Ok(raw)
    ensures !LiftChanges(n, ParseFilter(raw).value)
  {
    hide Remove;
    hide Removed;
    hide EnforcesLabel;
    var cs, p := ParseFilter(raw).value, OtherOurs(n, labels);
    MergedThenRemoved(n, raw, labels);
    if LiftChanges(n, cs) {
      var ds := ReadBack(MergedConditions(n, cs, labels));
      LiftWeighsLess(n, cs, labels);
      MergedWeighs(n, cs, labels);
      RemoveWeighsLess(n, ds, labels, p);
      assert !p("");
      ReadBackWeighs(Removed(n, ds, labels), p);
      ReadBackWeighs(MergedConditions(n, cs, labels), p);
    }
  }

  lemma MergedWeighs(n: Naming, cs: seq<Condition>, labels: seq<string>)
    requires forall l :: l in Carried(n, cs) ==> EnforcesLabel(n, cs, l)
    ensures TotalWeight(MergedConditions(n, cs, labels), OtherOurs(n, labels)) ==
            TotalWeight(Lifted(n, cs), OtherOurs(n, labels))
  {
    hide Place;
    hide EnforcesLabel;
    var kept := Lifted(n, cs);
    var missing := Missing(n, Wanted(n, cs, labels), kept);
    forall v | v in missing
      ensures !OtherOurs(n, labels)(v)
    {
      assert v in Carried(n, cs) + labels;
      if v in Carried(n, cs) {
        EnforcedBeforeIsEnforcedAfter(n, cs, v);
      }
      ListedIn(n, v, labels);
    }
    if |missing| > 0 {
      PlaceWeighs(kept, missing, HouseValueSep(cs), OtherOurs(n, labels));
    }
  }

  /** Removing labels just merged into a filter that held none of them gives back the original text exactly, if and only
      if the filter had no `label!=` clause naming nothing, which removal tidies away, and no label of ours where Plex
      ignores it that the merge had to see to. */
  lemma RemoveUndoesMerge(n: Naming, raw: string, labels: seq<string>)
    requires ShortlistLabels(n, labels) && SaneNaming(n) && Merge(n, raw, labels).Ok? && ParseFilter(raw).Ok?
    requires HoldsNone(n, ParseFilter(raw).value, labels)
    ensures Remove(n, Merge(n, raw, labels).value, labels) == Ok(raw) <==>
            !HasEmptyExclude(ParseFilter(raw).value) && Undisturbed(n, ParseFilter(raw).value)
  {
    hide Remove;
    hide Merge;
    hide HasEmptyExclude;
    hide EnforcesLabel;
    hide LiftChanges;
    if Undisturbed(n, ParseFilter(raw).value) {
      UndoneWhenUndisturbed(n, raw, labels);
    } else if Remove(n, Merge(n, raw, labels).value, labels) == Ok(raw) {
      forall l | l in Carried(n, ParseFilter(raw).value)
        ensures EnforcesLabel(n, ParseFilter(raw).value, l)
      {
        UndoneThenEnforced(n, raw, labels, l);
      }
      UndoneThenUnlifted(n, raw, labels);
    }
  }
}
