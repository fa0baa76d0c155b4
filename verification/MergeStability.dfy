/** What a merge leaves as it was: the owner's own conditions always, and the whole filter when merging again,
    except in one shape. */
module MergeStability {
  import opened Options
  import opened ShareFilter
  import opened FilterSemantics
  import opened FilterEdits
  import opened FilterMerge
  import opened MergeTheorems

  // ----- the owner's conditions -----

  /** What is left of a condition once every value of Shortlist's is out of its `label!=` clauses, whatever
      separator joins it to its neighbours. A clause left with nothing to name is no clause of the owner's. */
  function OwnerPart(c: Condition, drop: string -> bool): Option<Condition> {
    if IsExclude(c) then
      var rest := WithoutValues(c, drop);
      if rest.None? || rest.value.values == [""] then None else Some(rest.value.(sep := '|'))
    else Some(Blanked(c).(sep := '|'))
  }

  function OwnerParts(cs: seq<Condition>, drop: string -> bool): (parts: seq<Option<Condition>>)
    ensures |parts| == |cs| && forall i :: 0 <= i < |cs| ==> parts[i] == OwnerPart(cs[i], drop)
  {
    seq(|cs|, i requires 0 <= i < |cs| => OwnerPart(cs[i], drop))
  }

  /** The owner's conditions in order, each with its field, operator, values and value separators. */
  function OwnerView(cs: seq<Condition>, drop: string -> bool): seq<Condition> {
    Collect(OwnerParts(cs, drop))
  }

  function NotOwners(n: Naming, labels: seq<string>): string -> bool {
    v => n.ours(v) || Listed(n, v, labels)
  }

  lemma OwnerViewSnoc(cs: seq<Condition>, c: Condition, drop: string -> bool)
    ensures OwnerView(cs + [c], drop) ==
            OwnerView(cs, drop) + (if OwnerPart(c, drop).Some? then [OwnerPart(c, drop).value] else [])
  {
    assert OwnerParts(cs + [c], drop)[..|cs|] == OwnerParts(cs, drop);
  }

  lemma {:induction false} OwnerViewOfEdits(cs: seq<Condition>, edits: seq<Option<Condition>>, drop: string -> bool)
    requires |edits| == |cs|
    requires forall i :: 0 <= i < |cs| ==>
               OwnerPart(cs[i], drop) == match edits[i] case None => None case Some(c) => OwnerPart(c, drop)
    ensures OwnerView(Collect(edits), drop) == OwnerView(cs, drop)
  {
    hide OwnerView;
    hide OwnerPart;
    if |cs| > 0 {
      var k := |cs| - 1;
      var kept := Collect(edits[..k]);
      OwnerViewOfEdits(cs[..k], edits[..k], drop);
      OwnerViewSnoc(cs[..k], cs[k], drop);
      assert cs == cs[..k] + [cs[k]];
      if edits[k].Some? {
        assert Collect(edits) == kept + [edits[k].value];
        OwnerViewSnoc(kept, edits[k].value, drop);
      } else {
        assert Collect(edits) == kept;
        assert OwnerView(kept, drop) + [] == OwnerView(kept, drop);
      }
    } else {
      assert Collect(edits) == cs;
    }
  }

  lemma LiftEditOwnerPart(n: Naming, cs: seq<Condition>, i: nat, drop: string -> bool)
    requires i < |cs| && forall v :: n.ours(v) ==> drop(v)
    ensures OwnerPart(cs[i], drop) ==
            match LiftEdit(n, cs, i) case None => None case Some(c) => OwnerPart(c, drop)
  {
    var c := cs[i];
    SurvivorsCompose(c.values, PaddedSeps(c), n.ours, drop);
    var r := Survivors(c.values, PaddedSeps(c), n.ours);
    if WithoutValues(c, n.ours).Some? {
      assert PaddedSeps(c.(values := r.values, valueSeps := r.seps)) == r.seps;
    }
  }

  lemma GrowOwnerPart(c: Condition, more: seq<string>, valueSep: string, drop: string -> bool)
    requires |more| > 0 && IsExclude(c) && forall v :: v in more ==> drop(v)
    ensures OwnerPart(Grow(c, more, valueSep), drop) == OwnerPart(c, drop)
  {
    var d := Grow(c, more, valueSep);
    var existing := PaddedSeps(c);
    var extra := d.valueSeps[|existing|..];
    assert d.valueSeps == existing + extra;
    assert PaddedSeps(d) == d.valueSeps;
    SurvivorsOfGrown(c.values, existing, more, extra, drop);
  }

  lemma NewClauseHasNoOwnerPart(c: Condition, drop: string -> bool)
    requires IsExclude(c) && |c.valueSeps| == |c.values| - 1 && forall v :: v in c.values ==> drop(v)
    ensures OwnerPart(c, drop) == None
  {
    assert PaddedSeps(c) == c.valueSeps;
    SurvivorsOfGrown([], [], c.values, c.valueSeps, drop);
    assert [] + c.values == c.values && [] + c.valueSeps == c.valueSeps;
  }

  lemma SameOwnerParts(cs: seq<Condition>, ds: seq<Condition>, drop: string -> bool)
    requires |cs| == |ds| && forall i :: 0 <= i < |cs| ==> OwnerPart(ds[i], drop) == OwnerPart(cs[i], drop)
    ensures OwnerView(ds, drop) == OwnerView(cs, drop)
  {
    assert OwnerParts(ds, drop) == OwnerParts(cs, drop);
  }

  lemma NoNewOwnerPart(cs: seq<Condition>, c: Condition, drop: string -> bool)
    requires OwnerPart(c, drop) == None
    ensures OwnerView(cs + [c], drop) == OwnerView(cs, drop)
  {
    assert OwnerParts(cs + [c], drop)[..|cs|] == OwnerParts(cs, drop);
  }

  lemma PlaceOwnerView(cs: seq<Condition>, missing: seq<string>, valueSep: string, drop: string -> bool)
    requires |missing| > 0 && forall v :: v in missing ==> drop(v)
    ensures OwnerView(Place(cs, missing, valueSep), drop) == OwnerView(cs, drop)
  {
    var t := FirstTarget(cs, 0);
    var ds := Place(cs, missing, valueSep);
    if t < |cs| {
      GrowOwnerPart(cs[t], missing, valueSep, drop);
      SameOwnerParts(cs, ds, drop);
    } else {
      NewClauseHasNoOwnerPart(ds[t], drop);
      NoNewOwnerPart(cs, ds[t], drop);
    }
  }

  lemma ReadBackOwnerView(cs: seq<Condition>, drop: string -> bool)
    ensures OwnerView(ReadBack(cs), drop) == OwnerView(cs, drop)
  {
    var ds := ReadBack(cs);
    forall i | 0 <= i < |cs|
      ensures OwnerPart(ds[i], drop) == OwnerPart(cs[i], drop)
    {
      var c, d := cs[i], ds[i];
      if c.values == [""] {
        SurvivorsMembers(c.values, PaddedSeps(c), drop);
        var r := Survivors(c.values, PaddedSeps(c), drop);
        assert Survivors(c.values[..0], [], drop).values == [];
        assert |r.values| > 0 ==> r.values == [""];
      } else {
        assert PaddedSeps(d) == PaddedSeps(c);
      }
    }
    SameOwnerParts(cs, ds, drop);
  }

  /** Every condition the owner wrote survives a merge, in order, with its values and their separators. */
  lemma MergeKeepsOwnersConditions(n: Naming, raw: string, labels: seq<string>)
    requires ShortlistLabels(n, labels) && SaneNaming(n) && Merge(n, raw, labels).Ok?
    ensures ParseFilter(raw).Ok? && ParseFilter(Merge(n, raw, labels).value).Ok?
    ensures OwnerView(ParseFilter(Merge(n, raw, labels).value).value, NotOwners(n, labels)) ==
            OwnerView(ParseFilter(raw).value, NotOwners(n, labels))
  {
    MergeNeverFailsItsCheck(n, raw, labels);
    MergeResult(n, raw, labels);
    var cs, drop := ParseFilter(raw).value, NotOwners(n, labels);
    var missing := Missing(n, Wanted(n, cs, labels), Lifted(n, cs));
    ReadBackOwnerView(MergedConditions(n, cs, labels), drop);
    if |missing| > 0 {
      forall v | v in missing
        ensures drop(v)
      {
        assert v in Carried(n, cs) + labels;
        if v in Carried(n, cs) {
          var i := CarriedUpToFrom(n, cs, |cs|, v);
        }
      }
      PlaceOwnerView(Lifted(n, cs), missing, HouseValueSep(cs), drop);
    }
    forall i | 0 <= i < |cs|
      ensures OwnerPart(cs[i], drop) ==
              match LiftEdits(n, cs)[i] case None => None case Some(c) => OwnerPart(c, drop)
    {
      LiftEditOwnerPart(n, cs, i, drop);
    }
    OwnerViewOfEdits(cs, LiftEdits(n, cs), drop);
  }

  // ----- merging again -----

  /** Once our movable clauses are out, the filter leads with a clause of ours that Plex ignores. */
  predicate LeadsVoided(n: Naming, kept: seq<Condition>) {
    |kept| > 0 && Unenforced(n, kept, 0)
  }

  lemma RemainderHoldsNoneOfOurs(n: Naming, c: Condition)
    requires WithoutValues(c, n.ours).Some?
    ensures Mine(n, WithoutValues(c, n.ours).value.values) == []
  {
    var mine := Mine(n, WithoutValues(c, n.ours).value.values);
    assert |mine| > 0 ==> mine[0] in mine;
    SurvivorsMembers(c.values, PaddedSeps(c), n.ours);
  }

  /** A clause still unenforced after the lift is ours alone, was left where it was, and is joined by `&`. */
  lemma StillUnenforced(n: Naming, cs: seq<Condition>, k: nat) returns (i: nat)
    requires SepsIn(cs, CONDITION_SEPS) && k < |Lifted(n, cs)| && Unenforced(n, Lifted(n, cs), k)
    ensures 0 < i < |cs| && Lifted(n, cs)[k] == cs[i] && Unenforced(n, cs, i)
    ensures cs[i].sep == '&' && WithoutValues(cs[i], n.ours).None?
  {
    var edits, kept := LiftEdits(n, cs), Lifted(n, cs);
    i := Origin(edits, k);
    assert LiftEdit(n, cs, i) == Some(kept[k]);
    if !Unenforced(n, cs, i) {
      LiftKeepsSeps(n, cs);
      EnforcedSurvives(cs, edits, k);
      assert false;
    }
    var rest := WithoutValues(cs[i], n.ours);
    if rest.Some? {
      RemainderHoldsNoneOfOurs(n, cs[i]);
      assert false;
    }
  }

  /** Placing labels changes no clause that stands where Plex ignores it. */
  lemma MergedAgreesUnenforced(n: Naming, cs: seq<Condition>, labels: seq<string>, k: nat)
    requires k < |MergedConditions(n, cs, labels)|
    ensures var kept, merged := Lifted(n, cs), MergedConditions(n, cs, labels);
            && |kept| <= |merged|
            && (Enforced(merged, k) <==> (k < |kept| ==> Enforced(kept, k)))
            && (!Enforced(merged, k) ==> merged[k] == kept[k])
  {
    var kept := Lifted(n, cs);
    var missing := Missing(n, Wanted(n, cs, labels), kept);
    if k < |kept| && |missing| > 0 {
      PlaceKeepsEnforced(kept, missing, HouseValueSep(cs), k);
    }
  }

  lemma ReadBackUnenforced(n: Naming, cs: seq<Condition>, k: nat)
    requires SaneNaming(n) && k < |cs|
    ensures Unenforced(n, ReadBack(cs), k) <==> Unenforced(n, cs, k)
    ensures Unenforced(n, cs, k) ==> ReadBack(cs)[k] == cs[k].(sep := if k == 0 then '|' else cs[k].sep)
  {
    var ds := ReadBack(cs);
    assert Enforced(ds, k) <==> Enforced(cs, k) by {
      assert forall j :: 1 <= j < |cs| ==> ds[j].sep == cs[j].sep;
    }
    if cs[k].values == [""] {
      assert !n.ours("");
      assert Mine(n, [""][..0]) == [];
      assert Mine(n, [""]) == [];
    }
  }

  /** Reading a merged filter again finds our ignored clauses exactly where the lift left them. */
  lemma UnenforcedAfterMerge(n: Naming, cs: seq<Condition>, labels: seq<string>, k: nat)
    requires SaneNaming(n) && k < |MergedConditions(n, cs, labels)|
    ensures var ds, kept := ReadBack(MergedConditions(n, cs, labels)), Lifted(n, cs);
            && |kept| <= |ds|
            && (Unenforced(n, ds, k) <==> k < |kept| && Unenforced(n, kept, k))
            && (Unenforced(n, ds, k) ==> ds[k] == kept[k].(sep := if k == 0 then '|' else kept[k].sep))
  {
    MergedAgreesUnenforced(n, cs, labels, k);
    ReadBackUnenforced(n, MergedConditions(n, cs, labels), k);
  }

  lemma LiftEditAfterMerge(n: Naming, cs: seq<Condition>, labels: seq<string>, k: nat)
    requires SaneNaming(n) && SepsIn(cs, CONDITION_SEPS) && k < |MergedConditions(n, cs, labels)|
    ensures var ds, kept := ReadBack(MergedConditions(n, cs, labels)), Lifted(n, cs);
            LiftEdit(n, ds, k) == if k == 0 && LeadsVoided(n, kept) then None else Some(ds[k])
  {
    UnenforcedAfterMerge(n, cs, labels, k);
    var ds, kept := ReadBack(MergedConditions(n, cs, labels)), Lifted(n, cs);
    if Unenforced(n, ds, k) {
      var i := StillUnenforced(n, cs, k);
      assert PaddedSeps(ds[k]) == PaddedSeps(cs[i]);
    }
  }

  /** A second pass wants nothing the first did not, and finds all of it enforced. */
  lemma SecondPassMissesNothing(n: Naming, cs: seq<Condition>, labels: seq<string>)
    requires SaneNaming(n) && SepsIn(cs, CONDITION_SEPS)
    requires AllEnforced(n, ReadBack(MergedConditions(n, cs, labels)), Wanted(n, cs, labels))
    ensures var ds := ReadBack(MergedConditions(n, cs, labels));
            Missing(n, Wanted(n, ds, labels), Lifted(n, ds)) == []
  {
    var ds := ReadBack(MergedConditions(n, cs, labels));
    var missing := Missing(n, Wanted(n, ds, labels), Lifted(n, ds));
    if |missing| > 0 {
      var l := missing[0];
      assert l in missing && l in Carried(n, ds) + labels;
      SecondPassWantsOld(n, cs, labels, l);
      EnforcedBeforeIsEnforcedAfter(n, ds, l);
      assert false;
    }
  }

  lemma SecondPassWantsOld(n: Naming, cs: seq<Condition>, labels: seq<string>, l: string)
    requires SaneNaming(n) && SepsIn(cs, CONDITION_SEPS)
    requires AllEnforced(n, ReadBack(MergedConditions(n, cs, labels)), Wanted(n, cs, labels))
    requires l in Carried(n, ReadBack(MergedConditions(n, cs, labels))) + labels
    ensures EnforcesLabel(n, ReadBack(MergedConditions(n, cs, labels)), l)
  {
    var ds := ReadBack(MergedConditions(n, cs, labels));
    var all := Carried(n, cs) + labels;
    if l in Carried(n, ds) {
      var k := CarriedUpToFrom(n, ds, |ds|, l);
      UnenforcedAfterMerge(n, cs, labels, k);
      var i := StillUnenforced(n, cs, k);
      CarriedUpToHas(n, cs, |cs|, i, l);
    }
    assert l in all;
    var a :| 0 <= a < |all| && all[a] == l;
    DistinctLists(n, all, a);
    var w :| 0 <= w < |Wanted(n, cs, labels)| && SameValue(n, l, Wanted(n, cs, labels)[w]);
    EnforcesSame(n, ds, Wanted(n, cs, labels)[w], l);
  }

  lemma CollectWithoutFirst<T>(ts: seq<T>, edits: seq<Option<T>>)
    requires |edits| == |ts| > 0 && edits[0] == None && forall i :: 1 <= i < |ts| ==> edits[i] == Some(ts[i])
    ensures Collect(edits) == ts[1..]
  {
    CollectCons(edits);
    CollectAll(ts[1..], edits[1..]);
  }

  lemma {:induction false} CollectCons<T>(edits: seq<Option<T>>)
    requires |edits| > 0
    ensures Collect(edits) == (if edits[0].Some? then [edits[0].value] else []) + Collect(edits[1..])
    decreases |edits|
  {
    if |edits| > 1 {
      var init := edits[..|edits| - 1];
      CollectCons(init);
      assert init[1..] == edits[1..][..|edits| - 2];
      CollectLast(edits);
      CollectLast(edits[1..]);
    }
  }

  lemma LiftedAgain(n: Naming, cs: seq<Condition>, labels: seq<string>)
    requires SaneNaming(n) && SepsIn(cs, CONDITION_SEPS)
    ensures LeadsVoided(n, Lifted(n, cs)) ==> |MergedConditions(n, cs, labels)| > 0
    ensures var ds := ReadBack(MergedConditions(n, cs, labels));
            Lifted(n, ds) == if LeadsVoided(n, Lifted(n, cs)) then ds[1..] else ds
  {
    var ds := ReadBack(MergedConditions(n, cs, labels));
    forall k | 0 <= k < |ds|
      ensures LiftEdits(n, ds)[k] == if k == 0 && LeadsVoided(n, Lifted(n, cs)) then None else Some(ds[k])
    {
      LiftEditAfterMerge(n, cs, labels, k);
    }
    if LeadsVoided(n, Lifted(n, cs)) {
      UnenforcedAfterMergeLength(n, cs, labels);
      CollectWithoutFirst(ds, LiftEdits(n, ds));
    } else {
      CollectAll(ds, LiftEdits(n, ds));
    }
  }

  lemma NothingMissing(n: Naming, cs: seq<Condition>, labels: seq<string>)
    requires SaneNaming(n) && SepsIn(cs, CONDITION_SEPS)
    requires AllEnforced(n, ReadBack(MergedConditions(n, cs, labels)), Wanted(n, cs, labels))
    ensures var ds := ReadBack(MergedConditions(n, cs, labels));
            MergedConditions(n, ds, labels) == Lifted(n, ds)
  {
    SecondPassMissesNothing(n, cs, labels);
  }

  /** Merging again returns the merged filter itself, except that a filter which leads with a clause of ours Plex
      ignores, once the rest is lifted, loses that clause only on the second pass. */
  lemma MergeIsIdempotent(n: Naming, raw: string, labels: seq<string>)
    requires ShortlistLabels(n, labels) && SaneNaming(n) && Merge(n, raw, labels).Ok?
    ensures ParseFilter(raw).Ok?
    ensures Merge(n, Merge(n, raw, labels).value, labels) == Merge(n, raw, labels) <==>
            !LeadsVoided(n, Lifted(n, ParseFilter(raw).value))
  {
    hide Merge;
    hide MergedConditions;
    hide Lifted;
    hide LeadsVoided;
    hide AllEnforced;
    hide LiteralAmpersand;
    hide Serialize;
    MergeReadsBack(n, raw, labels);
    var cs, once := ParseFilter(raw).value, Merge(n, raw, labels).value;
    var ds := ReadBack(MergedConditions(n, cs, labels));
    ParsedIsPrintable(cs);
    LiftedAgain(n, cs, labels);
    NothingMissing(n, cs, labels);
    MergeResult(n, once, labels);
  }

  lemma UnenforcedAfterMergeLength(n: Naming, cs: seq<Condition>, labels: seq<string>)
    requires |Lifted(n, cs)| > 0
    ensures |MergedConditions(n, cs, labels)| > 0
  {
  }
}
