/** What the merge promises: wanted labels are hidden, nobody sees more, the owner's conditions survive, and
    when merging again changes nothing. */
module MergeTheorems {
  import opened Options
  import opened FilterText
  import opened ShareFilter
  import opened FilterSemantics
  import opened FilterEdits
  import opened FilterMerge

  /** A label of ours is never blank once decoded. */
  ghost predicate SaneNaming(n: Naming) {
    forall v :: n.ours(v) ==> n.norm(v) != n.norm("")
  }

  /** A label Shortlist writes: it has our prefix and no character that separates anything in a filter. */
  ghost predicate ShortlistLabel(n: Naming, lbl: string) {
    n.ours(lbl) && Free(lbl, CONDITION_SEPS) && NoValueSep(lbl)
  }

  /** Plain text separates nothing in a filter. */
  lemma PlainText(w: string)
    requires forall j :: 0 <= j < |w| ==> w[j] !in {',', '%', '|', '&', '=', '!'}
    ensures Free(w, CONDITION_SEPS) && NoValueSep(w) && NoNe(w)
  {
  }

  ghost predicate ShortlistLabels(n: Naming, labels: seq<string>) {
    forall i :: 0 <= i < |labels| ==> ShortlistLabel(n, labels[i])
  }

  ghost predicate CarriesNone(n: Naming, item: Item, labels: seq<string>) {
    forall i :: 0 <= i < |labels| ==> !CarriesLabel(n, item, labels[i])
  }

  // ----- the lift -----

  lemma LiftKeepsSeps(n: Naming, cs: seq<Condition>)
    ensures KeepsSeps(cs, LiftEdits(n, cs))
  {
  }

  /** Lifting never takes an enforced exclude out of force. */
  lemma EnforcedBeforeIsEnforcedAfter(n: Naming, cs: seq<Condition>, l: string)
    requires EnforcesLabel(n, cs, l)
    ensures EnforcesLabel(n, Lifted(n, cs), l)
  {
    var i :| 0 <= i < |cs| && IsTarget(cs, i) && Listed(n, l, cs[i].values);
    var edits := LiftEdits(n, cs);
    var k := KeptHasPlace(edits, i);
    LiftKeepsSeps(n, cs);
    EnforcedSurvives(cs, edits, k);
    assert IsTarget(Lifted(n, cs), k);
  }

  lemma {:induction false} CarriedUpToHas(n: Naming, cs: seq<Condition>, k: nat, i: nat, v: string)
    requires i < k <= |cs| && Unenforced(n, cs, i) && v in cs[i].values && n.ours(v)
    ensures v in CarriedUpTo(n, cs, k)
  {
    if i < k - 1 {
      CarriedUpToHas(n, cs, k - 1, i, v);
    }
  }

  lemma {:induction false} CarriedUpToFrom(n: Naming, cs: seq<Condition>, k: nat, v: string) returns (i: nat)
    requires k <= |cs| && v in CarriedUpTo(n, cs, k)
    ensures i < k && Unenforced(n, cs, i) && v in cs[i].values && n.ours(v)
  {
    if Unenforced(n, cs, k - 1) && v in Mine(n, cs[k - 1].values) {
      i := k - 1;
    } else {
      i := CarriedUpToFrom(n, cs, k - 1, v);
    }
  }

  /** For an item carrying none of the lifted labels, the lift weakens no clause and drops only true ones. */
  lemma LiftEditHolds(n: Naming, cs: seq<Condition>, i: nat, item: Item)
    requires i < |cs| && CarriesNone(n, item, Carried(n, cs))
    ensures LiftEdit(n, cs, i).Some? ==> (Holds(n, LiftEdit(n, cs, i).value, item) <==> Holds(n, cs[i], item))
    ensures LiftEdit(n, cs, i).None? ==> Holds(n, cs[i], item)
  {
    if Unenforced(n, cs, i) {
      var c := cs[i];
      forall v | v in c.values && n.ours(v)
        ensures n.norm(v) !in Tags(item, c.field)
      {
        CarriedUpToHas(n, cs, |cs|, i, v);
        var k :| 0 <= k < |Carried(n, cs)| && Carried(n, cs)[k] == v;
        assert !CarriesLabel(n, item, Carried(n, cs)[k]);
      }
      SurvivorsMembers(c.values, PaddedSeps(c), n.ours);
      HitByMember(n, c, item);
      var rest := WithoutValues(c, n.ours);
      if rest.Some? {
        HitByMember(n, rest.value, item);
      }
    }
  }

  lemma LiftIsSafe(n: Naming, cs: seq<Condition>, item: Item)
    requires SepsIn(cs, CONDITION_SEPS) && CarriesNone(n, item, Carried(n, cs))
    ensures SafeEdits(n, cs, LiftEdits(n, cs), item)
  {
    LiftKeepsSeps(n, cs);
    forall i | 0 <= i < |cs|
      ensures LiftEdits(n, cs)[i].Some? ==>
                (Holds(n, LiftEdits(n, cs)[i].value, item) <==> Holds(n, cs[i], item))
      ensures LiftEdits(n, cs)[i].None? ==>
                Holds(n, cs[i], item) && (i == 0 || cs[i].sep != '&' || !PipeAfter(cs, i))
    {
      LiftEditHolds(n, cs, i, item);
    }
  }

  lemma LiftUnchanged(n: Naming, cs: seq<Condition>)
    requires !LiftChanges(n, cs)
    ensures Lifted(n, cs) == cs
  {
    var edits := LiftEdits(n, cs);
    forall i | 0 <= i < |cs|
      ensures edits[i] == Some(cs[i])
    {
      assert LiftEdit(n, cs, i) == Some(cs[i]);
    }
    CollectAll(cs, edits);
  }

  lemma {:induction false} CollectAll<T>(ts: seq<T>, edits: seq<Option<T>>)
    requires |edits| == |ts| && forall i :: 0 <= i < |ts| ==> edits[i] == Some(ts[i])
    ensures Collect(edits) == ts
  {
    if |ts| > 0 {
      CollectAll(ts[..|ts| - 1], edits[..|ts| - 1]);
      CollectLast(edits);
      assert ts == ts[..|ts| - 1] + [ts[|ts| - 1]];
    }
  }

  // ----- the placing -----

  lemma GrowHits(n: Naming, c: Condition, more: seq<string>, valueSep: string, item: Item)
    requires |more| > 0 && c.field == "label" && CarriesNone(n, item, more)
    ensures Hit(n, Grow(c, more, valueSep), item) <==> Hit(n, c, item)
  {
    var d := Grow(c, more, valueSep);
    HitByMember(n, c, item);
    HitByMember(n, d, item);
    forall v | v in more
      ensures n.norm(v) !in Tags(item, "label")
    {
      var k :| 0 <= k < |more| && more[k] == v;
      assert !CarriesLabel(n, item, more[k]);
    }
  }

  /** Placing labels an item does not carry leaves its verdict alone. */
  lemma PlaceShowsSame(g: Grouping, n: Naming, cs: seq<Condition>, missing: seq<string>, valueSep: string, item: Item)
    requires |missing| > 0 && CarriesNone(n, item, missing)
    ensures Shows(g, n, Place(cs, missing, valueSep), item) == Shows(g, n, cs, item)
  {
    var t := FirstTarget(cs, 0);
    var ds := Place(cs, missing, valueSep);
    if t < |cs| {
      GrowHits(n, cs[t], missing, valueSep, item);
      assert Terms(n, ds, item) == Terms(n, cs, item);
    } else {
      var added := ds[|cs|];
      forall k | 0 <= k < |missing|
        ensures n.norm(missing[k]) !in Tags(item, "label")
      {
        assert !CarriesLabel(n, item, missing[k]);
      }
      assert !Hit(n, added, item);
      assert Terms(n, ds, item) == Terms(n, cs, item) + [Term(true, true)];
      AppendTrue(g, Terms(n, cs, item));
    }
  }

  lemma ListedIn(n: Naming, lbl: string, labels: seq<string>)
    ensures lbl in labels ==> Listed(n, lbl, labels)
  {
  }

  lemma ListedAppend(n: Naming, lbl: string, a: seq<string>, b: seq<string>)
    ensures Listed(n, lbl, a + b) <==> Listed(n, lbl, a) || Listed(n, lbl, b)
  {
    var all := a + b;
    assert forall i :: 0 <= i < |a| ==> all[i] == a[i];
    assert forall i :: 0 <= i < |b| ==> all[|a| + i] == b[i];
    if i :| 0 <= i < |all| && SameValue(n, lbl, all[i]) {
      if i >= |a| {
        assert b[i - |a|] == all[i];
      }
    }
  }

  lemma PlaceKeepsEnforced(cs: seq<Condition>, missing: seq<string>, valueSep: string, i: nat)
    requires |missing| > 0 && i < |cs|
    ensures Enforced(Place(cs, missing, valueSep), i) <==> Enforced(cs, i)
  {
    var ds := Place(cs, missing, valueSep);
    assert forall j :: 0 <= j < |cs| ==> ds[j].sep == cs[j].sep;
    assert |ds| > |cs| ==> ds[|cs|].sep == '&';
  }

  /** Placing labels enforces them, and whatever was enforced stays so. */
  lemma PlaceEnforces(n: Naming, cs: seq<Condition>, missing: seq<string>, valueSep: string, lbl: string)
    requires |missing| > 0
    ensures EnforcesLabel(n, Place(cs, missing, valueSep), lbl) <==>
            EnforcesLabel(n, cs, lbl) || Listed(n, lbl, missing)
  {
    var t := FirstTarget(cs, 0);
    var ds := Place(cs, missing, valueSep);
    forall i | 0 <= i < |cs|
      ensures IsTarget(ds, i) <==> IsTarget(cs, i)
    {
      PlaceKeepsEnforced(cs, missing, valueSep, i);
    }
    assert IsTarget(ds, t);
    if t < |cs| {
      ListedAppend(n, lbl, cs[t].values, missing);
      assert forall i :: 0 <= i < |cs| && i != t ==> ds[i] == cs[i];
    } else {
      assert ds[t].values == missing;
      assert forall i :: 0 <= i < |cs| ==> ds[i] == cs[i];
    }
  }

  /** Everything wanted is enforced in the merged list, before it is printed. */
  lemma MergedEnforces(n: Naming, cs: seq<Condition>, labels: seq<string>)
    ensures AllEnforced(n, MergedConditions(n, cs, labels), Wanted(n, cs, labels))
  {
    var wanted := Wanted(n, cs, labels);
    var kept := Lifted(n, cs);
    var missing := Missing(n, wanted, kept);
    forall i | 0 <= i < |wanted|
      ensures EnforcesLabel(n, MergedConditions(n, cs, labels), wanted[i])
    {
      if |missing| > 0 {
        ListedIn(n, wanted[i], missing);
        PlaceEnforces(n, kept, missing, HouseValueSep(cs), wanted[i]);
      } else {
        assert wanted[i] in wanted && wanted[i] !in missing;
      }
    }
  }

  // ----- printing the result -----

  lemma WithoutValuesClean(c: Condition, drop: string -> bool)
    requires Clean(c) && WithoutValues(c, drop).Some?
    ensures PrintableCondition(WithoutValues(c, drop).value)
    ensures forall v :: v in WithoutValues(c, drop).value.values ==> v in c.values
  {
    ExactSeps(c);
    SurvivorsShape(c.values, c.valueSeps, drop);
    SurvivorsMembers(c.values, c.valueSeps, drop);
    var d := WithoutValues(c, drop).value;
    forall i | 0 <= i < |d.values|
      ensures Free(d.values[i], PIPE_SEP) && (c.op == Is ==> NoNe(d.values[i]))
    {
      assert d.values[i] in d.values;
      var j :| 0 <= j < |c.values| && c.values[j] == d.values[i];
    }
  }

  ghost predicate AmpersandFree(c: Condition) {
    forall j :: 0 <= j < |c.values| ==> Free(c.values[j], AMPERSAND)
  }

  /** Edits that keep separators and only take values away keep a filter printable. */
  lemma CollectPrintable(cs: seq<Condition>, edits: seq<Option<Condition>>)
    requires Printable(cs) && KeepsSeps(cs, edits)
    requires forall i :: 0 <= i < |edits| && edits[i].Some? ==>
               PrintableCondition(edits[i].value) && AmpersandFree(edits[i].value)
    ensures Printable(Collect(edits))
  {
    var kept := Collect(edits);
    forall k | 0 <= k < |kept|
      ensures PrintableCondition(kept[k]) && AmpersandFree(kept[k])
    {
      assert edits[Origin(edits, k)].Some?;
    }
    forall k | 1 <= k < |kept|
      ensures kept[k].sep in CONDITION_SEPS
    {
      OriginMonotone(edits, 0, k);
    }
  }

  lemma LiftEditPrintable(n: Naming, cs: seq<Condition>, i: nat)
    requires i < |cs| && Clean(cs[i]) && AmpersandFree(cs[i]) && LiftEdit(n, cs, i).Some?
    ensures PrintableCondition(LiftEdit(n, cs, i).value) && AmpersandFree(LiftEdit(n, cs, i).value)
  {
    if LiftEdit(n, cs, i) != Some(cs[i]) {
      WithoutValuesClean(cs[i], n.ours);
      var d := LiftEdit(n, cs, i).value;
      forall j | 0 <= j < |d.values|
        ensures Free(d.values[j], AMPERSAND)
      {
        assert d.values[j] in d.values;
      }
    }
  }

  lemma LiftedPrintable(n: Naming, cs: seq<Condition>)
    requires WellFormed(cs) && NoAmpersand(cs)
    ensures Printable(Lifted(n, cs))
  {
    ParsedIsPrintable(cs);
    forall i | 0 <= i < |cs| && LiftEdit(n, cs, i).Some?
      ensures PrintableCondition(LiftEdit(n, cs, i).value) && AmpersandFree(LiftEdit(n, cs, i).value)
    {
      LiftEditPrintable(n, cs, i);
    }
    CollectPrintable(cs, LiftEdits(n, cs));
  }

  lemma {:induction false} HouseValueSepIsSep(cs: seq<Condition>)
    ensures IsValueSep(HouseValueSep(cs))
  {
    if |cs| > 0 {
      EncodedSepIsSep(cs[0].valueSeps);
      HouseValueSepIsSep(cs[1..]);
    }
  }

  lemma EncodedSepIsSep(seps: seq<string>)
    ensures EncodedSepIn(seps).Some? ==> IsValueSep(EncodedSepIn(seps).value)
  {
  }

  lemma GrowClean(n: Naming, c: Condition, missing: seq<string>, valueSep: string)
    requires |missing| > 0 && IsValueSep(valueSep) && ShortlistLabels(n, missing) && SaneNaming(n)
    requires PrintableCondition(c) && AmpersandFree(c) && c.op == IsNot
    ensures Clean(Grow(c, missing, valueSep)) && AmpersandFree(Grow(c, missing, valueSep))
  {
    var d := Grow(c, missing, valueSep);
    ExactSeps(c);
    forall i | 0 <= i < |d.values|
      ensures NoValueSep(d.values[i]) && Free(d.values[i], PIPE_SEP) && Free(d.values[i], AMPERSAND)
    {
      if i < |c.values| {
        assert d.values[i] == c.values[i];
        assert c.values != [""] ==> Free(c.values[i], PIPE_SEP);
      } else {
        assert d.values[i] == missing[i - |c.values|];
        assert ShortlistLabel(n, missing[i - |c.values|]);
        FreeBoth(d.values[i]);
      }
    }
    assert d.values[|d.values| - 1] == missing[|missing| - 1];
    assert ShortlistLabel(n, missing[|missing| - 1]);
    assert d.values != [""];
  }

  lemma PlacePrintable(n: Naming, cs: seq<Condition>, missing: seq<string>, valueSep: string)
    requires |missing| > 0 && IsValueSep(valueSep) && ShortlistLabels(n, missing) && SaneNaming(n)
    requires Printable(cs)
    ensures Printable(Place(cs, missing, valueSep))
  {
    var t := FirstTarget(cs, 0);
    var ds := Place(cs, missing, valueSep);
    var base := if t < |cs| then cs[t] else Condition("label", IsNot, [], '&', []);
    assert AmpersandFree(base);
    GrowClean(n, base, missing, valueSep);
    if t < |cs| {
      assert ds[t] == Grow(base, missing, valueSep);
    } else {
      assert base.values + missing == missing;
      assert [] + Fill(valueSep, |missing| - 1) == Fill(valueSep, |missing| - 1);
      assert ds[t] == Grow(base, missing, valueSep);
    }
    assert Clean(ds[t]) && AmpersandFree(ds[t]);
    forall i | 0 <= i < |ds|
      ensures PrintableCondition(ds[i]) && AmpersandFree(ds[i])
    {
      if i != t {
        assert ds[i] == cs[i];
      }
    }
  }

  /** Whatever the merge carries or is given, each missing label can be written into a filter. */
  lemma WantedAreLabels(n: Naming, cs: seq<Condition>, labels: seq<string>)
    requires WellFormed(cs) && NoAmpersand(cs) && ShortlistLabels(n, labels)
    ensures forall l :: l in Wanted(n, cs, labels) ==> ShortlistLabel(n, l)
  {
    forall l | l in Wanted(n, cs, labels)
      ensures ShortlistLabel(n, l)
    {
      assert l in Carried(n, cs) + labels;
      if l in Carried(n, cs) {
        var i := CarriedUpToFrom(n, cs, |cs|, l);
        assert Clean(cs[i]);
        var j :| 0 <= j < |cs[i].values| && cs[i].values[j] == l;
        FreeBoth(l);
      } else {
        var j :| 0 <= j < |labels| && labels[j] == l;
      }
    }
  }

  lemma MergedPrintable(n: Naming, cs: seq<Condition>, labels: seq<string>)
    requires WellFormed(cs) && NoAmpersand(cs) && ShortlistLabels(n, labels) && SaneNaming(n)
    ensures Printable(MergedConditions(n, cs, labels))
  {
    LiftedPrintable(n, cs);
    WantedAreLabels(n, cs, labels);
    HouseValueSepIsSep(cs);
    var missing := Missing(n, Wanted(n, cs, labels), Lifted(n, cs));
    if |missing| > 0 {
      assert ShortlistLabels(n, missing) by {
        forall i | 0 <= i < |missing|
          ensures ShortlistLabel(n, missing[i])
        {
          assert missing[i] in missing;
        }
      }
      PlacePrintable(n, Lifted(n, cs), missing, HouseValueSep(cs));
    }
  }

  lemma ReadBackEnforces(n: Naming, cs: seq<Condition>, lbl: string)
    requires n.norm(lbl) != n.norm("")
    ensures EnforcesLabel(n, ReadBack(cs), lbl) <==> EnforcesLabel(n, cs, lbl)
  {
    var ds := ReadBack(cs);
    forall i | 0 <= i < |cs|
      ensures IsTarget(ds, i) <==> IsTarget(cs, i)
      ensures Listed(n, lbl, ds[i].values) <==> Listed(n, lbl, cs[i].values)
    {
    }
  }

  lemma NoLiteralAmpersand(cs: seq<Condition>)
    ensures LiteralAmpersand(cs) <==> !NoAmpersand(cs)
  {
    if LiteralAmpersand(cs) {
      var i, j :| 0 <= i < |cs| && 0 <= j < |cs[i].values| && '&' in cs[i].values[j];
      var k :| 0 <= k < |cs[i].values[j]| && cs[i].values[j][k] == '&';
      assert !Free(cs[i].values[j], AMPERSAND);
    }
    if !NoAmpersand(cs) {
      var i, j :| 0 <= i < |cs| && 0 <= j < |cs[i].values| && !Free(cs[i].values[j], AMPERSAND);
    }
  }

  lemma ReadBackReadable(cs: seq<Condition>)
    requires Printable(cs)
    ensures !LiteralAmpersand(ReadBack(cs))
  {
    var ds := ReadBack(cs);
    NoLiteralAmpersand(ds);
    forall i, j | 0 <= i < |ds| && 0 <= j < |ds[i].values|
      ensures Free(ds[i].values[j], AMPERSAND)
    {
      assert ds[i].values == cs[i].values;
    }
  }

  // ----- the main results -----

  /** The merged filter is what its conditions print as, and reads back as them. */
  lemma MergeResult(n: Naming, raw: string, labels: seq<string>)
    requires ParseFilter(raw).Ok? && !LiteralAmpersand(ParseFilter(raw).value)
    requires ShortlistLabels(n, labels) && SaneNaming(n)
    ensures var merged := MergedConditions(n, ParseFilter(raw).value, labels);
            && Merge(n, raw, labels) == Ok(Serialize(merged))
            && ParseFilter(Serialize(merged)) == Ok(ReadBack(merged))
            && AllEnforced(n, ReadBack(merged), Wanted(n, ParseFilter(raw).value, labels))
  {
    var cs := ParseFilter(raw).value;
    var wanted := Wanted(n, cs, labels);
    var merged := MergedConditions(n, cs, labels);
    ParseRoundTrip(raw);
    NoLiteralAmpersand(cs);
    MergedPrintable(n, cs, labels);
    ParseOfPrinted(merged);
    MergedEnforces(n, cs, labels);
    WantedAreLabels(n, cs, labels);
    forall i | 0 <= i < |wanted|
      ensures EnforcesLabel(n, ReadBack(merged), wanted[i])
    {
      assert wanted[i] in wanted;
      ReadBackEnforces(n, merged, wanted[i]);
    }
    if !LiftChanges(n, cs) {
      LiftUnchanged(n, cs);
    }
  }

  /** A merged filter is well formed, and readable by Plex. */
  lemma MergeReadsBack(n: Naming, raw: string, labels: seq<string>)
    requires ShortlistLabels(n, labels) && SaneNaming(n) && Merge(n, raw, labels).Ok?
    ensures ParseFilter(raw).Ok? && !LiteralAmpersand(ParseFilter(raw).value)
    ensures var cs := ParseFilter(raw).value;
            var ds := ReadBack(MergedConditions(n, cs, labels));
            && WellFormed(cs) && NoAmpersand(cs) && Serialize(cs) == raw
            && Merge(n, raw, labels) == Ok(Serialize(ds))
            && ParseFilter(Serialize(ds)) == Ok(ds)
            && !LiteralAmpersand(ds)
            && AllEnforced(n, ds, Wanted(n, cs, labels))
  {
    MergeNeverFailsItsCheck(n, raw, labels);
    MergeResult(n, raw, labels);
    ParseRoundTrip(raw);
    var cs := ParseFilter(raw).value;
    NoLiteralAmpersand(cs);
    MergedPrintable(n, cs, labels);
    ReadBackText(MergedConditions(n, cs, labels));
    ReadBackReadable(MergedConditions(n, cs, labels));
  }

  /** The merge refuses a filter only when it does not parse or Plex cannot read it; its own check never fails. */
  lemma MergeNeverFailsItsCheck(n: Naming, raw: string, labels: seq<string>)
    requires ShortlistLabels(n, labels) && SaneNaming(n)
    ensures Merge(n, raw, labels).Ok? <==> ParseFilter(raw).Ok? && !LiteralAmpersand(ParseFilter(raw).value)
    ensures Merge(n, raw, labels) != Err(SelfCheck)
  {
    if ParseFilter(raw).Ok? && !LiteralAmpersand(ParseFilter(raw).value) {
      MergeResult(n, raw, labels);
    }
  }

  lemma EnforcedLabelHides(g: Grouping, n: Naming, cs: seq<Condition>, lbl: string, item: Item)
    requires EnforcesLabel(n, cs, lbl) && CarriesLabel(n, item, lbl)
    ensures !Shows(g, n, cs, item)
  {
    var i :| 0 <= i < |cs| && IsTarget(cs, i) && Listed(n, lbl, cs[i].values);
    assert Hit(n, cs[i], item);
    EnforcedVetoes(g, n, cs, i, item);
  }

  /** Every wanted label is enforced by the merged filter. */
  lemma MergeEnforces(n: Naming, raw: string, labels: seq<string>, k: nat)
    requires ShortlistLabels(n, labels) && SaneNaming(n) && Merge(n, raw, labels).Ok? && k < |labels|
    ensures ParseFilter(Merge(n, raw, labels).value).Ok?
    ensures EnforcesLabel(n, ParseFilter(Merge(n, raw, labels).value).value, labels[k])
  {
    hide Merge;
    hide MergedConditions;
    hide Carried;
    hide Distinct;
    hide ParseFilter;
    hide Serialize;
    hide EnforcesLabel;
    MergeNeverFailsItsCheck(n, raw, labels);
    MergeResult(n, raw, labels);
    var cs := ParseFilter(raw).value;
    var all := Carried(n, cs) + labels;
    assert all[|Carried(n, cs)| + k] == labels[k];
    DistinctLists(n, all, |Carried(n, cs)| + k);
    var wanted := Wanted(n, cs, labels);
    var w :| 0 <= w < |wanted| && SameValue(n, labels[k], wanted[w]);
    EnforcesSame(n, ReadBack(MergedConditions(n, cs, labels)), wanted[w], labels[k]);
  }

  lemma EnforcesSame(n: Naming, cs: seq<Condition>, a: string, b: string)
    requires SameValue(n, a, b) && EnforcesLabel(n, cs, a)
    ensures EnforcesLabel(n, cs, b)
  {
    var i :| 0 <= i < |cs| && IsTarget(cs, i) && Listed(n, a, cs[i].values);
    assert Listed(n, b, cs[i].values);
  }

  /** No item carrying a wanted label passes the merged filter, whichever grouping Plex uses. */
  lemma MergeHides(g: Grouping, n: Naming, raw: string, labels: seq<string>, k: nat, item: Item)
    requires ShortlistLabels(n, labels) && SaneNaming(n) && Merge(n, raw, labels).Ok?
    requires k < |labels| && CarriesLabel(n, item, labels[k])
    ensures ParseFilter(Merge(n, raw, labels).value).Ok?
    ensures !Shows(g, n, ParseFilter(Merge(n, raw, labels).value).value, item)
  {
    MergeEnforces(n, raw, labels, k);
    EnforcedLabelHides(g, n, ParseFilter(Merge(n, raw, labels).value).value, labels[k], item);
  }

  lemma CarriesNoneMissing(n: Naming, cs: seq<Condition>, labels: seq<string>, item: Item)
    requires CarriesNone(n, item, Carried(n, cs)) && CarriesNone(n, item, labels)
    ensures CarriesNone(n, item, Missing(n, Wanted(n, cs, labels), Lifted(n, cs)))
  {
    var missing := Missing(n, Wanted(n, cs, labels), Lifted(n, cs));
    forall i | 0 <= i < |missing|
      ensures !CarriesLabel(n, item, missing[i])
    {
      assert missing[i] in missing;
      assert missing[i] in Carried(n, cs) + labels;
      if missing[i] in Carried(n, cs) {
        var k :| 0 <= k < |Carried(n, cs)| && Carried(n, cs)[k] == missing[i];
      } else {
        var k :| 0 <= k < |labels| && labels[k] == missing[i];
      }
    }
  }

  /** An item carrying no label the merge adds or moves passes the merged filter only if it passed before; when
      nothing had to be moved, exactly then. */
  lemma MergeNeverShowsMore(g: Grouping, n: Naming, raw: string, labels: seq<string>, item: Item)
    requires ShortlistLabels(n, labels) && SaneNaming(n) && Merge(n, raw, labels).Ok?
    requires NoBlankTag(n, item) && ParseFilter(raw).Ok?
    requires CarriesNone(n, item, Carried(n, ParseFilter(raw).value)) && CarriesNone(n, item, labels)
    ensures ParseFilter(Merge(n, raw, labels).value).Ok?
    ensures var before, after := ParseFilter(raw).value, ParseFilter(Merge(n, raw, labels).value).value;
            && (Shows(g, n, after, item) ==> Shows(g, n, before, item))
            && (!LiftChanges(n, before) ==> (Shows(g, n, after, item) <==> Shows(g, n, before, item)))
  {
    MergeNeverFailsItsCheck(n, raw, labels);
    MergeResult(n, raw, labels);
    ParseRoundTrip(raw);
    var cs := ParseFilter(raw).value;
    NoLiteralAmpersand(cs);
    var kept := Lifted(n, cs);
    var missing := Missing(n, Wanted(n, cs, labels), kept);
    ReadBackShowsSame(g, n, MergedConditions(n, cs, labels), item);
    CarriesNoneMissing(n, cs, labels, item);
    if |missing| > 0 {
      PlaceShowsSame(g, n, kept, missing, HouseValueSep(cs), item);
    }
    LiftIsSafe(n, cs, item);
    SafeEditsNeverShowMore(g, n, cs, LiftEdits(n, cs), item);
    if !LiftChanges(n, cs) {
      LiftUnchanged(n, cs);
    }
  }

  /** When no label of ours stands where Plex ignores it, the merged filter means the original one and "nothing
      labelled so". */
  lemma MergeMeansAndNotLabelled(g: Grouping, n: Naming, raw: string, labels: seq<string>, item: Item)
    requires ShortlistLabels(n, labels) && SaneNaming(n) && Merge(n, raw, labels).Ok?
    requires NoBlankTag(n, item) && ParseFilter(raw).Ok? && Carried(n, ParseFilter(raw).value) == []
    ensures ParseFilter(Merge(n, raw, labels).value).Ok?
    ensures Shows(g, n, ParseFilter(Merge(n, raw, labels).value).value, item) <==>
            Shows(g, n, ParseFilter(raw).value, item) && CarriesNone(n, item, labels)
  {
    MergeNeverFailsItsCheck(n, raw, labels);
    MergeResult(n, raw, labels);
    if CarriesNone(n, item, labels) {
      NothingCarriedNothingChanged(n, ParseFilter(raw).value);
      MergeNeverShowsMore(g, n, raw, labels, item);
    } else {
      var k :| 0 <= k < |labels| && CarriesLabel(n, item, labels[k]);
      MergeHides(g, n, raw, labels, k, item);
    }
  }

  lemma NothingCarriedNothingChanged(n: Naming, cs: seq<Condition>)
    requires Carried(n, cs) == []
    ensures !LiftChanges(n, cs)
  {
    if LiftChanges(n, cs) {
      var i :| 0 <= i < |cs| && LiftEdit(n, cs, i) != Some(cs[i]);
      var v := Mine(n, cs[i].values)[0];
      assert v in Mine(n, cs[i].values);
      CarriedUpToHas(n, cs, |cs|, i, v);
      assert false;
    }
  }
}
