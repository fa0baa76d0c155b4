/** How an added label is joined to what is there: by its clause's own last separator if it has one, else by the first
    encoded comma of the filter as it was read, so that a filter Plex Web wrote is not given a plain comma. */
module HouseStyle {
  import opened ShareFilter
  import opened FilterSemantics
  import opened FilterEdits
  import opened FilterGroups
  import opened FilterMerge
  import opened FilterAllow
  import opened MergeTheorems
  import opened AllowTheorems

  predicate EncodedComma(s: string) {
    s == "%2C" || s == "%2c"
  }

  ghost predicate EncodedAt(cs: seq<Condition>, i: nat, j: nat) {
    i < |cs| && j < |cs[i].valueSeps| && EncodedComma(cs[i].valueSeps[j])
  }

  ghost predicate FirstEncodedAt(cs: seq<Condition>, i: nat, j: nat) {
    && EncodedAt(cs, i, j)
    && (forall l: nat :: EncodedAt(cs, i, l) ==> j <= l)
    && (forall k: nat, l: nat :: EncodedAt(cs, k, l) ==> i <= k)
  }

  /** The filter's first encoded comma, in reading order, or a plain comma if it has none. */
  ghost predicate HouseSep(cs: seq<Condition>, house: string) {
    || (house == "," && forall i: nat, j: nat :: !EncodedAt(cs, i, j))
    || exists i: nat, j: nat :: FirstEncodedAt(cs, i, j) && house == cs[i].valueSeps[j]
  }

  /** `d` has the values of `c` and more behind them; every gap before one of those holds the last separator of `c`, or
      the house one if `c` has none. */
  ghost predicate Joins(c: Condition, d: Condition, house: string) {
    && c.field == d.field && c.op == d.op
    && |c.values| < |d.values| == |d.valueSeps| + 1
    && c.values <= d.values && c.valueSeps <= d.valueSeps
    && forall j :: |c.valueSeps| <= j < |d.valueSeps| ==>
         d.valueSeps[j] == if |c.valueSeps| > 0 then c.valueSeps[|c.valueSeps| - 1] else house
  }

  lemma {:induction false} FirstEncodedIn(seps: seq<string>) returns (j: nat)
    ensures EncodedSepIn(seps).None? ==> forall l :: 0 <= l < |seps| ==> !EncodedComma(seps[l])
    ensures EncodedSepIn(seps).Some? ==>
              && j < |seps| && EncodedComma(seps[j]) && EncodedSepIn(seps).value == seps[j]
              && forall l :: 0 <= l < j ==> !EncodedComma(seps[l])
  {
    j := 0;
    if |seps| > 0 && !EncodedComma(seps[0]) {
      j := FirstEncodedIn(seps[1..]);
      j := j + 1;
      assert forall l :: 1 <= l < |seps| ==> seps[l] == seps[1..][l - 1];
    }
  }

  lemma HouseSepCons(c: Condition, rest: seq<Condition>, house: string)
    requires HouseSep(rest, house) && forall l :: 0 <= l < |c.valueSeps| ==> !EncodedComma(c.valueSeps[l])
    ensures HouseSep([c] + rest, house)
  {
    var cs := [c] + rest;
    forall i: nat, j: nat
      ensures EncodedAt(cs, i, j) <==> i > 0 && EncodedAt(rest, i - 1, j)
    {
    }
    if i: nat, j: nat :| FirstEncodedAt(rest, i, j) && house == rest[i].valueSeps[j] {
      assert FirstEncodedAt(cs, i + 1, j) && cs[i + 1] == rest[i];
    }
  }

  lemma {:induction false} IsHouseSep(cs: seq<Condition>)
    ensures HouseSep(cs, HouseValueSep(cs))
  {
    if |cs| > 0 {
      var j := FirstEncodedIn(cs[0].valueSeps);
      if EncodedSepIn(cs[0].valueSeps).Some? {
        assert EncodedAt(cs, 0, j) && FirstEncodedAt(cs, 0, j);
      } else {
        IsHouseSep(cs[1..]);
        HouseSepCons(cs[0], cs[1..], HouseValueSep(cs[1..]));
        assert cs == [cs[0]] + cs[1..];
      }
    }
  }

  lemma GrowJoins(c: Condition, more: seq<string>, house: string)
    requires |more| > 0 && GapCount(c.values, c.valueSeps)
    ensures Joins(c, Grow(c, more, house), house)
    ensures Grow(c, more, house) == c.(values := c.values + more, valueSeps := Grow(c, more, house).valueSeps)
  {
  }

  // ----- the merge -----

  /** A clause of the merged filter is one the lift kept, or one that was given labels. */
  ghost predicate KeptOrJoined(c: Condition, d: Condition, house: string) {
    d == Blanked(c).(sep := d.sep) || Joins(c, d, house)
  }

  lemma PlaceJoins(kept: seq<Condition>, missing: seq<string>, house: string)
    requires |missing| > 0 && forall k :: 0 <= k < |kept| ==> GapCount(kept[k].values, kept[k].valueSeps)
    ensures var ds := ReadBack(Place(kept, missing, house));
            && |kept| <= |ds| <= |kept| + 1
            && (forall k :: 0 <= k < |kept| ==> KeptOrJoined(kept[k], ds[k], house))
            && (|ds| > |kept| ==> forall j :: 0 <= j < |ds[|kept|].valueSeps| ==> ds[|kept|].valueSeps[j] == house)
  {
    hide Joins;
    hide Grow;
    var t := FirstTarget(kept, 0);
    var placed := Place(kept, missing, house);
    if t < |kept| {
      GrowJoins(kept[t], missing, house);
      JoinsAnySep(kept[t], placed[t], house, ReadBack(placed)[t].sep);
    }
  }

  lemma JoinsAnySep(c: Condition, d: Condition, house: string, sep: char)
    requires Joins(c, d, house)
    ensures d.values != [""] || |c.values| == 0
    ensures Joins(c, d.(sep := sep), house)
  {
  }

  lemma LiftedGaps(n: Naming, cs: seq<Condition>)
    requires WellFormed(cs) && NoAmpersand(cs)
    ensures forall k :: 0 <= k < |Lifted(n, cs)| ==> GapCount(Lifted(n, cs)[k].values, Lifted(n, cs)[k].valueSeps)
  {
    LiftedPrintable(n, cs);
  }

  lemma UnplacedKept(kept: seq<Condition>, house: string)
    ensures var ds := ReadBack(kept);
            |ds| == |kept| && forall k :: 0 <= k < |kept| ==> KeptOrJoined(kept[k], ds[k], house)
  {
  }

  /** Every label the merge adds is joined in the style of its clause, or of the filter that was read. */
  lemma MergeJoinsInStyle(n: Naming, raw: string, labels: seq<string>) returns (house: string)
    requires ShortlistLabels(n, labels) && SaneNaming(n) && Merge(n, raw, labels).Ok?
    ensures ParseFilter(raw).Ok? && ParseFilter(Merge(n, raw, labels).value).Ok?
    ensures var cs, ds := ParseFilter(raw).value, ParseFilter(Merge(n, raw, labels).value).value;
            var kept := Lifted(n, cs);
            && HouseSep(cs, house) && |kept| <= |ds| <= |kept| + 1
            && (forall k :: 0 <= k < |kept| ==> KeptOrJoined(kept[k], ds[k], house))
            && (|ds| > |kept| ==> forall j :: 0 <= j < |ds[|kept|].valueSeps| ==> ds[|kept|].valueSeps[j] == house)
  {
    hide Merge;
    hide ParseFilter;
    hide Lifted;
    hide KeptOrJoined;
    hide Place;
    hide HouseSep;
    MergeReadsBack(n, raw, labels);
    var cs := ParseFilter(raw).value;
    var kept := Lifted(n, cs);
    var missing := Missing(n, Wanted(n, cs, labels), kept);
    house := HouseValueSep(cs);
    IsHouseSep(cs);
    LiftedGaps(n, cs);
    if |missing| > 0 {
      PlaceJoins(kept, missing, house);
    } else {
      UnplacedKept(kept, house);
    }
  }

  // ----- showing the own row -----

  ghost predicate FromFilter(cs: seq<Condition>, d: Condition) {
    exists i :: 0 <= i < |cs| && d == cs[i].(sep := d.sep)
  }

  ghost predicate AllFrom(cs: seq<Condition>, g: seq<Condition>) {
    forall k :: 0 <= k < |g| ==> FromFilter(cs, g[k])
  }

  ghost predicate GroupsFrom(cs: seq<Condition>, gs: seq<seq<Condition>>) {
    forall q :: 0 <= q < |gs| ==> AllFrom(cs, gs[q])
  }

  /** A clause of the filter that shows the own row is one that was read, one of those given the label, or the label
      alone. */
  ghost predicate ReadOrJoined(cs: seq<Condition>, own: string, d: Condition, house: string) {
    || FromFilter(cs, d)
    || (exists i :: 0 <= i < |cs| && IsLabelAllow(cs[i]) && d.values == cs[i].values + [own] && Joins(cs[i], d, house))
    || (IsLabelAllow(d) && d.values == [own] && d.valueSeps == [])
  }

  lemma DropGroupFrom(n: Naming, own: string, g: seq<Condition>, cs: seq<Condition>)
    requires |g| > 0 && AllFrom(cs, g)
    ensures AllFrom(cs, DropGroup(n, own, g))
  {
    if !AnyOwnersAllow(n, own, g) {
      var pending := AnyOursExclude(n, g);
      var spare := Spare(n, own, pending, g);
      forall k | 0 <= k < |spare|
        ensures FromFilter(cs, spare[k])
      {
        SpareGood(n, own, pending, g, k);
      }
    }
  }

  lemma {:induction false} DropGroupsFrom(n: Naming, own: string, gs: seq<seq<Condition>>, cs: seq<Condition>)
    requires forall q :: 0 <= q < |gs| ==> |gs[q]| > 0
    requires GroupsFrom(cs, gs)
    ensures GroupsFrom(cs, DropGroups(n, own, gs))
    decreases |gs|
  {
    hide DropGroup;
    if |gs| > 0 {
      assert AllFrom(cs, gs[0]);
      DropGroupFrom(n, own, gs[0], cs);
      DropGroupsFrom(n, own, gs[1..], cs);
      var d, rest := DropGroup(n, own, gs[0]), DropGroups(n, own, gs[1..]);
      assert DropGroups(n, own, gs) == (if |d| == 0 then [] else [d]) + rest;
    }
  }

  lemma ReadGroupsFrom(cs: seq<Condition>)
    ensures GroupsFrom(cs, GroupsOf(cs))
  {
    hide GroupsOf;
    FlattenGroups(cs);
    forall q | 0 <= q < |GroupsOf(cs)|
      ensures AllFrom(cs, GroupsOf(cs)[q])
    {
      forall k | 0 <= k < |GroupsOf(cs)[q]|
        ensures FromFilter(cs, GroupsOf(cs)[q][k])
      {
        FlattenHolds(GroupsOf(cs), q, k);
      }
    }
  }

  lemma GrownIsJoined(cs: seq<Condition>, c: Condition, own: string, house: string)
    requires WellFormed(cs) && FromFilter(cs, c) && IsLabelAllow(c)
    ensures ReadOrJoined(cs, own, Grow(c, [own], house), house)
  {
    hide Grow;
    hide Joins;
    var i :| 0 <= i < |cs| && c == cs[i].(sep := c.sep);
    assert Clean(cs[i]);
    GrowJoins(c, [own], house);
    JoinsFromAnySep(c, cs[i], Grow(c, [own], house), house);
  }

  lemma JoinsFromAnySep(c: Condition, b: Condition, d: Condition, house: string)
    requires Joins(c, d, house) && c == b.(sep := c.sep)
    ensures Joins(b, d, house)
  {
  }

  lemma AdmitGroupJoined(n: Naming, own: string, prefix: string, g: seq<Condition>, cs: seq<Condition>, house: string)
    requires WellFormed(cs) && AllFrom(cs, g)
    ensures var h := AdmitGroup(n, own, prefix, house, g);
            forall k :: 0 <= k < |h| ==> ReadOrJoined(cs, own, h[k], house)
  {
    hide FromFilter;
    hide Joins;
    hide Grow;
    hide WellFormed;
    var c := AllowClause(g, 0);
    if c < |g| {
      GrownIsJoined(cs, g[c], own, house);
    }
  }

  lemma UnledJoined(cs: seq<Condition>, own: string, ds: seq<Condition>, house: string)
    requires forall k :: 0 <= k < |ds| ==> ReadOrJoined(cs, own, ds[k], house)
    ensures forall k :: 0 <= k < |Unled(ds)| ==> ReadOrJoined(cs, own, Unled(ds)[k], house)
  {
    if |ds| > 0 {
      ReadOrJoinedAnySep(cs, own, ds[0], house, '|');
    }
  }

  lemma ReadOrJoinedAnySep(cs: seq<Condition>, own: string, d: Condition, house: string, sep: char)
    requires ReadOrJoined(cs, own, d, house)
    ensures ReadOrJoined(cs, own, d.(sep := sep), house)
  {
    var e := d.(sep := sep);
    if i :| 0 <= i < |cs| && d == cs[i].(sep := d.sep) {
      assert e == cs[i].(sep := e.sep);
    } else if i :| 0 <= i < |cs| && IsLabelAllow(cs[i]) && d.values == cs[i].values + [own] && Joins(cs[i], d, house) {
      assert Joins(cs[i], e, house);
    }
  }

  lemma ShownJoined(n: Naming, own: string, prefix: string, cs: seq<Condition>, d: Condition)
    requires WellFormed(cs) && d in Flatten(ShownGroups(n, own, prefix, cs))
    ensures ReadOrJoined(cs, own, d, HouseValueSep(cs))
  {
    hide ReadOrJoined;
    hide WellFormed;
    hide AdmitGroup;
    hide DropGroups;
    GroupsShape(cs);
    ReadGroupsFrom(cs);
    var gs := DropGroups(n, own, GroupsOf(cs));
    DropGroupsFrom(n, own, GroupsOf(cs), cs);
    var q, k := FlattenMembers(ShownGroups(n, own, prefix, cs), d);
    assert |ShownGroups(n, own, prefix, cs)| == |gs|;
    AdmitGroupJoined(n, own, prefix, gs[q], cs, HouseValueSep(cs));
  }

  /** The own label is joined to a clause in the same style. */
  lemma AdmitJoinsInStyle(n: Naming, raw: string, own: string, prefix: string) returns (house: string)
    requires OwnLabel(n, own) && Admit(n, raw, own, prefix, true).Ok?
    ensures ParseFilter(raw).Ok? && ParseFilter(Admit(n, raw, own, prefix, true).value).Ok?
    ensures var cs, ds := ParseFilter(raw).value, ParseFilter(Admit(n, raw, own, prefix, true).value).value;
            HouseSep(cs, house) && forall k :: 0 <= k < |ds| ==> ReadOrJoined(cs, own, ds[k], house)
  {
    hide ParseFilter;
    hide ReadOrJoined;
    hide HouseSep;
    hide ShownGroups;
    hide WellFormed;
    AdmitLetsOwnRowPass(n, raw, own, prefix);
    ParseRoundTrip(raw);
    var cs := ParseFilter(raw).value;
    house := HouseValueSep(cs);
    IsHouseSep(cs);
    var shown := Flatten(ShownGroups(n, own, prefix, cs));
    forall k | 0 <= k < |shown|
      ensures ReadOrJoined(cs, own, shown[k], house)
    {
      ShownJoined(n, own, prefix, cs, shown[k]);
    }
    UnledJoined(cs, own, shown, house);
  }
}
