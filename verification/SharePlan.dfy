/** The filter one account should carry: its own rows admitted, everyone else's excluded, repeated until nothing
    changes or the passes run out. */
module SharePlan {
  import opened Options
  import opened FilterText
  import opened ShareFilter
  import opened FilterSemantics
  import opened FilterEdits
  import opened FilterGroups
  import opened FilterMerge
  import opened MergeTheorems
  import opened MergeStability
  import opened FilterAllow
  import opened AllowTheorems
  import opened AllowMethods

  const PLAN_PASSES := 4

  /** What the account's row is called, and whether it has one; no row label leaves the allow list alone. */
  datatype OwnRow = OwnRow(own: Option<string>, prefix: string, show: bool)

  /** A filter Plex can read. */
  ghost predicate Readable(raw: string) {
    ParseFilter(raw).Ok? && !LiteralAmpersand(ParseFilter(raw).value)
  }

  /** The row's label is one Shortlist makes. */
  ghost predicate PlannableRow(n: Naming, row: OwnRow) {
    row.own.Some? ==> OwnLabel(n, row.own.value)
  }

  /** The filter with the own row let in or taken out. */
  function Admitted(n: Naming, planned: string, row: OwnRow): Result<string> {
    if row.own.None? then Ok(planned) else Admit(n, planned, row.own.value, row.prefix, row.show)
  }

  /** One admit-then-merge pass. */
  function Pass(n: Naming, planned: string, wanted: seq<string>, row: OwnRow): Result<string> {
    var admitted := Admitted(n, planned, row);
    if admitted.Err? then admitted else Merge(n, admitted.value, wanted)
  }

  function PlanFrom(n: Naming, passes: nat, planned: string, wanted: seq<string>, row: OwnRow): Result<string> {
    if passes == 0 then Ok(planned)
    else
      var merged := Pass(n, planned, wanted, row);
      if merged.Err? then merged
      else if merged.value == planned then Ok(planned)
      else PlanFrom(n, passes - 1, merged.value, wanted, row)
  }

  function Plan(n: Naming, current: string, wanted: seq<string>, row: OwnRow): Result<string> {
    PlanFrom(n, PLAN_PASSES, current, wanted, row)
  }

  method AdmitThenMerge(n: Naming, planned: string, wanted: seq<string>, row: OwnRow) returns (r: Result<string>)
    ensures r == Pass(n, planned, wanted, row)
  {
    var admitted := planned;
    if row.own.Some? {
      r := AdmitOwnRows(n, planned, row.own.value, row.prefix, row.show);
      if r.Err? {
        return;
      }
      admitted := r.value;
    }
    r := MergeLabelExcludes(n, admitted, wanted);
  }

  /** One turn of the loop, with `left` passes to go, this one included. */
  method RunOnePass(n: Naming, planned: string, wanted: seq<string>, row: OwnRow, ghost left: nat)
    returns (merged: Result<string>)
    requires left > 0
    ensures PlanFrom(n, left, planned, wanted, row) ==
            if merged.Err? || merged == Ok(planned) then merged else PlanFrom(n, left - 1, merged.value, wanted, row)
  {
    merged := AdmitThenMerge(n, planned, wanted, row);
  }

  method RunPasses(n: Naming, passes: nat, current: string, wanted: seq<string>, row: OwnRow)
    returns (r: Result<string>)
    ensures r == PlanFrom(n, passes, current, wanted, row)
  {
    hide Pass;
    var planned := current;
    ghost var goal := PlanFrom(n, passes, current, wanted, row);
    ghost var left := passes;
    for pass := 0 to passes
      invariant left == passes - pass
      invariant goal == PlanFrom(n, left, planned, wanted, row)
    {
      var merged := RunOnePass(n, planned, wanted, row, left);
      if merged.Err? || merged.value == planned {
        return merged;
      }
      planned, left := merged.value, left - 1;
    }
    r := Ok(planned);
  }

  method PlanShareFilter(n: Naming, current: string, wanted: seq<string>, row: OwnRow) returns (r: Result<string>)
    ensures r == Plan(n, current, wanted, row)
  {
    r := RunPasses(n, PLAN_PASSES, current, wanted, row);
  }

  // ----- whatever is planned enforces what is wanted -----

  /** A plan is the outcome of a merge. */
  lemma {:induction false} PlanIsMerged(n: Naming, passes: nat, planned: string, wanted: seq<string>, row: OwnRow)
    returns (admitted: string)
    requires passes > 0 && PlanFrom(n, passes, planned, wanted, row).Ok?
    ensures Merge(n, admitted, wanted) == PlanFrom(n, passes, planned, wanted, row)
  {
    admitted := Admitted(n, planned, row).value;
    var merged := Pass(n, planned, wanted, row).value;
    if merged != planned && passes > 1 {
      admitted := PlanIsMerged(n, passes - 1, merged, wanted, row);
    }
  }

  /** Every wanted label is enforced by the plan, so nothing carrying it is shown under either grouping. */
  lemma PlanEnforcesWanted(n: Naming, current: string, wanted: seq<string>, row: OwnRow, k: nat)
    requires ShortlistLabels(n, wanted) && SaneNaming(n) && k < |wanted|
    requires Plan(n, current, wanted, row).Ok?
    ensures ParseFilter(Plan(n, current, wanted, row).value).Ok?
    ensures EnforcesLabel(n, ParseFilter(Plan(n, current, wanted, row).value).value, wanted[k])
    ensures forall g, item :: CarriesLabel(n, item, wanted[k]) ==>
              !Shows(g, n, ParseFilter(Plan(n, current, wanted, row).value).value, item)
  {
    var admitted := PlanIsMerged(n, PLAN_PASSES, current, wanted, row);
    MergeEnforces(n, admitted, wanted, k);
    var cs := ParseFilter(Plan(n, current, wanted, row).value).value;
    forall g, item | CarriesLabel(n, item, wanted[k])
      ensures !Shows(g, n, cs, item)
    {
      EnforcedLabelHides(g, n, cs, wanted[k], item);
    }
  }

  // ----- a settled plan lets the own row through -----

  /** The `label!=` clauses of a filter, in order. */
  function ExcludePart(c: Condition): Option<Condition> {
    if IsExclude(c) then Some(c.(sep := '|')) else None
  }

  function ExcludeParts(cs: seq<Condition>): (parts: seq<Option<Condition>>)
    ensures |parts| == |cs| && forall i :: 0 <= i < |cs| ==> parts[i] == ExcludePart(cs[i])
  {
    seq(|cs|, i requires 0 <= i < |cs| => ExcludePart(cs[i]))
  }

  function ExcludesOf(cs: seq<Condition>): seq<Condition> {
    Collect(ExcludeParts(cs))
  }

  lemma ExcludesSnoc(cs: seq<Condition>, c: Condition)
    ensures ExcludesOf(cs + [c]) == ExcludesOf(cs) + (if IsExclude(c) then [c.(sep := '|')] else [])
  {
    assert ExcludeParts(cs + [c]) == ExcludeParts(cs) + [ExcludePart(c)];
    CollectSnoc(ExcludeParts(cs), ExcludePart(c));
  }

  lemma {:induction false} ExcludesConcat(a: seq<Condition>, b: seq<Condition>)
    ensures ExcludesOf(a + b) == ExcludesOf(a) + ExcludesOf(b)
    decreases |b|
  {
    if |b| == 0 {
      assert a + b == a;
      assert ExcludesOf(a) + [] == ExcludesOf(a);
    } else {
      var init, c := b[..|b| - 1], b[|b| - 1];
      SplitLast(b);
      ExcludesConcat(a, init);
      Assoc(a, init, [c]);
      ExcludesSnoc(a + init, c);
      ExcludesSnoc(init, c);
      Assoc(ExcludesOf(a), ExcludesOf(init), if IsExclude(c) then [c.(sep := '|')] else []);
    }
  }

  lemma SameExcludes(cs: seq<Condition>, ds: seq<Condition>)
    requires |cs| == |ds| && forall i :: 0 <= i < |cs| ==> ExcludePart(cs[i]) == ExcludePart(ds[i])
    ensures ExcludesOf(cs) == ExcludesOf(ds)
  {
    assert ExcludeParts(cs) == ExcludeParts(ds);
  }

  lemma ExcludesCons(c: Condition, g: seq<Condition>)
    ensures ExcludesOf([c] + g) == (if IsExclude(c) then [c.(sep := '|')] else []) + ExcludesOf(g)
  {
    ExcludesConcat([c], g);
    ExcludesSnoc([], c);
    assert [] + [c] == [c];
    assert ExcludesOf([]) == [];
  }

  lemma {:induction false} SpareExcludes(n: Naming, own: string, pending: bool, g: seq<Condition>)
    ensures ExcludesOf(Spare(n, own, pending, g)) == ExcludesOf(g)
    decreases |g|
  {
    hide ExcludesOf;
    hide AllMine;
    if |g| > 0 {
      var rest := Spare(n, own, pending, g[1..]);
      SpareExcludes(n, own, pending, g[1..]);
      assert g == [g[0]] + g[1..];
      ExcludesCons(g[0], g[1..]);
      ExcludesCons(g[0], rest);
      if OwnOnly(n, own, g[0]) && !pending {
        assert [] + rest == rest && [] + ExcludesOf(g[1..]) == ExcludesOf(g[1..]);
      }
    } else {
      assert Spare(n, own, pending, g) == g;
    }
  }

  lemma DropGroupExcludes(n: Naming, own: string, g: seq<Condition>)
    requires |g| > 0
    ensures ExcludesOf(DropGroup(n, own, g)) == ExcludesOf(g)
  {
    var h := Spare(n, own, AnyOursExclude(n, g), g);
    SpareExcludes(n, own, AnyOursExclude(n, g), g);
    SameExcludes(Refit(h, g[0].sep), h);
  }

  lemma AdmitGroupExcludes(n: Naming, own: string, prefix: string, valueSep: string, g: seq<Condition>)
    ensures ExcludesOf(AdmitGroup(n, own, prefix, valueSep, g)) == ExcludesOf(g)
  {
    var h, c := AdmitGroup(n, own, prefix, valueSep, g), AllowClause(g, 0);
    if h != g {
      if c < |g| {
        SameExcludes(h, g);
      } else {
        ExcludesSnoc(g, h[|g|]);
      }
    }
  }

  lemma {:induction false} DropGroupsExcludes(n: Naming, own: string, gs: seq<seq<Condition>>)
    requires forall q :: 0 <= q < |gs| ==> |gs[q]| > 0
    ensures ExcludesOf(Flatten(DropGroups(n, own, gs))) == ExcludesOf(Flatten(gs))
    decreases |gs|
  {
    if |gs| > 0 {
      DropGroupsExcludes(n, own, gs[1..]);
      DropGroupsHead(n, own, gs);
      DropGroupExcludes(n, own, gs[0]);
      assert gs == [gs[0]] + gs[1..];
      FlattenCons(gs[0], gs[1..]);
      ExcludesConcat(gs[0], Flatten(gs[1..]));
      ExcludesConcat(DropGroup(n, own, gs[0]), Flatten(DropGroups(n, own, gs[1..])));
    }
  }

  lemma {:induction false} PointwiseExcludes(gs: seq<seq<Condition>>, hs: seq<seq<Condition>>)
    requires |gs| == |hs| && forall q :: 0 <= q < |gs| ==> ExcludesOf(hs[q]) == ExcludesOf(gs[q])
    ensures ExcludesOf(Flatten(hs)) == ExcludesOf(Flatten(gs))
  {
    if |gs| > 0 {
      var k := |gs| - 1;
      PointwiseExcludes(gs[..k], hs[..k]);
      ExcludesConcat(Flatten(gs[..k]), gs[k]);
      ExcludesConcat(Flatten(hs[..k]), hs[k]);
    }
  }

  /** Admitting the own row touches no exclude. */
  lemma AdmitKeepsExcludes(n: Naming, own: string, prefix: string, cs: seq<Condition>)
    ensures ExcludesOf(AdmitConditions(n, own, prefix, true, cs)) == ExcludesOf(cs)
  {
    GroupsShape(cs);
    FlattenGroups(cs);
    var ds := DropGroups(n, own, GroupsOf(cs));
    DropGroupsExcludes(n, own, GroupsOf(cs));
    AdmitGroupsExcludes(n, own, prefix, HouseValueSep(cs), ds);
    UnledExcludes(Flatten(ShownGroups(n, own, prefix, cs)));
  }

  lemma AdmitGroupsExcludes(n: Naming, own: string, prefix: string, valueSep: string, gs: seq<seq<Condition>>)
    ensures ExcludesOf(Flatten(AdmitGroups(n, own, prefix, valueSep, gs))) == ExcludesOf(Flatten(gs))
  {
    forall q | 0 <= q < |gs|
      ensures ExcludesOf(AdmitGroups(n, own, prefix, valueSep, gs)[q]) == ExcludesOf(gs[q])
    {
      AdmitGroupExcludes(n, own, prefix, valueSep, gs[q]);
    }
    PointwiseExcludes(gs, AdmitGroups(n, own, prefix, valueSep, gs));
  }

  lemma UnledExcludes(cs: seq<Condition>)
    ensures ExcludesOf(Unled(cs)) == ExcludesOf(cs)
  {
    SameExcludes(Unled(cs), cs);
  }

  // ----- an exclude that ends the filter keeps ending it -----

  /** The filter ends in an exclude that Plex applies. */
  predicate EndsEnforced(cs: seq<Condition>) {
    |cs| > 0 && IsExclude(cs[|cs| - 1]) && (|cs| == 1 || cs[|cs| - 1].sep == '&')
  }

  lemma DropLoneExclude(n: Naming, own: string, e: Condition)
    requires IsExclude(e)
    ensures DropGroup(n, own, [e]) == [e]
  {
    assert [e][1..] == [];
    assert Spare(n, own, AnyOursExclude(n, [e]), [e][1..]) == [];
    assert [e] + [] == [e] && [e][0] == e;
  }

  lemma {:induction false} DropGroupsEnd(n: Naming, own: string, gs: seq<seq<Condition>>, e: Condition)
    requires IsExclude(e) && forall q :: 0 <= q < |gs| ==> |gs[q]| > 0
    ensures DropGroups(n, own, gs + [[e]]) == DropGroups(n, own, gs) + [[e]]
    decreases |gs|
  {
    if |gs| == 0 {
      DropLoneExclude(n, own, e);
      assert gs + [[e]] == [[e]];
    } else {
      var rest := gs[1..];
      DropGroupsEnd(n, own, rest, e);
      assert (gs + [[e]])[1..] == rest + [[e]] && (gs + [[e]])[0] == gs[0];
      var d := DropGroup(n, own, gs[0]);
      Assoc(if |d| == 0 then [] else [d], DropGroups(n, own, rest), [[e]]);
    }
  }

  lemma AdmitLoneExclude(n: Naming, own: string, prefix: string, valueSep: string, e: Condition)
    requires IsExclude(e)
    ensures AdmitGroup(n, own, prefix, valueSep, [e]) == [e]
  {
  }

  lemma EndsWithGroup(cs: seq<Condition>)
    requires EndsEnforced(cs)
    ensures var e := cs[|cs| - 1];
            GroupsOf(cs) == GroupsOf(cs[..|cs| - 1]) + [[e]]
  {
    SplitLast(cs);
    GroupsSnoc(cs[..|cs| - 1], cs[|cs| - 1]);
  }

  lemma ShownEnds(n: Naming, own: string, prefix: string, cs: seq<Condition>)
    requires EndsEnforced(cs)
    ensures var hs := ShownGroups(n, own, prefix, cs);
            |hs| > 0 && hs[|hs| - 1] == [cs[|cs| - 1]]
  {
    var init, e := cs[..|cs| - 1], cs[|cs| - 1];
    EndsWithGroup(cs);
    GroupsShape(init);
    DropGroupsEnd(n, own, GroupsOf(init), e);
    AdmitLoneExclude(n, own, prefix, HouseValueSep(cs), e);
  }

  lemma AdmitKeepsEnd(n: Naming, own: string, prefix: string, cs: seq<Condition>)
    requires EndsEnforced(cs) && GoodGroups(ShownGroups(n, own, prefix, cs))
    ensures EndsEnforced(AdmitConditions(n, own, prefix, true, cs))
  {
    hide ShownGroups;
    hide GoodGroup;
    var hs, e := ShownGroups(n, own, prefix, cs), cs[|cs| - 1];
    ShownEnds(n, own, prefix, cs);
    SplitLast(hs);
    FlattenSnoc(hs[..|hs| - 1], [e]);
    var all := Flatten(hs);
    assert all[|all| - 1] == e;
    if |hs| == 1 {
      assert hs[..0] == [] && all == [] + [e];
    } else {
      assert e.sep == '&' by {
        assert hs[|hs| - 1][0] == e;
      }
    }
  }

  lemma EndsEnforcedIsTarget(cs: seq<Condition>)
    requires EndsEnforced(cs)
    ensures IsTarget(cs, |cs| - 1)
  {
  }

  // ----- a merge that gives back what was admitted changed nothing -----

  lemma LiftKeepsTarget(n: Naming, cs: seq<Condition>, i: nat)
    requires IsTarget(cs, i)
    ensures FirstTarget(Lifted(n, cs), 0) < |Lifted(n, cs)|
  {
    var edits := LiftEdits(n, cs);
    var k := KeptHasPlace(edits, i);
    LiftKeepsSeps(n, cs);
    EnforcedSurvives(cs, edits, k);
    assert IsTarget(Lifted(n, cs), k);
  }

  /** A merge that opened a new clause ends in an exclude Plex applies. */
  lemma MergedEnds(n: Naming, cs: seq<Condition>, labels: seq<string>)
    requires var kept := Lifted(n, cs);
             |Missing(n, Wanted(n, cs, labels), kept)| > 0 && FirstTarget(kept, 0) == |kept|
    ensures EndsEnforced(ReadBack(MergedConditions(n, cs, labels)))
  {
    var ds := ReadBack(MergedConditions(n, cs, labels));
    assert |ds| == |Lifted(n, cs)| + 1;
  }

  /** How many clauses the lift takes out. */
  function Gone(edits: seq<Option<Condition>>): nat {
    if |edits| == 0 then 0
    else Gone(edits[..|edits| - 1]) + (if edits[|edits| - 1].None? then 1 else 0)
  }

  /** Edits that take out excludes only, and turn excludes into excludes. */
  ghost predicate ExcludeEdits(cs: seq<Condition>, edits: seq<Option<Condition>>) {
    |edits| == |cs| && forall i :: 0 <= i < |cs| ==>
      match edits[i]
      case None => IsExclude(cs[i])
      case Some(c) => IsExclude(c) == IsExclude(cs[i])
  }

  lemma ExcludeCountStep(cs: seq<Condition>, edits: seq<Option<Condition>>, c: Condition, e: Option<Condition>)
    requires |ExcludesOf(Collect(edits))| + Gone(edits) == |ExcludesOf(cs)|
    requires match e case None => IsExclude(c) case Some(d) => IsExclude(d) == IsExclude(c)
    ensures |ExcludesOf(Collect(edits + [e]))| + Gone(edits + [e]) == |ExcludesOf(cs + [c])|
  {
    ExcludesSnoc(cs, c);
    CollectSnoc(edits, e);
    assert (edits + [e])[..|edits|] == edits;
    if e.Some? {
      ExcludesSnoc(Collect(edits), e.value);
    } else {
      assert Collect(edits) + [] == Collect(edits);
    }
  }

  lemma {:induction false} ExcludeCount(cs: seq<Condition>, edits: seq<Option<Condition>>)
    requires ExcludeEdits(cs, edits)
    ensures |ExcludesOf(Collect(edits))| + Gone(edits) == |ExcludesOf(cs)|
  {
    if |cs| > 0 {
      var k := |cs| - 1;
      SplitLast(cs);
      SplitLast(edits);
      assert match edits[k] case None => IsExclude(cs[k]) case Some(d) => IsExclude(d) == IsExclude(cs[k]);
      ExcludeCount(cs[..k], edits[..k]);
      ExcludeCountStep(cs[..k], edits[..k], cs[k], edits[k]);
    }
  }

  lemma {:induction false} NoneGone(edits: seq<Option<Condition>>)
    requires Gone(edits) == 0
    ensures |Collect(edits)| == |edits| && forall i :: 0 <= i < |edits| ==> edits[i] == Some(Collect(edits)[i])
  {
    if |edits| > 0 {
      NoneGone(edits[..|edits| - 1]);
      CollectLast(edits);
    }
  }

  lemma LiftIsExcludeEdits(n: Naming, cs: seq<Condition>)
    ensures ExcludeEdits(cs, LiftEdits(n, cs))
  {
  }

  lemma GrowKeepsExcludeCount(cs: seq<Condition>, missing: seq<string>, valueSep: string)
    requires |missing| > 0 && FirstTarget(cs, 0) < |cs|
    ensures |Place(cs, missing, valueSep)| == |cs|
    ensures |ExcludesOf(Place(cs, missing, valueSep))| == |ExcludesOf(cs)|
  {
    hide ExcludesOf;
    var t := FirstTarget(cs, 0);
    var ds := Place(cs, missing, valueSep);
    assert cs == cs[..t] + [cs[t]] + cs[t + 1..];
    assert ds == cs[..t] + [ds[t]] + cs[t + 1..];
    ExcludesAround(cs[..t], cs[t], cs[t + 1..]);
    ExcludesAround(cs[..t], ds[t], cs[t + 1..]);
  }

  lemma ExcludesAround(a: seq<Condition>, c: Condition, b: seq<Condition>)
    ensures ExcludesOf(a + [c] + b) == ExcludesOf(a) + (if IsExclude(c) then [c.(sep := '|')] else []) + ExcludesOf(b)
  {
    ExcludesConcat(a + [c], b);
    ExcludesSnoc(a, c);
  }

  lemma ReadBackExcludeCount(cs: seq<Condition>)
    ensures |ExcludesOf(ReadBack(cs))| == |ExcludesOf(cs)|
  {
    PartsCount(ReadBack(cs), cs);
  }

  lemma {:induction false} PartsCount(cs: seq<Condition>, ds: seq<Condition>)
    requires |cs| == |ds| && forall i :: 0 <= i < |cs| ==> IsExclude(cs[i]) == IsExclude(ds[i])
    ensures |ExcludesOf(cs)| == |ExcludesOf(ds)|
  {
    if |cs| > 0 {
      var k := |cs| - 1;
      SplitLast(cs);
      SplitLast(ds);
      PartsCount(cs[..k], ds[..k]);
      ExcludesSnoc(cs[..k], cs[k]);
      ExcludesSnoc(ds[..k], ds[k]);
    }
  }

  /** The same excludes at the same places are the same clauses. */
  lemma {:induction false} ExcludesAgree(cs: seq<Condition>, ds: seq<Condition>, i: nat)
    requires |cs| == |ds| && (forall k :: 0 <= k < |cs| ==> IsExclude(cs[k]) == IsExclude(ds[k]))
    requires ExcludesOf(cs) == ExcludesOf(ds) && i < |cs| && IsExclude(cs[i])
    ensures cs[i].(sep := '|') == ds[i].(sep := '|')
  {
    var k := |cs| - 1;
    SplitLast(cs);
    SplitLast(ds);
    ExcludesSnoc(cs[..k], cs[k]);
    ExcludesSnoc(ds[..k], ds[k]);
    PartsCount(cs[..k], ds[..k]);
    var a, b := ExcludesOf(cs[..k]), ExcludesOf(ds[..k]);
    if IsExclude(cs[k]) {
      assert ExcludesOf(cs)[|a|] == cs[k].(sep := '|') && ExcludesOf(ds)[|a|] == ds[k].(sep := '|');
      assert ExcludesOf(cs)[..|a|] == a && ExcludesOf(ds)[..|a|] == b;
    } else {
      assert ExcludesOf(cs) == a && ExcludesOf(ds) == b;
    }
    if i < k {
      ExcludesAgree(cs[..k], ds[..k], i);
    }
  }

  /** A merge whose outcome holds the same excludes as its input lifted no clause out and opened none. */
  lemma NothingGone(n: Naming, cs: seq<Condition>, labels: seq<string>)
    requires |ExcludesOf(ReadBack(MergedConditions(n, cs, labels)))| == |ExcludesOf(cs)|
    requires |Missing(n, Wanted(n, cs, labels), Lifted(n, cs))| > 0 ==> FirstTarget(Lifted(n, cs), 0) < |Lifted(n, cs)|
    ensures |MergedConditions(n, cs, labels)| == |Lifted(n, cs)| == |cs|
    ensures forall i :: 0 <= i < |cs| ==> LiftEdit(n, cs, i) == Some(Lifted(n, cs)[i])
  {
    var kept := Lifted(n, cs);
    var missing := Missing(n, Wanted(n, cs, labels), kept);
    ReadBackExcludeCount(MergedConditions(n, cs, labels));
    if |missing| > 0 {
      GrowKeepsExcludeCount(kept, missing, HouseValueSep(cs));
    }
    LiftIsExcludeEdits(n, cs);
    ExcludeCount(cs, LiftEdits(n, cs));
    NoneGone(LiftEdits(n, cs));
  }

  lemma {:induction false} SurvivorsCount(values: seq<string>, seps: seq<string>, drop: string -> bool)
    requires GapCount(values, seps)
    ensures |Survivors(values, seps, drop).values| <= |values|
    ensures |Survivors(values, seps, drop).values| == |values| ==> forall v :: v in values ==> !drop(v)
  {
    if |values| > 0 {
      var k := |values| - 1;
      SplitLast(values);
      SurvivorsCount(values[..k], if k == 0 then [] else seps[..k - 1], drop);
      SurvivorsLast(values[..k], seps, values[k], drop);
    }
  }

  /** Position by position, the merge keeps what is an exclude, and enforced, as it was. */
  lemma KeptPlaces(n: Naming, cs: seq<Condition>, labels: seq<string>, i: nat)
    requires |MergedConditions(n, cs, labels)| == |Lifted(n, cs)| == |cs| && i < |cs|
    requires forall j :: 0 <= j < |cs| ==> LiftEdit(n, cs, j) == Some(Lifted(n, cs)[j])
    ensures IsExclude(MergedConditions(n, cs, labels)[i]) == IsExclude(cs[i])
    ensures Enforced(Lifted(n, cs), i) == Enforced(cs, i)
    ensures !Enforced(cs, i) ==> MergedConditions(n, cs, labels)[i] == Lifted(n, cs)[i]
  {
    assert forall j :: 0 <= j < |cs| ==> Lifted(n, cs)[j].sep == cs[j].sep;
    MergedAgreesUnenforced(n, cs, labels, i);
  }

  /** A clause the lift trimmed would read back with fewer values. */
  lemma TrimmedIsShorter(n: Naming, cs: seq<Condition>, i: nat)
    requires i < |cs| && LiftEdit(n, cs, i).Some? && LiftEdit(n, cs, i) != Some(cs[i])
    ensures !Enforced(cs, i) && IsExclude(cs[i])
    ensures |LiftEdit(n, cs, i).value.values| < |cs[i].values|
  {
    SurvivorsCount(cs[i].values, PaddedSeps(cs[i]), n.ours);
    var mine := Mine(n, cs[i].values);
    assert mine[0] in mine;
  }

  lemma SameClauseSameCount(c: Condition, d: Condition)
    requires c.(sep := '|') == d.(sep := '|')
    ensures |c.values| == |d.values|
  {
    assert c.values == c.(sep := '|').values;
  }

  lemma MergedSameExcludes(n: Naming, cs: seq<Condition>, labels: seq<string>, i: nat)
    requires ExcludesOf(ReadBack(MergedConditions(n, cs, labels))) == ExcludesOf(cs)
    requires |MergedConditions(n, cs, labels)| == |Lifted(n, cs)| == |cs| && i < |cs| && IsExclude(cs[i])
    requires forall j :: 0 <= j < |cs| ==> LiftEdit(n, cs, j) == Some(Lifted(n, cs)[j])
    ensures |Blanked(MergedConditions(n, cs, labels)[i]).values| == |cs[i].values|
  {
    var ds := ReadBack(MergedConditions(n, cs, labels));
    forall k | 0 <= k < |cs|
      ensures IsExclude(ds[k]) == IsExclude(cs[k])
    {
      KeptPlaces(n, cs, labels, k);
    }
    ExcludesAgree(ds, cs, i);
    SameClauseSameCount(ds[i], cs[i]);
  }

  lemma NothingLifted(n: Naming, cs: seq<Condition>, labels: seq<string>)
    requires ExcludesOf(ReadBack(MergedConditions(n, cs, labels))) == ExcludesOf(cs)
    requires |MergedConditions(n, cs, labels)| == |Lifted(n, cs)| == |cs|
    requires forall j :: 0 <= j < |cs| ==> LiftEdit(n, cs, j) == Some(Lifted(n, cs)[j])
    ensures !LiftChanges(n, cs)
  {
    forall i | 0 <= i < |cs|
      ensures LiftEdit(n, cs, i) == Some(cs[i])
    {
      if LiftEdit(n, cs, i) != Some(cs[i]) {
        TrimmedIsShorter(n, cs, i);
        KeptPlaces(n, cs, labels, i);
        MergedSameExcludes(n, cs, labels, i);
        assert false;
      }
    }
  }

  lemma NothingPlaced(n: Naming, cs: seq<Condition>, labels: seq<string>)
    requires ShortlistLabels(n, labels) && SaneNaming(n) && WellFormed(cs) && NoAmpersand(cs)
    requires ExcludesOf(ReadBack(MergedConditions(n, cs, labels))) == ExcludesOf(cs)
    requires |MergedConditions(n, cs, labels)| == |Lifted(n, cs)| == |cs|
    requires forall j :: 0 <= j < |cs| ==> LiftEdit(n, cs, j) == Some(Lifted(n, cs)[j])
    requires !LiftChanges(n, cs)
    requires |Missing(n, Wanted(n, cs, labels), Lifted(n, cs))| > 0 ==> FirstTarget(Lifted(n, cs), 0) < |Lifted(n, cs)|
    ensures Missing(n, Wanted(n, cs, labels), Lifted(n, cs)) == []
  {
    LiftUnchanged(n, cs);
    var missing := Missing(n, Wanted(n, cs, labels), cs);
    if |missing| > 0 {
      var t := FirstTarget(cs, 0);
      MergedSameExcludes(n, cs, labels, t);
      WantedAreLabels(n, cs, labels);
      GrownIsLonger(n, cs[t], missing, HouseValueSep(cs));
      assert false;
    }
  }

  lemma GrownIsLonger(n: Naming, c: Condition, missing: seq<string>, valueSep: string)
    requires |missing| > 0 && SaneNaming(n) && forall l :: l in missing ==> ShortlistLabel(n, l)
    ensures |Blanked(Grow(c, missing, valueSep)).values| > |c.values|
  {
    var values := c.values + missing;
    assert values[|values| - 1] == missing[|missing| - 1];
    assert ShortlistLabel(n, missing[|missing| - 1]);
    assert !n.ours("");
  }

  /** If merging an admitted filter gives back the filter it was admitted into, the merge changed nothing. */
  lemma MergeGaveBackAdmitted(n: Naming, before: seq<Condition>, own: string, prefix: string, labels: seq<string>)
    requires ShortlistLabels(n, labels) && SaneNaming(n) && OwnLabel(n, own)
    requires GoodGroups(ShownGroups(n, own, prefix, before))
    requires var cs := AdmitConditions(n, own, prefix, true, before);
             WellFormed(cs) && NoAmpersand(cs) && ReadBack(MergedConditions(n, cs, labels)) == before
    ensures var cs := AdmitConditions(n, own, prefix, true, before);
            !LiftChanges(n, cs) && Missing(n, Wanted(n, cs, labels), Lifted(n, cs)) == []
  {
    var cs := AdmitConditions(n, own, prefix, true, before);
    AdmitKeepsExcludes(n, own, prefix, before);
    NoNewClause(n, before, own, prefix, labels);
    NothingGone(n, cs, labels);
    NothingLifted(n, cs, labels);
    NothingPlaced(n, cs, labels);
  }

  lemma NoNewClause(n: Naming, before: seq<Condition>, own: string, prefix: string, labels: seq<string>)
    requires GoodGroups(ShownGroups(n, own, prefix, before))
    requires ReadBack(MergedConditions(n, AdmitConditions(n, own, prefix, true, before), labels)) == before
    ensures var cs := AdmitConditions(n, own, prefix, true, before);
            |Missing(n, Wanted(n, cs, labels), Lifted(n, cs))| > 0 ==>
              FirstTarget(Lifted(n, cs), 0) < |Lifted(n, cs)|
  {
    var cs := AdmitConditions(n, own, prefix, true, before);
    if |Missing(n, Wanted(n, cs, labels), Lifted(n, cs))| > 0 && FirstTarget(Lifted(n, cs), 0) == |Lifted(n, cs)| {
      MergedEnds(n, cs, labels);
      AdmitKeepsEnd(n, own, prefix, before);
      EndsEnforcedIsTarget(cs);
      LiftKeepsTarget(n, cs, |cs| - 1);
      assert false;
    }
  }

  /** Once a pass changes nothing, neither of its halves does, and the own row satisfies every group that holds an
      allow condition of the owner's. */
  lemma SettledPlanLetsOwnRowPass(n: Naming, planned: string, wanted: seq<string>, row: OwnRow)
    requires ShortlistLabels(n, wanted) && SaneNaming(n)
    requires row.own.Some? && row.show && OwnLabel(n, row.own.value)
    requires Pass(n, planned, wanted, row) == Ok(planned)
    ensures Admit(n, planned, row.own.value, row.prefix, true) == Ok(planned)
    ensures Merge(n, planned, wanted) == Ok(planned)
    ensures ParseFilter(planned).Ok? && OwnRowAllowed(n, row.own.value, row.prefix, ParseFilter(planned).value)
  {
    var own, prefix := row.own.value, row.prefix;
    var admitted := Admit(n, planned, own, prefix, true).value;
    var before := ParseFilter(planned).value;
    AdmitLetsOwnRowPass(n, planned, own, prefix);
    ParseRoundTrip(planned);
    NoLiteralAmpersand(before);
    ShownGroupsGood(n, own, prefix, before);
    MergeReadsBack(n, admitted, wanted);
    MergeGaveBackAdmitted(n, before, own, prefix, wanted);
  }
}
