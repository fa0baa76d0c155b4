/** What admitting the own row promises: the row passes every group of the owner's allow conditions, nobody
    else's verdict changes, and taking the row back out restores the filter. */
module AllowTheorems {
  import opened Options
  import opened FilterText
  import opened ShareFilter
  import opened FilterSemantics
  import opened FilterEdits
  import opened FilterGroups
  import opened FilterMerge
  import opened MergeTheorems
  import opened FilterAllow

  /** The own row's label, writable into a `label=` clause. */
  ghost predicate OwnLabel(n: Naming, own: string) {
    own != "" && Free(own, CONDITION_SEPS) && NoValueSep(own) && NoNe(own) && n.norm(own) != n.norm("")
  }

  // ----- the groups keep their shape -----

  /** In-group separators are `|`, and an element's clauses can be printed. */
  ghost predicate GoodGroup(g: seq<Condition>) {
    && |g| > 0
    && g[0].sep in CONDITION_SEPS
    && (forall k :: 1 <= k < |g| ==> g[k].sep == '|')
    && (forall k :: 0 <= k < |g| ==> Clean(g[k]) && AmpersandFree(g[k]))
  }

  ghost predicate GoodGroups(gs: seq<seq<Condition>>) {
    (forall q :: 0 <= q < |gs| ==> GoodGroup(gs[q])) && (forall q :: 1 <= q < |gs| ==> gs[q][0].sep == '&')
  }

  lemma {:induction false} FlattenMembers(gs: seq<seq<Condition>>, c: Condition) returns (q: nat, k: nat)
    requires c in Flatten(gs)
    ensures q < |gs| && k < |gs[q]| && gs[q][k] == c
  {
    var init, g := gs[..|gs| - 1], gs[|gs| - 1];
    if c in g {
      q := |gs| - 1;
      k :| 0 <= k < |g| && g[k] == c;
    } else {
      q, k := FlattenMembers(init, c);
    }
  }

  lemma {:induction false} FlattenHolds(gs: seq<seq<Condition>>, q: nat, k: nat)
    requires q < |gs| && k < |gs[q]|
    ensures gs[q][k] in Flatten(gs)
  {
    if q < |gs| - 1 {
      FlattenHolds(gs[..|gs| - 1], q, k);
    }
  }

  lemma ConditionIsGood(cs: seq<Condition>, i: nat)
    requires WellFormed(cs) && NoAmpersand(cs) && i < |cs|
    ensures Clean(cs[i]) && AmpersandFree(cs[i]) && cs[i].sep in CONDITION_SEPS
  {
  }

  lemma GroupMemberIsGood(cs: seq<Condition>, q: nat, k: nat)
    requires WellFormed(cs) && NoAmpersand(cs) && q < |GroupsOf(cs)| && k < |GroupsOf(cs)[q]|
    ensures var c := GroupsOf(cs)[q][k];
            Clean(c) && AmpersandFree(c) && c.sep in CONDITION_SEPS
  {
    FlattenGroups(cs);
    FlattenHolds(GroupsOf(cs), q, k);
    var i :| 0 <= i < |cs| && cs[i] == GroupsOf(cs)[q][k];
    ConditionIsGood(cs, i);
  }

  lemma GoodGroupsOf(cs: seq<Condition>)
    requires WellFormed(cs) && NoAmpersand(cs)
    ensures GoodGroups(GroupsOf(cs))
  {
    var gs := GroupsOf(cs);
    GroupsShape(cs);
    forall q, k | 0 <= q < |gs| && 0 <= k < |gs[q]|
      ensures Clean(gs[q][k]) && AmpersandFree(gs[q][k]) && gs[q][k].sep in CONDITION_SEPS
    {
      GroupMemberIsGood(cs, q, k);
    }
  }

  lemma GoodIsShape(gs: seq<seq<Condition>>)
    requires GoodGroups(gs)
    ensures GroupShape(gs)
  {
  }

  lemma GoodPrintable(gs: seq<seq<Condition>>)
    requires GoodGroups(gs)
    ensures Printable(Flatten(gs))
    ensures forall i :: 0 <= i < |Flatten(gs)| ==> Flatten(gs)[i].values != [""]
  {
    var cs := Flatten(gs);
    forall i | 0 <= i < |cs|
      ensures PrintableCondition(cs[i]) && AmpersandFree(cs[i]) && cs[i].sep in CONDITION_SEPS && cs[i].values != [""]
    {
      var q, k := FlattenMembers(gs, cs[i]);
      assert Clean(gs[q][k]);
    }
  }

  lemma UnledIsReadBack(cs: seq<Condition>)
    requires forall i :: 0 <= i < |cs| ==> cs[i].values != [""]
    ensures ReadBack(cs) == Unled(cs)
  {
  }

  lemma UnledText(cs: seq<Condition>)
    ensures Serialize(Unled(cs)) == Serialize(cs)
  {
    hide JoinPieces;
    JoinFirstSep(ToPieces(Unled(cs)), ToPieces(cs));
  }

  lemma GoodReadsBack(gs: seq<seq<Condition>>)
    requires GoodGroups(gs)
    ensures ParseFilter(Serialize(Unled(Flatten(gs)))) == Ok(Unled(Flatten(gs)))
    ensures !LiteralAmpersand(Unled(Flatten(gs)))
  {
    GoodPrintable(gs);
    ParseOfPrinted(Flatten(gs));
    UnledIsReadBack(Flatten(gs));
    UnledText(Flatten(gs));
    ReadBackReadable(Flatten(gs));
  }

  lemma {:induction false} SpareGood(n: Naming, own: string, pending: bool, g: seq<Condition>, k: nat)
    requires k < |Spare(n, own, pending, g)|
    ensures Spare(n, own, pending, g)[k] in g
    ensures k > 0 ==> Spare(n, own, pending, g)[k] in g[1..]
    decreases |g|
  {
    var first := if OwnOnly(n, own, g[0]) && !pending then [] else [g[0]];
    if k >= |first| {
      SpareGood(n, own, pending, g[1..], k - |first|);
    }
  }

  lemma DropGroupGood(n: Naming, own: string, g: seq<Condition>)
    requires GoodGroup(g) && |DropGroup(n, own, g)| > 0
    ensures GoodGroup(DropGroup(n, own, g)) && DropGroup(n, own, g)[0].sep == g[0].sep
  {
    var pending := AnyOursExclude(n, g);
    var d := DropGroup(n, own, g);
    if !AnyOwnersAllow(n, own, g) {
      var h := Spare(n, own, pending, g);
      forall k | 0 <= k < |d|
        ensures Clean(d[k]) && AmpersandFree(d[k]) && (k > 0 ==> d[k].sep == '|')
      {
        SpareGood(n, own, pending, g, k);
        var j :| 0 <= j < |g| && g[j] == h[k];
        CleanAnySep(g[j], g[0].sep);
        assert AmpersandFree(g[j]);
      }
    }
  }

  lemma {:induction false} DropGroupsGood(n: Naming, own: string, gs: seq<seq<Condition>>)
    requires GoodGroups(gs)
    ensures GoodGroups(DropGroups(n, own, gs))
    ensures var ds := DropGroups(n, own, gs);
            |ds| > 0 && |gs| > 0 && gs[0][0].sep == '&' ==> ds[0][0].sep == '&'
    decreases |gs|
  {
    hide DropGroup;
    if |gs| > 0 {
      DropGroupsGood(n, own, gs[1..]);
      if |DropGroup(n, own, gs[0])| > 0 {
        DropGroupGood(n, own, gs[0]);
      }
    }
  }

  lemma GrowAllowClean(n: Naming, own: string, c: Condition, valueSep: string)
    requires OwnLabel(n, own) && IsValueSep(valueSep) && Clean(c) && AmpersandFree(c)
    ensures Clean(Grow(c, [own], valueSep)) && AmpersandFree(Grow(c, [own], valueSep))
  {
    var d := Grow(c, [own], valueSep);
    ExactSeps(c);
    FreeBoth(own);
    forall i | 0 <= i < |d.values|
      ensures NoValueSep(d.values[i]) && Free(d.values[i], PIPE_SEP) && Free(d.values[i], AMPERSAND)
      ensures c.op == Is ==> NoNe(d.values[i])
    {
      assert i < |c.values| ==> d.values[i] == c.values[i];
    }
    assert d.values[|c.values|] == own;
  }

  lemma AdmitGroupGood(n: Naming, own: string, prefix: string, valueSep: string, g: seq<Condition>)
    requires OwnLabel(n, own) && IsValueSep(valueSep) && GoodGroup(g)
    ensures GoodGroup(AdmitGroup(n, own, prefix, valueSep, g))
    ensures AdmitGroup(n, own, prefix, valueSep, g)[0].sep == g[0].sep
  {
    var c := AllowClause(g, 0);
    if c < |g| {
      GrowAllowClean(n, own, g[c], valueSep);
    } else {
      OwnClauseClean(n, own);
    }
  }

  lemma OwnClauseClean(n: Naming, own: string)
    requires OwnLabel(n, own)
    ensures Clean(Condition("label", Is, [own], '|', [])) && AmpersandFree(Condition("label", Is, [own], '|', []))
  {
    FreeBoth(own);
  }

  lemma ShownGroupsGood(n: Naming, own: string, prefix: string, cs: seq<Condition>)
    requires OwnLabel(n, own) && WellFormed(cs) && NoAmpersand(cs)
    ensures GoodGroups(ShownGroups(n, own, prefix, cs))
  {
    GoodGroupsOf(cs);
    DropGroupsGood(n, own, GroupsOf(cs));
    HouseValueSepIsSep(cs);
    var ds := DropGroups(n, own, GroupsOf(cs));
    forall q | 0 <= q < |ds|
      ensures GoodGroup(AdmitGroup(n, own, prefix, HouseValueSep(cs), ds[q]))
      ensures AdmitGroup(n, own, prefix, HouseValueSep(cs), ds[q])[0].sep == ds[q][0].sep
    {
      AdmitGroupGood(n, own, prefix, HouseValueSep(cs), ds[q]);
    }
  }

  // ----- the own row passes -----

  ghost predicate Allowed(n: Naming, own: string, prefix: string, g: seq<Condition>) {
    AnyOwnersAllow(n, own, g) ==> AnyAdmits(n, g, [own, prefix])
  }

  /** The own row satisfies every group that holds an allow condition of the owner's. */
  ghost predicate OwnRowAllowed(n: Naming, own: string, prefix: string, cs: seq<Condition>) {
    forall q :: 0 <= q < |GroupsOf(cs)| ==> Allowed(n, own, prefix, GroupsOf(cs)[q])
  }

  /** What the code takes a condition to say of a row is what the condition says of it. */
  lemma AdmitsIsHolds(n: Naming, c: Condition, rowLabels: seq<string>, row: Item)
    requires forall field :: field != "label" ==> Tags(row, field) == {}
    requires forall t :: t in Tags(row, "label") <==> exists i :: 0 <= i < |rowLabels| && t == n.norm(rowLabels[i])
    ensures Admits(n, c, rowLabels) <==> Holds(n, c, row)
  {
    if c.field == "label" {
      forall i | 0 <= i < |c.values|
        ensures Listed(n, c.values[i], rowLabels) <==> n.norm(c.values[i]) in Tags(row, "label")
      {
      }
    }
  }

  lemma AdmitGroupAdmits(n: Naming, own: string, prefix: string, valueSep: string, g: seq<Condition>)
    requires AnyOwnersAllow(n, own, AdmitGroup(n, own, prefix, valueSep, g))
    ensures AnyAdmits(n, AdmitGroup(n, own, prefix, valueSep, g), [own, prefix])
  {
    var h := AdmitGroup(n, own, prefix, valueSep, g);
    if !AnyAdmits(n, g, [own, prefix]) && AnyOwnersAllow(n, own, g) {
      var c := AllowClause(g, 0);
      assert Listed(n, own, [own, prefix]) by {
        assert [own, prefix][0] == own;
      }
      if c < |g| {
        assert h[c].values[|g[c].values|] == own;
      } else {
        assert h[c].values[0] == own;
      }
      assert Admits(n, h[c], [own, prefix]);
    }
  }

  function UnledFirst(gs: seq<seq<Condition>>): seq<seq<Condition>> {
    if |gs| == 0 then [] else [Unled(gs[0])] + gs[1..]
  }

  lemma UnledFirstShape(gs: seq<seq<Condition>>)
    requires GroupShape(gs)
    ensures GroupShape(UnledFirst(gs))
  {
    if |gs| > 0 {
      forall k | 1 <= k < |gs[0]|
        ensures Unled(gs[0])[k].sep != '&'
      {
        assert Unled(gs[0])[k] == gs[0][k];
      }
    }
  }

  lemma UnledConcat(g: seq<Condition>, rest: seq<Condition>)
    requires |g| > 0
    ensures Unled(g + rest) == Unled(g) + rest
  {
  }

  lemma FlattenUnledFirst(gs: seq<seq<Condition>>)
    requires |gs| > 0 ==> |gs[0]| > 0
    ensures Flatten(UnledFirst(gs)) == Unled(Flatten(gs))
  {
    if |gs| > 0 {
      assert gs == [gs[0]] + gs[1..];
      FlattenCons(gs[0], gs[1..]);
      FlattenCons(Unled(gs[0]), gs[1..]);
      UnledConcat(gs[0], Flatten(gs[1..]));
    }
  }

  lemma GroupsOfUnled(cs: seq<Condition>)
    ensures GroupsOf(Unled(cs)) == UnledFirst(GroupsOf(cs))
  {
    var gs := GroupsOf(cs);
    GroupsShape(cs);
    FlattenGroups(cs);
    UnledFirstShape(gs);
    FlattenUnledFirst(gs);
    GroupsOfFlatten(UnledFirst(gs));
  }

  lemma UnledSaysSame(n: Naming, own: string, g: seq<Condition>, rowLabels: seq<string>, item: Item)
    ensures AnyOwnersAllow(n, own, Unled(g)) <==> AnyOwnersAllow(n, own, g)
    ensures AnyAdmits(n, Unled(g), rowLabels) <==> AnyAdmits(n, g, rowLabels)
    ensures AnyOursExclude(n, Unled(g)) <==> AnyOursExclude(n, g)
    ensures GroupHolds(n, Unled(g), item) <==> GroupHolds(n, g, item)
  {
    var u := Unled(g);
    forall k | 0 <= k < |g|
      ensures OwnersAllow(n, own, u[k]) <==> OwnersAllow(n, own, g[k])
      ensures Admits(n, u[k], rowLabels) <==> Admits(n, g[k], rowLabels)
      ensures OursExclude(n, u[k]) <==> OursExclude(n, g[k])
      ensures Holds(n, u[k], item) <==> Holds(n, g[k], item)
    {
      assert u[k] == if k == 0 then g[0].(sep := '|') else g[k];
    }
  }

  /** The filter that shows the own row parses, and lets the row through every group of the owner's allow
      conditions. */
  lemma AdmitLetsOwnRowPass(n: Naming, raw: string, own: string, prefix: string)
    requires OwnLabel(n, own) && Admit(n, raw, own, prefix, true).Ok?
    ensures ParseFilter(raw).Ok?
    ensures ParseFilter(Admit(n, raw, own, prefix, true).value) ==
            Ok(AdmitConditions(n, own, prefix, true, ParseFilter(raw).value))
    ensures !LiteralAmpersand(AdmitConditions(n, own, prefix, true, ParseFilter(raw).value))
    ensures OwnRowAllowed(n, own, prefix, AdmitConditions(n, own, prefix, true, ParseFilter(raw).value))
  {
    var cs := ParseFilter(raw).value;
    ParseRoundTrip(raw);
    NoLiteralAmpersand(cs);
    ShownGroupsGood(n, own, prefix, cs);
    GoodReadsBack(ShownGroups(n, own, prefix, cs));
    ShownRowAllowed(n, own, prefix, cs);
  }

  lemma ShownConditionGroups(n: Naming, own: string, prefix: string, cs: seq<Condition>)
    requires GoodGroups(ShownGroups(n, own, prefix, cs))
    ensures GroupsOf(AdmitConditions(n, own, prefix, true, cs)) == UnledFirst(ShownGroups(n, own, prefix, cs))
  {
    var hs := ShownGroups(n, own, prefix, cs);
    GoodIsShape(hs);
    GroupsOfFlatten(hs);
    GroupsOfUnled(Flatten(hs));
  }

  lemma ShownRowAllowed(n: Naming, own: string, prefix: string, cs: seq<Condition>)
    requires GoodGroups(ShownGroups(n, own, prefix, cs))
    ensures GroupsOf(AdmitConditions(n, own, prefix, true, cs)) == UnledFirst(ShownGroups(n, own, prefix, cs))
    ensures OwnRowAllowed(n, own, prefix, AdmitConditions(n, own, prefix, true, cs))
  {
    ShownConditionGroups(n, own, prefix, cs);
    var hs := ShownGroups(n, own, prefix, cs);
    forall q | 0 <= q < |UnledFirst(hs)|
      ensures Allowed(n, own, prefix, UnledFirst(hs)[q])
    {
      ShownGroupAllowed(n, own, prefix, cs, q);
    }
  }

  lemma ShownGroupAllowed(n: Naming, own: string, prefix: string, cs: seq<Condition>, q: nat)
    requires q < |ShownGroups(n, own, prefix, cs)|
    ensures Allowed(n, own, prefix, UnledFirst(ShownGroups(n, own, prefix, cs))[q])
  {
    hide AdmitGroup;
    hide DropGroup;
    hide HouseValueSep;
    hide AnyOwnersAllow;
    hide AnyAdmits;
    GroupsShape(cs);
    var ds := DropGroups(n, own, GroupsOf(cs));
    var h := AdmitGroup(n, own, prefix, HouseValueSep(cs), ds[q]);
    if AnyOwnersAllow(n, own, h) {
      AdmitGroupAdmits(n, own, prefix, HouseValueSep(cs), ds[q]);
    }
    UnledSaysSame(n, own, h, [own, prefix], map[]);
  }

  // ----- nobody else's verdict changes -----

  lemma OwnOnlyFails(n: Naming, own: string, c: Condition, item: Item)
    requires OwnOnly(n, own, c) && !CarriesLabel(n, item, own)
    ensures !Holds(n, c, item)
  {
  }

  lemma {:induction false} SpareHolds(n: Naming, own: string, pending: bool, g: seq<Condition>, item: Item)
    requires !CarriesLabel(n, item, own)
    ensures GroupHolds(n, Spare(n, own, pending, g), item) <==> GroupHolds(n, g, item)
    decreases |g|
  {
    if |g| > 0 {
      SpareHolds(n, own, pending, g[1..], item);
      var h := Spare(n, own, pending, g[1..]);
      GroupHoldsCons(n, g[0], g[1..], item);
      GroupHoldsCons(n, g[0], h, item);
      assert g == [g[0]] + g[1..];
      if OwnOnly(n, own, g[0]) && !pending {
        OwnOnlyFails(n, own, g[0], item);
        assert Spare(n, own, pending, g) == h;
      }
    }
  }

  lemma GroupHoldsCons(n: Naming, c: Condition, g: seq<Condition>, item: Item)
    ensures GroupHolds(n, [c] + g, item) <==> Holds(n, c, item) || GroupHolds(n, g, item)
  {
    assert ([c] + g)[0] == c;
    assert forall k :: 0 <= k < |g| ==> ([c] + g)[k + 1] == g[k];
    if GroupHolds(n, [c] + g, item) && !Holds(n, c, item) {
      var k :| 0 <= k < |g| + 1 && Holds(n, ([c] + g)[k], item);
      assert g[k - 1] == ([c] + g)[k];
    }
  }

  lemma RefitHolds(n: Naming, g: seq<Condition>, sep: char, item: Item)
    ensures GroupHolds(n, Refit(g, sep), item) <==> GroupHolds(n, g, item)
  {
    var h := Refit(g, sep);
    forall k | 0 <= k < |g|
      ensures Holds(n, h[k], item) <==> Holds(n, g[k], item)
    {
    }
  }

  lemma DropGroupHolds(n: Naming, own: string, g: seq<Condition>, item: Item)
    requires |g| > 0 && !CarriesLabel(n, item, own)
    ensures GroupHolds(n, DropGroup(n, own, g), item) <==> GroupHolds(n, g, item)
  {
    SpareHolds(n, own, AnyOursExclude(n, g), g, item);
    RefitHolds(n, Spare(n, own, AnyOursExclude(n, g), g), g[0].sep, item);
  }

  lemma AdmitGroupHolds(n: Naming, own: string, prefix: string, valueSep: string, g: seq<Condition>, item: Item)
    requires !CarriesLabel(n, item, own)
    ensures GroupHolds(n, AdmitGroup(n, own, prefix, valueSep, g), item) <==> GroupHolds(n, g, item)
  {
    var h := AdmitGroup(n, own, prefix, valueSep, g);
    var c := AllowClause(g, 0);
    assert CarriesNone(n, item, [own]);
    if h != g && c < |g| {
      GrowHits(n, g[c], [own], valueSep, item);
      forall k | 0 <= k < |g|
        ensures Holds(n, h[k], item) <==> Holds(n, g[k], item)
      {
      }
    } else if h != g {
      var added := h[|g|];
      OwnOnlyFails(n, own, added, item);
      GroupHoldsSnoc(n, g, added, item);
    }
  }

  /** A group that allows nothing but the account's own row, and so goes when it holds no condition of the owner's. */
  predicate OwnAlone(n: Naming, own: string, g: seq<Condition>) {
    forall k :: 0 <= k < |g| ==> OwnOnly(n, own, g[k])
  }

  lemma {:induction false} SpareEmpty(n: Naming, own: string, pending: bool, g: seq<Condition>)
    requires |g| > 0
    ensures |Spare(n, own, pending, g)| == 0 <==> OwnAlone(n, own, g) && !pending
    decreases |g|
  {
    if |g| > 1 {
      SpareEmpty(n, own, pending, g[1..]);
      assert OwnAlone(n, own, g) <==> OwnOnly(n, own, g[0]) && OwnAlone(n, own, g[1..]) by {
        assert forall k :: 0 <= k < |g[1..]| ==> g[1..][k] == g[k + 1];
        assert forall k :: 1 <= k < |g| ==> g[k] == g[1..][k - 1];
      }
    } else {
      assert |Spare(n, own, pending, g[1..])| == 0;
    }
  }

  lemma DropGroupEmpty(n: Naming, own: string, g: seq<Condition>)
    requires |g| > 0
    ensures |DropGroup(n, own, g)| == 0 <==> OwnAlone(n, own, g)
  {
    SpareEmpty(n, own, AnyOursExclude(n, g), g);
    if AnyOursExclude(n, g) {
      var k :| 0 <= k < |g| && OursExclude(n, g[k]);
      assert !OwnOnly(n, own, g[k]);
    }
    if AnyOwnersAllow(n, own, g) {
      var k :| 0 <= k < |g| && OwnersAllow(n, own, g[k]);
      assert !OwnOnly(n, own, g[k]);
    }
  }

  predicate NoneOwnAlone(n: Naming, own: string, gs: seq<seq<Condition>>) {
    forall q :: 0 <= q < |gs| ==> !OwnAlone(n, own, gs[q])
  }

  lemma {:induction false} DropGroupsHold(n: Naming, own: string, gs: seq<seq<Condition>>, item: Item)
    requires !CarriesLabel(n, item, own) && forall q :: 0 <= q < |gs| ==> |gs[q]| > 0
    ensures AllGroupsHold(n, gs, item) ==> AllGroupsHold(n, DropGroups(n, own, gs), item)
    ensures NoneOwnAlone(n, own, gs) ==>
              (AllGroupsHold(n, gs, item) <==> AllGroupsHold(n, DropGroups(n, own, gs), item))
    decreases |gs|
  {
    if |gs| > 0 {
      DropGroupsHold(n, own, gs[1..], item);
      DropGroupHolds(n, own, gs[0], item);
      DropGroupEmpty(n, own, gs[0]);
      AllGroupsHoldCons(n, gs[0], gs[1..], item);
      assert gs == [gs[0]] + gs[1..];
      AllGroupsHoldCons(n, DropGroup(n, own, gs[0]), DropGroups(n, own, gs[1..]), item);
    }
  }

  lemma AllGroupsHoldCons(n: Naming, g: seq<Condition>, gs: seq<seq<Condition>>, item: Item)
    ensures AllGroupsHold(n, [g] + gs, item) <==> GroupHolds(n, g, item) && AllGroupsHold(n, gs, item)
  {
    assert ([g] + gs)[0] == g;
    assert forall q :: 0 <= q < |gs| ==> ([g] + gs)[q + 1] == gs[q];
    if GroupHolds(n, g, item) && AllGroupsHold(n, gs, item) {
      forall q | 0 <= q < |gs| + 1
        ensures GroupHolds(n, ([g] + gs)[q], item)
      {
        assert q > 0 ==> ([g] + gs)[q] == gs[q - 1];
      }
    }
  }

  /** Admitting the own row hides nothing from anyone; and unless a group allowed the own row alone, it changes
      no verdict on an item without that label. */
  lemma AdmitChangesNoOtherVerdict(n: Naming, raw: string, own: string, prefix: string, item: Item)
    requires OwnLabel(n, own) && Admit(n, raw, own, prefix, true).Ok? && !CarriesLabel(n, item, own)
    ensures ParseFilter(raw).Ok? && ParseFilter(Admit(n, raw, own, prefix, true).value).Ok?
    ensures var before, after := ParseFilter(raw).value, ParseFilter(Admit(n, raw, own, prefix, true).value).value;
            && (Shows(PipeFirst, n, before, item) ==> Shows(PipeFirst, n, after, item))
            && (NoneOwnAlone(n, own, GroupsOf(before)) ==>
                  (Shows(PipeFirst, n, before, item) <==> Shows(PipeFirst, n, after, item)))
  {
    var cs := ParseFilter(raw).value;
    AdmitLetsOwnRowPass(n, raw, own, prefix);
    ParseRoundTrip(raw);
    NoLiteralAmpersand(cs);
    ShownGroupsGood(n, own, prefix, cs);
    ShownRowAllowed(n, own, prefix, cs);
    ShowsByGroups(n, cs, item);
    ShowsByGroups(n, AdmitConditions(n, own, prefix, true, cs), item);
    ShownGroupsHold(n, own, prefix, cs, item);
  }

  lemma AdmittedGroupHolds(n: Naming, own: string, prefix: string, valueSep: string, gs: seq<seq<Condition>>,
                           q: nat, item: Item)
    requires !CarriesLabel(n, item, own) && q < |gs|
    ensures GroupHolds(n, UnledFirst(AdmitGroups(n, own, prefix, valueSep, gs))[q], item) <==>
            GroupHolds(n, gs[q], item)
  {
    var h := AdmitGroup(n, own, prefix, valueSep, gs[q]);
    AdmitGroupHolds(n, own, prefix, valueSep, gs[q], item);
    UnledSaysSame(n, own, h, [], item);
  }

  lemma SameVerdicts(n: Naming, gs: seq<seq<Condition>>, hs: seq<seq<Condition>>, item: Item)
    requires |gs| == |hs|
    requires forall q :: 0 <= q < |gs| ==> (GroupHolds(n, hs[q], item) <==> GroupHolds(n, gs[q], item))
    ensures AllGroupsHold(n, hs, item) <==> AllGroupsHold(n, gs, item)
  {
  }

  lemma AdmitGroupsHold(n: Naming, own: string, prefix: string, valueSep: string, gs: seq<seq<Condition>>, item: Item)
    requires !CarriesLabel(n, item, own)
    ensures AllGroupsHold(n, UnledFirst(AdmitGroups(n, own, prefix, valueSep, gs)), item) <==>
            AllGroupsHold(n, gs, item)
  {
    var us := UnledFirst(AdmitGroups(n, own, prefix, valueSep, gs));
    forall q | 0 <= q < |gs|
      ensures GroupHolds(n, us[q], item) <==> GroupHolds(n, gs[q], item)
    {
      AdmittedGroupHolds(n, own, prefix, valueSep, gs, q, item);
    }
    SameVerdicts(n, gs, us, item);
  }

  lemma ShownGroupsHold(n: Naming, own: string, prefix: string, cs: seq<Condition>, item: Item)
    requires !CarriesLabel(n, item, own)
    ensures var gs, us := GroupsOf(cs), UnledFirst(ShownGroups(n, own, prefix, cs));
            && (AllGroupsHold(n, gs, item) ==> AllGroupsHold(n, us, item))
            && (NoneOwnAlone(n, own, gs) ==> (AllGroupsHold(n, gs, item) <==> AllGroupsHold(n, us, item)))
  {
    GroupsShape(cs);
    DropGroupsHold(n, own, GroupsOf(cs), item);
    AdmitGroupsHold(n, own, prefix, HouseValueSep(cs), DropGroups(n, own, GroupsOf(cs)), item);
  }

  // ----- taking the own row back out -----

  /** A `label=` clause that names something, and not the own row. */
  ghost predicate NamesOthers(n: Naming, own: string, c: Condition) {
    |c.values| > 0 && forall j :: 0 <= j < |c.values| ==> !SameValue(n, c.values[j], own)
  }

  /** A group that admitting and un-admitting gives back. Each `label=` clause names only others, or names nobody else
      while an exclude of ours in the group holds it back; and where the own row has to be let in, the clause that lets
      it in is not an empty one, and a new one is not held back. */
  ghost predicate RestorableGroup(n: Naming, own: string, prefix: string, g: seq<Condition>) {
    && (forall k :: 0 <= k < |g| && IsLabelAllow(g[k]) ==>
          NamesOthers(n, own, g[k]) || (AllMine(n, own, g[k]) && AnyOursExclude(n, g)))
    && (AnyOwnersAllow(n, own, g) && !AnyAdmits(n, g, [own, prefix]) ==>
          var c := AllowClause(g, 0);
          if c < |g| then |g[c].values| > 0 else !AnyOursExclude(n, g))
  }

  ghost predicate Restorable(n: Naming, own: string, prefix: string, gs: seq<seq<Condition>>) {
    forall q :: 0 <= q < |gs| ==> RestorableGroup(n, own, prefix, gs[q])
  }

  lemma {:induction false} SpareAll(n: Naming, own: string, pending: bool, g: seq<Condition>)
    requires pending || forall k :: 0 <= k < |g| ==> !OwnOnly(n, own, g[k])
    ensures Spare(n, own, pending, g) == g
    decreases |g|
  {
    if |g| > 0 {
      SpareAll(n, own, pending, g[1..]);
      assert g == [g[0]] + g[1..];
    }
  }

  lemma OthersNotOwnOnly(n: Naming, own: string, c: Condition)
    requires NamesOthers(n, own, c)
    ensures !AllMine(n, own, c)
  {
    assert !SameValue(n, c.values[0], own);
  }

  lemma DropRestorable(n: Naming, own: string, prefix: string, g: seq<Condition>)
    requires |g| > 0 && RestorableGroup(n, own, prefix, g)
    ensures DropGroup(n, own, g) == g
  {
    if !AnyOursExclude(n, g) {
      forall k | 0 <= k < |g|
        ensures !OwnOnly(n, own, g[k])
      {
        if IsLabelAllow(g[k]) {
          OthersNotOwnOnly(n, own, g[k]);
        }
      }
    }
    SpareAll(n, own, AnyOursExclude(n, g), g);
  }

  lemma {:induction false} DropGroupsRestorable(n: Naming, own: string, prefix: string, gs: seq<seq<Condition>>)
    requires GoodGroups(gs) && Restorable(n, own, prefix, gs)
    ensures DropGroups(n, own, gs) == gs
    decreases |gs|
  {
    hide RestorableGroup;
    if |gs| > 0 {
      DropGroupsRestorable(n, own, prefix, gs[1..]);
      DropRestorable(n, own, prefix, gs[0]);
      assert gs == [gs[0]] + gs[1..];
    }
  }

  lemma HideEditOthers(n: Naming, own: string, c: Condition)
    requires Clean(c) && NamesOthers(n, own, c)
    ensures WithoutValues(c, MineIs(n, own)) == Some(c)
  {
    ExactSeps(c);
    forall v | v in c.values
      ensures !MineIs(n, own)(v)
    {
      var j :| 0 <= j < |c.values| && c.values[j] == v;
    }
    SurvivorsAll(c.values, c.valueSeps, MineIs(n, own));
  }

  lemma HideEditMine(n: Naming, own: string, c: Condition)
    ensures WithoutValues(c, MineIs(n, own)) == None <==> AllMine(n, own, c)
  {
    SurvivorsMembers(c.values, PaddedSeps(c), MineIs(n, own));
    var r := Survivors(c.values, PaddedSeps(c), MineIs(n, own)).values;
    assert |r| > 0 ==> r[0] in r;
    assert forall j :: 0 <= j < |c.values| ==> c.values[j] in c.values;
  }

  lemma HideEditGrown(n: Naming, own: string, pending: bool, c: Condition, valueSep: string)
    requires Clean(c) && IsLabelAllow(c) && NamesOthers(n, own, c)
    ensures HideEdit(n, own, pending, Grow(c, [own], valueSep)) == Some(c)
  {
    var d := Grow(c, [own], valueSep);
    ExactSeps(c);
    var extra := d.valueSeps[|c.valueSeps|..];
    assert d.valueSeps == c.valueSeps + extra;
    assert PaddedSeps(d) == d.valueSeps;
    SurvivorsOfGrown(c.values, c.valueSeps, [own], extra, MineIs(n, own));
    HideEditOthers(n, own, c);
  }

  lemma HideEditAdded(n: Naming, own: string, pending: bool)
    ensures var c := Condition("label", Is, [own], '|', []);
            HideEdit(n, own, pending, c) == if pending then Some(c) else None
  {
    HideEditMine(n, own, Condition("label", Is, [own], '|', []));
  }

  /** Admitting the own row touches no exclude, so it changes nothing about what is held back. */
  lemma AdmitKeepsPending(n: Naming, own: string, prefix: string, valueSep: string, g: seq<Condition>)
    ensures var h := AdmitGroup(n, own, prefix, valueSep, g);
            AnyOursExclude(n, h) <==> AnyOursExclude(n, g)
  {
    var h := AdmitGroup(n, own, prefix, valueSep, g);
    if |h| == |g| {
      forall k | 0 <= k < |g|
        ensures OursExclude(n, h[k]) <==> OursExclude(n, g[k])
      {
      }
    } else {
      AnyOursExcludeSnoc(n, g, h[|g|]);
    }
  }

  lemma NamingOwnAdmits(n: Naming, own: string, prefix: string, g: seq<Condition>, k: nat, j: nat)
    requires k < |g| && IsLabelAllow(g[k]) && j < |g[k].values| && SameValue(n, g[k].values[j], own)
    ensures AnyAdmits(n, g, [own, prefix])
  {
    assert [own, prefix][0] == own;
    assert Listed(n, g[k].values[j], [own, prefix]);
    assert Admits(n, g[k], [own, prefix]);
  }

  /** A clause of a group that hides the own row does not name it. */
  lemma UnadmittedNamesNoOwn(n: Naming, own: string, prefix: string, g: seq<Condition>, k: nat)
    requires k < |g| && IsLabelAllow(g[k]) && !AnyAdmits(n, g, [own, prefix])
    ensures forall j :: 0 <= j < |g[k].values| ==> !SameValue(n, g[k].values[j], own)
  {
    forall j | 0 <= j < |g[k].values|
      ensures !SameValue(n, g[k].values[j], own)
    {
      if SameValue(n, g[k].values[j], own) {
        NamingOwnAdmits(n, own, prefix, g, k, j);
        assert false;
      }
    }
  }

  lemma HideEditsOfAdmitted(n: Naming, own: string, prefix: string, valueSep: string, g: seq<Condition>, k: nat)
    requires GoodGroup(g) && RestorableGroup(n, own, prefix, g) && k < |g|
    ensures |AdmitGroup(n, own, prefix, valueSep, g)| >= |g|
    ensures var h := AdmitGroup(n, own, prefix, valueSep, g);
            HideEdit(n, own, AnyOursExclude(n, h), h[k]) == Some(g[k])
  {
    var h := AdmitGroup(n, own, prefix, valueSep, g);
    var c := AllowClause(g, 0);
    AdmitKeepsPending(n, own, prefix, valueSep, g);
    if h != g && k == c {
      UnadmittedNamesNoOwn(n, own, prefix, g, c);
      HideEditGrown(n, own, AnyOursExclude(n, h), g[k], valueSep);
    } else if IsLabelAllow(g[k]) {
      HideEditMine(n, own, g[k]);
      if NamesOthers(n, own, g[k]) {
        HideEditOthers(n, own, g[k]);
      }
    }
  }

  lemma AddedClause(n: Naming, own: string, prefix: string, valueSep: string, g: seq<Condition>)
    requires |AdmitGroup(n, own, prefix, valueSep, g)| != |g|
    ensures AllowClause(g, 0) == |g| && AnyOwnersAllow(n, own, g) && !AnyAdmits(n, g, [own, prefix])
    ensures AdmitGroup(n, own, prefix, valueSep, g) == g + [Condition("label", Is, [own], '|', [])]
  {
  }

  lemma EditsOfAdmitted(n: Naming, own: string, prefix: string, valueSep: string, g: seq<Condition>)
    requires GoodGroup(g) && RestorableGroup(n, own, prefix, g)
    ensures var edits := HideEdits(n, own, AdmitGroup(n, own, prefix, valueSep, g));
            |edits| >= |g| && forall k :: 0 <= k < |g| ==> edits[k] == Some(g[k])
  {
    hide *;
    var h := AdmitGroup(n, own, prefix, valueSep, g);
    GoodGroupNotEmpty(g);
    SameHead(n, own, prefix, valueSep, g);
    forall k | 0 <= k < |g|
      ensures HideEdits(n, own, h)[k] == Some(g[k])
    {
      HideEditsOfAdmitted(n, own, prefix, valueSep, g, k);
    }
  }

  lemma GoodGroupNotEmpty(g: seq<Condition>)
    requires GoodGroup(g)
    ensures |g| > 0
  {
  }

  lemma AddedEditGoes(n: Naming, own: string, prefix: string, valueSep: string, g: seq<Condition>)
    requires RestorableGroup(n, own, prefix, g) && |AdmitGroup(n, own, prefix, valueSep, g)| == |g| + 1
    ensures HideEdits(n, own, AdmitGroup(n, own, prefix, valueSep, g))[|g|] == None
  {
    hide HideEdit;
    hide AnyOursExclude;
    hide AnyOwnersAllow;
    hide AnyAdmits;
    hide AdmitGroup;
    AddedClause(n, own, prefix, valueSep, g);
    AdmitKeepsPending(n, own, prefix, valueSep, g);
    HideEditAdded(n, own, false);
  }

  lemma {:induction false} KeptAndGone<T>(ts: seq<T>, edits: seq<Option<T>>)
    requires |ts| <= |edits| <= |ts| + 1 && forall i :: 0 <= i < |ts| ==> edits[i] == Some(ts[i])
    requires |edits| > |ts| ==> edits[|ts|] == None
    ensures Collect(edits) == ts
  {
    if |edits| == |ts| {
      CollectAll(ts, edits);
    } else {
      CollectLast(edits);
      CollectAll(ts, edits[..|ts|]);
    }
  }

  lemma RefitSame(g: seq<Condition>)
    requires |g| > 0
    ensures Refit(g, g[0].sep) == g
  {
    assert g[0].(sep := g[0].sep) == g[0];
  }

  lemma HiddenGroupIs(n: Naming, own: string, h: seq<Condition>, g: seq<Condition>)
    requires |h| > 0 && |g| > 0 && h[0].sep == g[0].sep && Collect(HideEdits(n, own, h)) == g
    ensures HideGroup(n, own, h) == g
  {
    hide HideEdits;
    hide Collect;
    RefitSame(g);
  }

  lemma HideAdmitted(n: Naming, own: string, prefix: string, valueSep: string, g: seq<Condition>)
    requires GoodGroup(g) && RestorableGroup(n, own, prefix, g)
    ensures |AdmitGroup(n, own, prefix, valueSep, g)| > 0
    ensures HideGroup(n, own, AdmitGroup(n, own, prefix, valueSep, g)) == g
  {
    hide *;
    var h := AdmitGroup(n, own, prefix, valueSep, g);
    GoodGroupNotEmpty(g);
    SameHead(n, own, prefix, valueSep, g);
    EditsOfAdmitted(n, own, prefix, valueSep, g);
    if |h| > |g| {
      AddedEditGoes(n, own, prefix, valueSep, g);
    }
    KeptAndGone(g, HideEdits(n, own, h));
    HiddenGroupIs(n, own, h, g);
  }

  lemma SameHead(n: Naming, own: string, prefix: string, valueSep: string, g: seq<Condition>)
    requires |g| > 0
    ensures var h := AdmitGroup(n, own, prefix, valueSep, g);
            |g| <= |h| <= |g| + 1 && h[0].sep == g[0].sep
  {
  }

  lemma AnyOursExcludeSnoc(n: Naming, g: seq<Condition>, c: Condition)
    ensures AnyOursExclude(n, g + [c]) <==> AnyOursExclude(n, g) || OursExclude(n, c)
  {
    var h := g + [c];
    assert h[|g|] == c;
    assert forall k :: 0 <= k < |g| ==> h[k] == g[k];
  }

  ghost predicate HidesTo(n: Naming, own: string, h: seq<Condition>, g: seq<Condition>) {
    |h| > 0 && |g| > 0 && HideGroup(n, own, h) == g
  }

  lemma HideGroupsSnoc(n: Naming, own: string, hs: seq<seq<Condition>>, h: seq<Condition>, g: seq<Condition>)
    requires forall q :: 0 <= q < |hs| ==> |hs[q]| > 0
    requires HidesTo(n, own, h, g)
    ensures HideGroups(n, own, hs + [h]) == HideGroups(n, own, hs) + [g]
  {
    assert (hs + [h])[..|hs|] == hs;
  }

  lemma {:induction false} HideGroupsPointwise(n: Naming, own: string, hs: seq<seq<Condition>>,
                                               gs: seq<seq<Condition>>)
    requires |hs| == |gs| && forall q :: 0 <= q < |hs| ==> |hs[q]| > 0
    requires forall q :: 0 <= q < |hs| ==> HidesTo(n, own, hs[q], gs[q])
    ensures HideGroups(n, own, hs) == gs
  {
    if |gs| > 0 {
      var k := |gs| - 1;
      SplitLast(hs);
      SplitLast(gs);
      HideGroupsPointwise(n, own, hs[..k], gs[..k]);
      assert HidesTo(n, own, hs[k], gs[k]);
      HideGroupsSnoc(n, own, hs[..k], hs[k], gs[k]);
    }
  }

  lemma HideGroupsAdmitted(n: Naming, own: string, prefix: string, valueSep: string, gs: seq<seq<Condition>>)
    requires GoodGroups(gs) && Restorable(n, own, prefix, gs)
    ensures forall q :: 0 <= q < |gs| ==> |AdmitGroups(n, own, prefix, valueSep, gs)[q]| > 0
    ensures HideGroups(n, own, AdmitGroups(n, own, prefix, valueSep, gs)) == gs
  {
    var hs := AdmitGroups(n, own, prefix, valueSep, gs);
    forall q | 0 <= q < |gs|
      ensures |hs[q]| > 0 && HidesTo(n, own, hs[q], gs[q])
    {
      HideAdmitted(n, own, prefix, valueSep, gs[q]);
    }
    HideGroupsPointwise(n, own, hs, gs);
  }

  lemma ShownRestorable(n: Naming, own: string, prefix: string, cs: seq<Condition>)
    requires OwnLabel(n, own) && WellFormed(cs) && NoAmpersand(cs) && Restorable(n, own, prefix, GroupsOf(cs))
    ensures AdmitConditions(n, own, prefix, false, AdmitConditions(n, own, prefix, true, cs)) == cs
  {
    var gs := GroupsOf(cs);
    var shown := AdmitConditions(n, own, prefix, true, cs);
    GoodGroupsOf(cs);
    DropGroupsRestorable(n, own, prefix, gs);
    ShownGroupsGood(n, own, prefix, cs);
    var hs := ShownGroups(n, own, prefix, cs);
    ShownRowAllowed(n, own, prefix, cs);
    FlattenGroups(cs);
    FirstGroupLeads(n, own, prefix, cs);
    HideGroupsAdmitted(n, own, prefix, HouseValueSep(cs), gs);
    assert HiddenGroups(n, own, shown) == gs;
  }

  lemma HeadOfFlatten(cs: seq<Condition>)
    requires |cs| > 0
    ensures |GroupsOf(cs)| > 0 && |GroupsOf(cs)[0]| > 0 && cs[0] == GroupsOf(cs)[0][0]
  {
    var gs := GroupsOf(cs);
    GroupsShape(cs);
    FlattenGroups(cs);
    assert gs == [gs[0]] + gs[1..];
    FlattenCons(gs[0], gs[1..]);
  }

  lemma UnledFirstSame(gs: seq<seq<Condition>>)
    requires |gs| > 0 ==> |gs[0]| > 0 && gs[0][0].sep == '|'
    ensures UnledFirst(gs) == gs
  {
    if |gs| > 0 {
      assert Unled(gs[0]) == gs[0];
    }
  }

  /** The shown filter still opens with the default separator. */
  lemma FirstGroupLeads(n: Naming, own: string, prefix: string, cs: seq<Condition>)
    requires OwnLabel(n, own) && WellFormed(cs) && NoAmpersand(cs) && Restorable(n, own, prefix, GroupsOf(cs))
    ensures UnledFirst(ShownGroups(n, own, prefix, cs)) == ShownGroups(n, own, prefix, cs)
    ensures Unled(cs) == cs
  {
    var gs := GroupsOf(cs);
    GoodGroupsOf(cs);
    DropGroupsRestorable(n, own, prefix, gs);
    if |cs| > 0 {
      HeadOfFlatten(cs);
      HouseValueSepIsSep(cs);
      AdmitGroupGood(n, own, prefix, HouseValueSep(cs), gs[0]);
    }
    UnledFirstSame(ShownGroups(n, own, prefix, cs));
  }
}
