/** What a filter is like once the own row has been let in or taken out: nothing is left to do, our excludes stand
    where they stood, and a filter with something to do only in its first group changes only there. */
module AdmitOutcome {
  import opened Options
  import opened FilterText
  import opened ShareFilter
  import opened FilterSemantics
  import opened FilterEdits
  import opened FilterGroups
  import opened FilterMerge
  import opened FilterAllow
  import opened AllowTheorems
  import opened AllowMethods
  import opened AllowRestore
  import opened AdmitIdle

  /** What becomes of one group. */
  function AdmitOne(n: Naming, own: string, prefix: string, show: bool, valueSep: string, g: seq<Condition>)
    : seq<Condition>
    requires |g| > 0
  {
    if show then
      var d := DropGroup(n, own, g);
      if |d| == 0 then [] else AdmitGroup(n, own, prefix, valueSep, d)
    else HideGroup(n, own, g)
  }

  function AdmittedGroups(n: Naming, own: string, prefix: string, show: bool, cs: seq<Condition>)
    : seq<seq<Condition>>
  {
    if show then ShownGroups(n, own, prefix, cs) else HiddenGroups(n, own, cs)
  }

  // ----- nothing is left to do -----

  /** A group in which no clause naming only the own row could go. */
  ghost predicate Spared(n: Naming, own: string, g: seq<Condition>) {
    AnyOwnersAllow(n, own, g) || AnyOursExclude(n, g) || forall k :: 0 <= k < |g| ==> !OwnOnly(n, own, g[k])
  }

  lemma {:induction false} SpareLeavesNone(n: Naming, own: string, g: seq<Condition>)
    ensures forall k :: 0 <= k < |Spare(n, own, false, g)| ==> !OwnOnly(n, own, Spare(n, own, false, g)[k])
    decreases |g|
  {
    if |g| > 0 {
      SpareLeavesNone(n, own, g[1..]);
    }
  }

  lemma DropSpared(n: Naming, own: string, g: seq<Condition>)
    requires |g| > 0
    ensures Spared(n, own, DropGroup(n, own, g))
  {
    hide OwnOnly;
    hide AllMine;
    if !AnyOwnersAllow(n, own, g) {
      if AnyOursExclude(n, g) {
        SparePending(n, own, g);
        assert Refit(g, g[0].sep) == g;
      } else {
        SpareLeavesNone(n, own, g);
        RefitOwnOnly(n, own, Spare(n, own, false, g), g[0].sep);
      }
    }
  }

  lemma RefitOwnOnly(n: Naming, own: string, g: seq<Condition>, sep: char)
    requires forall k :: 0 <= k < |g| ==> !OwnOnly(n, own, g[k])
    ensures forall k :: 0 <= k < |g| ==> !OwnOnly(n, own, Refit(g, sep)[k])
  {
  }

  lemma {:induction false} DropGroupsSpared(n: Naming, own: string, gs: seq<seq<Condition>>, q: nat)
    requires (forall i :: 0 <= i < |gs| ==> |gs[i]| > 0) && q < |DropGroups(n, own, gs)|
    ensures |DropGroups(n, own, gs)[q]| > 0 && Spared(n, own, DropGroups(n, own, gs)[q])
    decreases |gs|
  {
    hide Spared;
    hide DropGroup;
    DropSpared(n, own, gs[0]);
    var lead := if |DropGroup(n, own, gs[0])| == 0 then 0 else 1;
    if q >= lead {
      DropGroupsSpared(n, own, gs[1..], q - lead);
    }
  }

  lemma GrownOwnersAllow(n: Naming, own: string, c: Condition, valueSep: string)
    requires OwnersAllow(n, own, c)
    ensures OwnersAllow(n, own, Grow(c, [own], valueSep))
  {
    var i :| 0 <= i < |c.values| && !SameValue(n, c.values[i], own);
    assert Grow(c, [own], valueSep).values[i] == c.values[i];
  }

  lemma AdmitKeepsOwners(n: Naming, own: string, prefix: string, valueSep: string, g: seq<Condition>)
    requires AnyOwnersAllow(n, own, g)
    ensures AnyOwnersAllow(n, own, AdmitGroup(n, own, prefix, valueSep, g))
  {
    hide OwnersAllow;
    hide AnyAdmits;
    var k :| 0 <= k < |g| && OwnersAllow(n, own, g[k]);
    GrownOwnersAllow(n, own, g[k], valueSep);
    assert OwnersAllow(n, own, AdmitGroup(n, own, prefix, valueSep, g)[k]);
  }

  lemma AdmitSpared(n: Naming, own: string, prefix: string, valueSep: string, g: seq<Condition>)
    requires Spared(n, own, g)
    ensures IdleGroup(n, own, prefix, true, AdmitGroup(n, own, prefix, valueSep, g))
  {
    hide AnyAdmits;
    hide OwnOnly;
    hide AnyOursExclude;
    hide AnyOwnersAllow;
    if AnyOwnersAllow(n, own, g) {
      AdmitKeepsOwners(n, own, prefix, valueSep, g);
      AdmitGroupAdmits(n, own, prefix, valueSep, g);
    }
  }

  lemma ShownIdle(n: Naming, own: string, prefix: string, cs: seq<Condition>)
    ensures IdleGroups(n, own, prefix, true, ShownGroups(n, own, prefix, cs))
  {
    hide IdleGroup;
    hide AdmitGroup;
    hide Spared;
    GroupsShape(cs);
    var ds := DropGroups(n, own, GroupsOf(cs));
    forall q | 0 <= q < |ds|
      ensures IdleGroup(n, own, prefix, true, AdmitGroup(n, own, prefix, HouseValueSep(cs), ds[q]))
    {
      DropGroupsSpared(n, own, GroupsOf(cs), q);
      AdmitSpared(n, own, prefix, HouseValueSep(cs), ds[q]);
    }
  }

  /** No `label=` clause names the own row beside others. */
  ghost predicate Unmixed(n: Naming, own: string, c: Condition) {
    IsLabelAllow(c) ==> AllMine(n, own, c) || NamesOthers(n, own, c)
  }

  ghost predicate UnmixedAll(n: Naming, own: string, cs: seq<Condition>) {
    forall k :: 0 <= k < |cs| ==> Unmixed(n, own, cs[k])
  }

  lemma HideEditUnmixed(n: Naming, own: string, pending: bool, c: Condition)
    requires HideEdit(n, own, pending, c).Some?
    ensures Unmixed(n, own, HideEdit(n, own, pending, c).value)
  {
    HideEditMine(n, own, c);
    SurvivorsMembers(c.values, PaddedSeps(c), MineIs(n, own));
    if IsLabelAllow(c) && WithoutValues(c, MineIs(n, own)).Some? {
      var d := WithoutValues(c, MineIs(n, own)).value;
      assert forall j :: 0 <= j < |d.values| ==> d.values[j] in d.values;
    }
  }

  lemma HideLeavesExcludes(n: Naming, own: string, pending: bool, c: Condition)
    ensures IsExclude(c) ==> HideEdit(n, own, pending, c) == Some(c)
    ensures HideEdit(n, own, pending, c).Some? ==>
              (OursExclude(n, HideEdit(n, own, pending, c).value) <==> OursExclude(n, c))
  {
  }

  lemma HideKeepsPending(n: Naming, own: string, g: seq<Condition>)
    requires |g| > 0
    ensures AnyOursExclude(n, HideGroup(n, own, g)) <==> AnyOursExclude(n, g)
  {
    hide OursExclude;
    hide HideEdit;
    var edits := HideEdits(n, own, g);
    var kept := Collect(edits);
    RefitExcludes(n, kept, g[0].sep);
    if k :| 0 <= k < |g| && OursExclude(n, g[k]) {
      HideLeavesExcludes(n, own, AnyOursExclude(n, g), g[k]);
      OursIsExclude(n, g[k]);
      var m := KeptHasPlace(edits, k);
      assert OursExclude(n, kept[m]);
    }
    if m :| 0 <= m < |kept| && OursExclude(n, kept[m]) {
      var i := Origin(edits, m);
      HideLeavesExcludes(n, own, AnyOursExclude(n, g), g[i]);
      assert OursExclude(n, g[i]);
    }
  }

  lemma OursIsExclude(n: Naming, c: Condition)
    requires OursExclude(n, c)
    ensures IsExclude(c)
  {
  }

  lemma RefitExcludes(n: Naming, g: seq<Condition>, sep: char)
    ensures AnyOursExclude(n, Refit(g, sep)) <==> AnyOursExclude(n, g)
  {
    var h := Refit(g, sep);
    assert forall k :: 0 <= k < |g| ==> h[k].values == g[k].values && IsExclude(h[k]) == IsExclude(g[k]);
    assert forall k :: 0 <= k < |g| ==> (OursExclude(n, h[k]) <==> OursExclude(n, g[k]));
  }

  lemma HideIdles(n: Naming, own: string, prefix: string, g: seq<Condition>)
    requires |g| > 0 && UnmixedAll(n, own, g)
    ensures IdleGroup(n, own, prefix, false, HideGroup(n, own, g))
  {
    hide HideEdit;
    hide AnyOursExclude;
    hide Unmixed;
    hide AllMine;
    hide NamesOthers;
    HideKeepsPending(n, own, g);
    var edits := HideEdits(n, own, g);
    var kept, h := Collect(edits), HideGroup(n, own, g);
    forall k | 0 <= k < |h| && IsLabelAllow(h[k])
      ensures NamesOthers(n, own, h[k]) || (AllMine(n, own, h[k]) && AnyOursExclude(n, h))
    {
      var i := Origin(edits, k);
      HiddenSays(n, own, AnyOursExclude(n, g), g[i]);
      SepSays(n, own, kept[k], h[k].sep);
      assert h[k] == kept[k].(sep := h[k].sep);
    }
  }

  lemma SepSays(n: Naming, own: string, c: Condition, sep: char)
    ensures NamesOthers(n, own, c.(sep := sep)) <==> NamesOthers(n, own, c)
    ensures AllMine(n, own, c.(sep := sep)) <==> AllMine(n, own, c)
  {
  }

  lemma HiddenSays(n: Naming, own: string, pending: bool, c: Condition)
    requires Unmixed(n, own, c) && HideEdit(n, own, pending, c).Some?
    requires IsLabelAllow(HideEdit(n, own, pending, c).value)
    ensures var d := HideEdit(n, own, pending, c).value;
            NamesOthers(n, own, d) || (AllMine(n, own, d) && pending)
  {
    HideEditMine(n, own, c);
    HideEditUnmixed(n, own, pending, c);
    SurvivorsMembers(c.values, PaddedSeps(c), MineIs(n, own));
    if WithoutValues(c, MineIs(n, own)).Some? {
      var d := WithoutValues(c, MineIs(n, own)).value;
      assert forall j :: 0 <= j < |d.values| ==> d.values[j] in d.values;
    }
  }

  lemma {:induction false} HideGroupsMember(n: Naming, own: string, gs: seq<seq<Condition>>, q: nat) returns (i: nat)
    requires (forall i :: 0 <= i < |gs| ==> |gs[i]| > 0) && q < |HideGroups(n, own, gs)|
    ensures i < |gs| && HideGroups(n, own, gs)[q] == HideGroup(n, own, gs[i]) && |HideGroup(n, own, gs[i])| > 0
    decreases |gs|
  {
    hide HideGroup;
    var m := |gs| - 1;
    if q < |HideGroups(n, own, gs[..m])| {
      i := HideGroupsMember(n, own, gs[..m], q);
    } else {
      i := m;
    }
  }

  lemma GroupUnmixed(n: Naming, own: string, cs: seq<Condition>, q: nat)
    requires UnmixedAll(n, own, cs) && q < |GroupsOf(cs)|
    ensures UnmixedAll(n, own, GroupsOf(cs)[q])
  {
    hide Unmixed;
    FlattenGroups(cs);
    forall k | 0 <= k < |GroupsOf(cs)[q]|
      ensures Unmixed(n, own, GroupsOf(cs)[q][k])
    {
      FlattenHolds(GroupsOf(cs), q, k);
    }
  }

  lemma HiddenIdle(n: Naming, own: string, prefix: string, cs: seq<Condition>)
    requires UnmixedAll(n, own, cs)
    ensures IdleGroups(n, own, prefix, false, HiddenGroups(n, own, cs))
  {
    hide IdleGroup;
    hide HideGroup;
    hide UnmixedAll;
    GroupsShape(cs);
    forall q | 0 <= q < |HiddenGroups(n, own, cs)|
      ensures IdleGroup(n, own, prefix, false, HiddenGroups(n, own, cs)[q])
    {
      var i := HideGroupsMember(n, own, GroupsOf(cs), q);
      GroupUnmixed(n, own, cs, i);
      HideIdles(n, own, prefix, GroupsOf(cs)[i]);
    }
  }

  // ----- the filter that comes of it -----

  lemma AdmittedShape(n: Naming, own: string, prefix: string, show: bool, cs: seq<Condition>)
    requires OwnLabel(n, own) && WellFormed(cs) && NoAmpersand(cs)
    ensures GroupShape(AdmittedGroups(n, own, prefix, show, cs))
    ensures GroupsOf(AdmitConditions(n, own, prefix, show, cs)) ==
            UnledFirst(AdmittedGroups(n, own, prefix, show, cs))
  {
    hide HideGroups;
    var hs := AdmittedGroups(n, own, prefix, show, cs);
    GroupsShape(cs);
    if show {
      ShownGroupsGood(n, own, prefix, cs);
      GoodIsShape(hs);
    } else {
      HideGroupsShape(n, own, GroupsOf(cs));
    }
    GroupsOfFlatten(hs);
    GroupsOfUnled(Flatten(hs));
  }

  lemma AdmittedPrintable(n: Naming, own: string, prefix: string, show: bool, cs: seq<Condition>)
    requires OwnLabel(n, own) && WellFormed(cs) && NoAmpersand(cs)
    ensures Printable(AdmitConditions(n, own, prefix, show, cs))
  {
    hide HideGroups;
    hide ShownGroups;
    hide GoodGroup;
    var us := Flatten(AdmittedGroups(n, own, prefix, show, cs));
    if show {
      ShownGroupsGood(n, own, prefix, cs);
      GoodPrintable(ShownGroups(n, own, prefix, cs));
    } else {
      GoodGroupsOf(cs);
      GroupsShape(cs);
      HideGroupsPrintable(n, own, GroupsOf(cs));
      MembersPrintable(us);
    }
    UnledPrintable(us);
  }

  lemma UnledPrintable(cs: seq<Condition>)
    requires Printable(cs)
    ensures Printable(Unled(cs))
  {
    var us := Unled(cs);
    forall i | 0 <= i < |us|
      ensures PrintableCondition(us[i]) && us[i].values == cs[i].values && (i > 0 ==> us[i] == cs[i])
    {
      assert PrintableCondition(cs[i]);
    }
    forall i, j | 0 <= i < |us| && 0 <= j < |us[i].values|
      ensures Free(us[i].values[j], AMPERSAND)
    {
      assert us[i].values[j] == cs[i].values[j];
    }
  }

  /** A clause whose only value is blank reads back as one without values. */
  ghost predicate Unblanked(cs: seq<Condition>) {
    forall i :: 0 <= i < |cs| ==> cs[i].values != [""]
  }

  lemma UnmixedStays(n: Naming, own: string, pending: bool, c: Condition)
    requires Unmixed(n, own, c) && Clean(c) && HideEdit(n, own, pending, c).Some?
    ensures HideEdit(n, own, pending, c) == Some(c)
  {
    HideEditMine(n, own, c);
    if IsLabelAllow(c) && NamesOthers(n, own, c) {
      HideEditOthers(n, own, c);
    }
  }

  lemma HideMemberOf(n: Naming, own: string, g: seq<Condition>, k: nat) returns (i: nat)
    requires |g| > 0 && k < |HideGroup(n, own, g)|
    ensures i < |g| && HideEdit(n, own, AnyOursExclude(n, g), g[i]).Some?
    ensures HideGroup(n, own, g)[k] ==
            HideEdit(n, own, AnyOursExclude(n, g), g[i]).value.(sep := HideGroup(n, own, g)[k].sep)
  {
    hide HideEdit;
    i := Origin(HideEdits(n, own, g), k);
  }

  /** Where each condition of the filter without the own row comes from. */
  lemma HiddenFrom(n: Naming, own: string, cs: seq<Condition>, k: nat)
    returns (c: Condition, pending: bool)
    requires WellFormed(cs) && NoAmpersand(cs) && k < |AdmitConditions(n, own, "", false, cs)|
    ensures c in cs && Clean(c) && HideEdit(n, own, pending, c).Some?
    ensures AdmitConditions(n, own, "", false, cs)[k] ==
            HideEdit(n, own, pending, c).value.(sep := AdmitConditions(n, own, "", false, cs)[k].sep)
  {
    hide HideGroup;
    hide HideEdit;
    var gs, us := GroupsOf(cs), Flatten(HiddenGroups(n, own, cs));
    GroupsShape(cs);
    FlattenGroups(cs);
    var q, j := FlattenMembers(HiddenGroups(n, own, cs), us[k]);
    var p := HideGroupsMember(n, own, gs, q);
    var i := HideMemberOf(n, own, gs[p], j);
    c, pending := gs[p][i], AnyOursExclude(n, gs[p]);
    FlattenHolds(gs, p, i);
    var m :| 0 <= m < |cs| && cs[m] == c;
    ConditionIsGood(cs, m);
    assert AdmitConditions(n, own, "", false, cs)[k] == us[k].(sep := AdmitConditions(n, own, "", false, cs)[k].sep);
  }

  lemma AdmittedUnblanked(n: Naming, own: string, prefix: string, show: bool, cs: seq<Condition>)
    requires OwnLabel(n, own) && WellFormed(cs) && NoAmpersand(cs)
    requires show || UnmixedAll(n, own, cs)
    ensures Unblanked(AdmitConditions(n, own, prefix, show, cs))
  {
    hide HideEdit;
    hide HideGroups;
    hide ShownGroups;
    hide Unmixed;
    var ds := AdmitConditions(n, own, prefix, show, cs);
    if show {
      ShownGroupsGood(n, own, prefix, cs);
      GoodPrintable(ShownGroups(n, own, prefix, cs));
    } else {
      forall k | 0 <= k < |ds|
        ensures ds[k].values != [""]
      {
        var c, pending := HiddenFrom(n, own, cs, k);
        UnmixedStays(n, own, pending, c);
      }
    }
  }

  lemma IdleReadBack(n: Naming, own: string, prefix: string, show: bool, cs: seq<Condition>)
    requires Idle(n, own, prefix, show, cs) && Unblanked(cs)
    ensures Idle(n, own, prefix, show, ReadBack(cs))
  {
    hide Idle;
    UnledIsReadBack(cs);
    IdleUnled(n, own, prefix, show, cs);
  }

  /** Once the own row has been let in, or taken out, there is nothing left to do. */
  lemma AdmittedIdle(n: Naming, own: string, prefix: string, show: bool, cs: seq<Condition>)
    requires OwnLabel(n, own) && WellFormed(cs) && NoAmpersand(cs)
    requires show || UnmixedAll(n, own, cs)
    ensures Idle(n, own, prefix, show, ReadBack(AdmitConditions(n, own, prefix, show, cs)))
  {
    hide IdleGroup;
    hide UnmixedAll;
    hide AdmitConditions;
    hide ShownGroups;
    hide HiddenGroups;
    hide GroupsOf;
    hide WellFormed;
    hide NoAmpersand;
    hide OwnLabel;
    hide Unblanked;
    hide ReadBack;
    var hs, ds := AdmittedGroups(n, own, prefix, show, cs), AdmitConditions(n, own, prefix, show, cs);
    AdmittedShape(n, own, prefix, show, cs);
    AdmittedUnblanked(n, own, prefix, show, cs);
    if show {
      ShownIdle(n, own, prefix, cs);
    } else {
      HiddenIdle(n, own, prefix, cs);
    }
    if |hs| > 0 {
      IdleUnledGroup(n, own, prefix, show, hs[0]);
    }
    assert Idle(n, own, prefix, show, ds);
    IdleReadBack(n, own, prefix, show, ds);
  }

  /** Taking the own row out leaves no clause that names it beside others. */
  lemma HiddenUnmixed(n: Naming, own: string, cs: seq<Condition>)
    requires WellFormed(cs) && NoAmpersand(cs)
    ensures UnmixedAll(n, own, ReadBack(AdmitConditions(n, own, "", false, cs)))
  {
    hide HideEdit;
    hide HideGroups;
    var ds := AdmitConditions(n, own, "", false, cs);
    forall k | 0 <= k < |ds|
      ensures Unmixed(n, own, ReadBack(ds)[k])
    {
      var c, pending := HiddenFrom(n, own, cs, k);
      HideEditUnmixed(n, own, pending, c);
    }
  }

  // ----- our excludes stand at the head of their groups -----

  /** A clause that leaves nothing once our labels are out. */
  predicate OursOnly(n: Naming, c: Condition) {
    WithoutValues(c, n.ours).None?
  }

  /** Our excludes lead the group, alone in it or holding only labels of ours. */
  ghost predicate HeadedGroup(n: Naming, g: seq<Condition>) {
    forall k :: 0 <= k < |g| && OursExclude(n, g[k]) ==> k == 0 && (|g| == 1 || OursOnly(n, g[0]))
  }

  ghost predicate HeadedGroups(n: Naming, gs: seq<seq<Condition>>) {
    forall q :: 0 <= q < |gs| ==> HeadedGroup(n, gs[q])
  }

  lemma SepOurs(n: Naming, c: Condition, sep: char)
    ensures OursExclude(n, c.(sep := sep)) <==> OursExclude(n, c)
    ensures OursOnly(n, c.(sep := sep)) <==> OursOnly(n, c)
  {
    assert PaddedSeps(c.(sep := sep)) == PaddedSeps(c);
  }

  lemma HeadedSep(n: Naming, g: seq<Condition>, sep: char)
    requires |g| > 0
    ensures HeadedGroup(n, g[0 := g[0].(sep := sep)]) <==> HeadedGroup(n, g)
  {
    SepOurs(n, g[0], sep);
    var h := g[0 := g[0].(sep := sep)];
    assert forall k :: 0 <= k < |g| ==> (OursExclude(n, h[k]) <==> OursExclude(n, g[k]));
  }

  lemma NoneOursHeaded(n: Naming, g: seq<Condition>)
    requires !AnyOursExclude(n, g)
    ensures HeadedGroup(n, g)
  {
  }

  lemma DropHeaded(n: Naming, own: string, g: seq<Condition>)
    requires |g| > 0 && HeadedGroup(n, g)
    ensures HeadedGroup(n, DropGroup(n, own, g))
  {
    hide OursExclude;
    hide OursOnly;
    if !AnyOwnersAllow(n, own, g) {
      SpareExclude(n, own, AnyOursExclude(n, g), g);
      RefitExcludes(n, Spare(n, own, AnyOursExclude(n, g), g), g[0].sep);
      if AnyOursExclude(n, g) {
        SparePending(n, own, g);
        assert Refit(g, g[0].sep) == g;
      } else {
        NoneOursHeaded(n, DropGroup(n, own, g));
      }
    }
  }

  lemma AdmitHeaded(n: Naming, own: string, prefix: string, valueSep: string, g: seq<Condition>)
    requires HeadedGroup(n, g)
    ensures HeadedGroup(n, AdmitGroup(n, own, prefix, valueSep, g))
  {
    hide OursOnly;
    var h := AdmitGroup(n, own, prefix, valueSep, g);
    forall k | 0 <= k < |h| && OursExclude(n, h[k])
      ensures k == 0 && (|h| == 1 || OursOnly(n, h[0]))
    {
      assert k < |g| && h[k] == g[k];
      assert |g| == 1 ==> !AnyOwnersAllow(n, own, g);
    }
  }

  lemma {:induction false} OriginAtLeast<T>(edits: seq<Option<T>>, k: nat)
    requires k < |Collect(edits)|
    ensures Origin(edits, k) >= k
    decreases k
  {
    if k > 0 {
      OriginAtLeast(edits, k - 1);
      OriginMonotone(edits, k - 1, k);
    }
  }

  lemma HideHeaded(n: Naming, own: string, g: seq<Condition>)
    requires |g| > 0 && HeadedGroup(n, g)
    ensures HeadedGroup(n, HideGroup(n, own, g))
  {
    hide OursOnly;
    hide OursExclude;
    hide HideEdit;
    var pending, edits := AnyOursExclude(n, g), HideEdits(n, own, g);
    var kept := Collect(edits);
    forall k | 0 <= k < |kept| && OursExclude(n, kept[k])
      ensures k == 0 && (|kept| == 1 || OursOnly(n, kept[0]))
    {
      var i := Origin(edits, k);
      OriginAtLeast(edits, k);
      HideLeavesExcludes(n, own, pending, g[i]);
      assert OursExclude(n, g[i]);
      OursIsExclude(n, g[0]);
      HideLeavesExcludes(n, own, pending, g[0]);
    }
    if |kept| > 0 {
      HeadedSep(n, kept, g[0].sep);
    }
  }

  lemma {:induction false} DropGroupsHeaded(n: Naming, own: string, gs: seq<seq<Condition>>)
    requires HeadedGroups(n, gs) && forall q :: 0 <= q < |gs| ==> |gs[q]| > 0
    ensures HeadedGroups(n, DropGroups(n, own, gs))
    decreases |gs|
  {
    hide HeadedGroup;
    hide DropGroup;
    if |gs| > 0 {
      DropHeaded(n, own, gs[0]);
      DropGroupsHeaded(n, own, gs[1..]);
    }
  }

  lemma AdmittedHeaded(n: Naming, own: string, prefix: string, show: bool, cs: seq<Condition>)
    requires HeadedGroups(n, GroupsOf(cs))
    ensures HeadedGroups(n, AdmittedGroups(n, own, prefix, show, cs))
  {
    hide HeadedGroup;
    hide DropGroups;
    hide HideGroups;
    hide AdmitGroup;
    hide HideGroup;
    var gs, hs := GroupsOf(cs), AdmittedGroups(n, own, prefix, show, cs);
    GroupsShape(cs);
    if show {
      DropGroupsHeaded(n, own, gs);
    }
    forall q | 0 <= q < |hs|
      ensures HeadedGroup(n, hs[q])
    {
      if show {
        AdmitHeaded(n, own, prefix, HouseValueSep(cs), DropGroups(n, own, gs)[q]);
      } else {
        var i := HideGroupsMember(n, own, gs, q);
        HideHeaded(n, own, gs[i]);
      }
    }
  }

  // ----- something to do in the first group alone -----

  /** Every group but the first has nothing to do. */
  ghost predicate RestIdle(n: Naming, own: string, prefix: string, show: bool, gs: seq<seq<Condition>>) {
    |gs| > 0 ==> IdleGroups(n, own, prefix, show, gs[1..])
  }

  lemma {:induction false} HideGroupsHead(n: Naming, own: string, gs: seq<seq<Condition>>)
    requires |gs| > 0 && forall q :: 0 <= q < |gs| ==> |gs[q]| > 0
    ensures HideGroups(n, own, gs) ==
            (if |HideGroup(n, own, gs[0])| == 0 then [] else [HideGroup(n, own, gs[0])]) + HideGroups(n, own, gs[1..])
    decreases |gs|
  {
    hide HideGroup;
    var m := |gs| - 1;
    if m > 0 {
      HideGroupsHead(n, own, gs[..m]);
      assert gs[..m][1..] == gs[1..][..m - 1];
      var a := if |HideGroup(n, own, gs[0])| == 0 then [] else [HideGroup(n, own, gs[0])];
      var z := if |HideGroup(n, own, gs[m])| == 0 then [] else [HideGroup(n, own, gs[m])];
      Assoc(a, HideGroups(n, own, gs[1..][..m - 1]), z);
    } else {
      assert gs[..0] == [] && gs[1..] == [];
    }
  }

  lemma AdmitGroupsCons(n: Naming, own: string, prefix: string, valueSep: string, a: seq<seq<Condition>>,
                        rest: seq<seq<Condition>>)
    requires IdleGroups(n, own, prefix, true, rest)
    ensures AdmitGroups(n, own, prefix, valueSep, a + rest) == AdmitGroups(n, own, prefix, valueSep, a) + rest
  {
    hide IdleGroup;
    hide AdmitGroup;
    AdmitGroupsIdle(n, own, prefix, valueSep, rest);
    var all := AdmitGroups(n, own, prefix, valueSep, a + rest);
    forall q | 0 <= q < |all|
      ensures all[q] == (AdmitGroups(n, own, prefix, valueSep, a) + rest)[q]
    {
      assert q >= |a| ==> AdmitGroups(n, own, prefix, valueSep, rest)[q - |a|] == rest[q - |a|];
    }
  }

  lemma FirstGroupAlone(n: Naming, own: string, prefix: string, show: bool, cs: seq<Condition>)
    requires WellFormed(cs) && NoAmpersand(cs) && |cs| > 0
    requires RestIdle(n, own, prefix, show, GroupsOf(cs))
    ensures |GroupsOf(cs)[0]| > 0
    ensures var gs := GroupsOf(cs);
            var a := AdmitOne(n, own, prefix, show, HouseValueSep(cs), gs[0]);
            AdmittedGroups(n, own, prefix, show, cs) == (if |a| == 0 then [] else [a]) + gs[1..]
  {
    hide IdleGroup;
    hide AdmitGroup;
    hide DropGroup;
    hide HideGroup;
    hide GoodGroup;
    var gs := GroupsOf(cs);
    var rest := gs[1..];
    GroupsShape(cs);
    GoodGroupsOf(cs);
    if show {
      DropGroupsIdle(n, own, prefix, rest);
      var d := DropGroup(n, own, gs[0]);
      var lead := if |d| == 0 then [] else [d];
      AdmitGroupsCons(n, own, prefix, HouseValueSep(cs), lead, rest);
      if |d| > 0 {
        SameHeadIfAny(n, own, prefix, HouseValueSep(cs), d);
        assert AdmitGroups(n, own, prefix, HouseValueSep(cs), [d]) ==
               [AdmitGroup(n, own, prefix, HouseValueSep(cs), d)];
      } else {
        assert AdmitGroups(n, own, prefix, HouseValueSep(cs), []) == [];
      }
    } else {
      HideGroupsHead(n, own, gs);
      HideGroupsIdle(n, own, prefix, rest);
    }
  }

  lemma SameHeadIfAny(n: Naming, own: string, prefix: string, valueSep: string, d: seq<Condition>)
    requires |d| > 0
    ensures |AdmitGroup(n, own, prefix, valueSep, d)| > 0
  {
  }
}
