/** What a plan does to everything that is not a row: nothing more is shown than the owner's filter shows. */
module PlanVerdicts {
  import opened Options
  import opened ShareFilter
  import opened FilterSemantics
  import opened FilterEdits
  import opened FilterGroups
  import opened FilterMerge
  import opened MergeTheorems
  import opened MergeStability
  import opened FilterAllow
  import opened AllowTheorems
  import opened AllowMethods
  import opened AdmitOutcome
  import opened PassShape
  import opened FirstGroup
  import opened SharePlan
  import opened PlanSteps
  import opened PlanPasses
  import opened PlanPromises

  // ----- clauses the owner put beside the own row -----

  /** A clause that stays whatever becomes of the own row and of our labels. */
  predicate Stays(n: Naming, own: string, c: Condition) {
    !OwnOnly(n, own, c) && !(OursExclude(n, c) && OursOnly(n, c))
  }

  /** A group that names the own row alone holds a clause that stays. */
  ghost predicate RootedGroup(n: Naming, own: string, g: seq<Condition>) {
    (exists k :: 0 <= k < |g| && OwnOnly(n, own, g[k])) ==> exists m :: 0 <= m < |g| && Stays(n, own, g[m])
  }

  ghost predicate RootedGroups(n: Naming, own: string, gs: seq<seq<Condition>>) {
    forall q :: 0 <= q < |gs| ==> RootedGroup(n, own, gs[q])
  }

  /** Conditions `k` and `m` are in one group. */
  predicate Joined(cs: seq<Condition>, k: nat, m: nat)
    requires k < |cs| && m < |cs|
  {
    forall j :: (if k < m then k else m) < j <= (if k < m then m else k) ==> cs[j].sep != '&'
  }

  ghost predicate RootedAt(n: Naming, own: string, cs: seq<Condition>, k: nat)
    requires k < |cs|
  {
    exists m :: 0 <= m < |cs| && Joined(cs, k, m) && Stays(n, own, cs[m])
  }

  /** Wherever a clause names the own row alone, its group holds a clause that stays. */
  ghost predicate Rooted(n: Naming, own: string, cs: seq<Condition>) {
    forall k :: 0 <= k < |cs| && OwnOnly(n, own, cs[k]) ==> RootedAt(n, own, cs, k)
  }

  lemma JoinedBefore(a: seq<Condition>, g: seq<Condition>, k: nat, m: nat)
    requires k < |a| && m < |a| + |g|
    requires |g| > 0 && g[0].sep == '&'
    ensures Joined(a + g, k, m) <==> m < |a| && Joined(a, k, m)
  {
    var cs := a + g;
    if m >= |a| {
      assert cs[|a|].sep == '&';
    } else {
      assert forall j :: 0 <= j < |a| ==> cs[j] == a[j];
    }
  }

  lemma JoinedWithin(a: seq<Condition>, g: seq<Condition>, k: nat, m: nat)
    requires |a| <= k < |a| + |g| && m < |a| + |g| && (|a| > 0 ==> g[0].sep == '&')
    requires forall j :: 1 <= j < |g| ==> g[j].sep != '&'
    ensures Joined(a + g, k, m) <==> m >= |a|
  {
    var cs := a + g;
    assert forall j :: |a| <= j < |cs| ==> cs[j] == g[j - |a|];
    if m < |a| {
      assert cs[|a|].sep == '&';
    }
  }

  lemma RootedBefore(n: Naming, own: string, a: seq<Condition>, g: seq<Condition>, k: nat)
    requires |g| > 0 && g[0].sep == '&' && k < |a|
    ensures RootedAt(n, own, a + g, k) <==> RootedAt(n, own, a, k)
  {
    hide Stays;
    hide Joined;
    var cs := a + g;
    if m :| 0 <= m < |cs| && Joined(cs, k, m) && Stays(n, own, cs[m]) {
      JoinedBefore(a, g, k, m);
      assert Joined(a, k, m) && Stays(n, own, a[m]);
    }
    if m :| 0 <= m < |a| && Joined(a, k, m) && Stays(n, own, a[m]) {
      JoinedBefore(a, g, k, m);
      assert Joined(cs, k, m) && Stays(n, own, cs[m]);
    }
  }

  lemma RootedWithin(n: Naming, own: string, a: seq<Condition>, g: seq<Condition>, k: nat)
    requires k < |g| && (|a| > 0 ==> g[0].sep == '&') && forall j :: 1 <= j < |g| ==> g[j].sep != '&'
    ensures RootedAt(n, own, a + g, |a| + k) <==> exists m :: 0 <= m < |g| && Stays(n, own, g[m])
  {
    hide Stays;
    hide Joined;
    var cs := a + g;
    if m :| 0 <= m < |cs| && Joined(cs, |a| + k, m) && Stays(n, own, cs[m]) {
      JoinedWithin(a, g, |a| + k, m);
      assert Stays(n, own, g[m - |a|]);
    }
    if m :| 0 <= m < |g| && Stays(n, own, g[m]) {
      JoinedWithin(a, g, |a| + k, |a| + m);
      assert cs[|a| + m] == g[m];
    }
  }

  lemma RootedConcat(n: Naming, own: string, a: seq<Condition>, g: seq<Condition>)
    requires |g| > 0 && (|a| > 0 ==> g[0].sep == '&') && forall j :: 1 <= j < |g| ==> g[j].sep != '&'
    ensures Rooted(n, own, a + g) <==> Rooted(n, own, a) && RootedGroup(n, own, g)
  {
    hide Stays;
    hide OwnOnly;
    hide RootedAt;
    var cs := a + g;
    forall k | 0 <= k < |a|
      ensures cs[k] == a[k] && (RootedAt(n, own, cs, k) <==> RootedAt(n, own, a, k))
    {
      RootedBefore(n, own, a, g, k);
    }
    forall k | 0 <= k < |g|
      ensures cs[|a| + k] == g[k]
      ensures RootedAt(n, own, cs, |a| + k) <==> exists m :: 0 <= m < |g| && Stays(n, own, g[m])
    {
      RootedWithin(n, own, a, g, k);
    }
    forall k | |a| <= k < |cs|
      ensures cs[k] == g[k - |a|]
      ensures RootedAt(n, own, cs, k) <==> exists m :: 0 <= m < |g| && Stays(n, own, g[m])
    {
      assert k == |a| + (k - |a|);
    }
  }

  lemma {:induction false} RootedFlatten(n: Naming, own: string, gs: seq<seq<Condition>>)
    requires GroupShape(gs)
    ensures Rooted(n, own, Flatten(gs)) <==> RootedGroups(n, own, gs)
    decreases |gs|
  {
    hide RootedGroup;
    if |gs| > 0 {
      var m := |gs| - 1;
      RootedFlatten(n, own, gs[..m]);
      hide Rooted;
      RootedConcat(n, own, Flatten(gs[..m]), gs[m]);
      assert RootedGroups(n, own, gs) <==> RootedGroups(n, own, gs[..m]) && RootedGroup(n, own, gs[m]);
    }
  }

  lemma GroupsRooted(n: Naming, own: string, cs: seq<Condition>)
    ensures Rooted(n, own, cs) <==> RootedGroups(n, own, GroupsOf(cs))
  {
    hide Rooted;
    hide RootedGroup;
    GroupsShape(cs);
    FlattenGroups(cs);
    RootedFlatten(n, own, GroupsOf(cs));
  }

  /** No group of such a filter allows the own row and nothing else. */
  lemma RootedNoneAlone(n: Naming, own: string, cs: seq<Condition>)
    requires Rooted(n, own, cs)
    ensures NoneOwnAlone(n, own, GroupsOf(cs))
  {
    hide Rooted;
    hide OwnOnly;
    GroupsRooted(n, own, cs);
    GroupsShape(cs);
    forall q | 0 <= q < |GroupsOf(cs)|
      ensures !OwnAlone(n, own, GroupsOf(cs)[q])
    {
      var g := GroupsOf(cs)[q];
      assert RootedGroup(n, own, g);
      if OwnOnly(n, own, g[0]) {
        var m :| 0 <= m < |g| && Stays(n, own, g[m]);
      }
    }
  }

  // ----- letting the own row in keeps it so -----

  lemma OwnersStay(n: Naming, own: string, g: seq<Condition>)
    requires AnyOwnersAllow(n, own, g)
    ensures RootedGroup(n, own, g)
  {
    hide AllMine;
    var k :| 0 <= k < |g| && OwnersAllow(n, own, g[k]);
    assert Stays(n, own, g[k]);
  }

  lemma SepStays(n: Naming, own: string, c: Condition, sep: char)
    ensures Stays(n, own, c.(sep := sep)) <==> Stays(n, own, c)
    ensures OwnOnly(n, own, c.(sep := sep)) <==> OwnOnly(n, own, c)
  {
    SepOurs(n, c, sep);
  }

  lemma DropRooted(n: Naming, own: string, g: seq<Condition>)
    requires |g| > 0 && RootedGroup(n, own, g)
    ensures RootedGroup(n, own, DropGroup(n, own, g))
  {
    hide OwnOnly;
    hide Stays;
    hide AnyOwnersAllow;
    hide AnyOursExclude;
    if !AnyOwnersAllow(n, own, g) {
      if AnyOursExclude(n, g) {
        SparePending(n, own, g);
        assert Refit(g, g[0].sep) == g;
      } else {
        SpareLeavesNone(n, own, g);
        RefitOwnOnly(n, own, Spare(n, own, false, g), g[0].sep);
      }
    }
  }

  lemma AdmitRooted(n: Naming, own: string, prefix: string, valueSep: string, g: seq<Condition>)
    requires RootedGroup(n, own, g)
    ensures RootedGroup(n, own, AdmitGroup(n, own, prefix, valueSep, g))
  {
    hide OwnOnly;
    hide Stays;
    hide AnyAdmits;
    hide AnyOwnersAllow;
    if AdmitGroup(n, own, prefix, valueSep, g) != g {
      AdmitKeepsOwners(n, own, prefix, valueSep, g);
      OwnersStay(n, own, AdmitGroup(n, own, prefix, valueSep, g));
    }
  }

  lemma {:induction false} DropGroupsRooted(n: Naming, own: string, gs: seq<seq<Condition>>)
    requires RootedGroups(n, own, gs) && forall q :: 0 <= q < |gs| ==> |gs[q]| > 0
    ensures RootedGroups(n, own, DropGroups(n, own, gs))
    decreases |gs|
  {
    hide RootedGroup;
    hide DropGroup;
    if |gs| > 0 {
      DropRooted(n, own, gs[0]);
      DropGroupsRooted(n, own, gs[1..]);
    }
  }

  lemma UnledRooted(n: Naming, own: string, cs: seq<Condition>)
    requires Rooted(n, own, cs)
    ensures Rooted(n, own, Unled(cs))
  {
    hide Stays;
    hide OwnOnly;
    var us := Unled(cs);
    forall k | 0 <= k < |cs|
      ensures Stays(n, own, us[k]) <==> Stays(n, own, cs[k])
      ensures OwnOnly(n, own, us[k]) <==> OwnOnly(n, own, cs[k])
    {
      SepStays(n, own, cs[k], us[k].sep);
      assert us[k] == cs[k].(sep := us[k].sep);
    }
    forall k | 0 <= k < |us| && OwnOnly(n, own, us[k])
      ensures RootedAt(n, own, us, k)
    {
      var m :| 0 <= m < |cs| && Joined(cs, k, m) && Stays(n, own, cs[m]);
      assert Joined(us, k, m) && Stays(n, own, us[m]);
    }
  }

  lemma AdmitKeepsRooted(n: Naming, own: string, prefix: string, cs: seq<Condition>)
    requires OwnLabel(n, own) && Plain(cs) && Rooted(n, own, cs)
    ensures Rooted(n, own, ReadBack(AdmitConditions(n, own, prefix, true, cs)))
  {
    hide RootedGroup;
    hide Rooted;
    hide DropGroups;
    hide AdmitGroup;
    GroupsShape(cs);
    var gs := GroupsOf(cs);
    var ds, hs := DropGroups(n, own, gs), ShownGroups(n, own, prefix, cs);
    PlainIs(cs);
    GroupsRooted(n, own, cs);
    DropGroupsRooted(n, own, gs);
    forall q | 0 <= q < |hs|
      ensures RootedGroup(n, own, hs[q])
    {
      AdmitRooted(n, own, prefix, HouseValueSep(cs), ds[q]);
    }
    AdmittedShape(n, own, prefix, true, cs);
    RootedFlatten(n, own, hs);
    UnledRooted(n, own, Flatten(hs));
    AdmittedUnblanked(n, own, prefix, true, cs);
    UnledIsReadBack(AdmitConditions(n, own, prefix, true, cs));
    UnledTwice(Flatten(hs));
  }

  // ----- a merge keeps it so -----

  lemma StayerLifted(n: Naming, own: string, cs: seq<Condition>, m: nat)
    requires m < |cs| && Stays(n, own, cs[m])
    ensures LiftEdit(n, cs, m).Some? && Stays(n, own, LiftEdit(n, cs, m).value)
  {
    hide Enforced;
    hide AllMine;
    OursUnlessMine(n, cs[m]);
    if LiftEdit(n, cs, m) != Some(cs[m]) {
      RemainderNotOurs(n, cs[m]);
    }
  }

  lemma RemainderNotOurs(n: Naming, c: Condition)
    requires WithoutValues(c, n.ours).Some?
    ensures !OursExclude(n, WithoutValues(c, n.ours).value)
  {
    RemainderHoldsNoneOfOurs(n, c);
    OursUnlessMine(n, WithoutValues(c, n.ours).value);
  }

  lemma LiftLeavesAllows(n: Naming, cs: seq<Condition>, i: nat)
    requires i < |cs|
    ensures !IsExclude(cs[i]) ==> LiftEdit(n, cs, i) == Some(cs[i])
    ensures LiftEdit(n, cs, i).Some? ==> IsExclude(LiftEdit(n, cs, i).value) == IsExclude(cs[i])
    ensures LiftEdit(n, cs, i).Some? ==> LiftEdit(n, cs, i).value.sep == cs[i].sep
  {
  }

  lemma {:induction false} StillJoined(n: Naming, cs: seq<Condition>, a: nat, b: nat)
    requires a < |Lifted(n, cs)| && b < |Lifted(n, cs)|
    requires Joined(cs, Origin(LiftEdits(n, cs), a), Origin(LiftEdits(n, cs), b))
    ensures Joined(Lifted(n, cs), a, b)
  {
    hide LiftEdit;
    var edits, kept := LiftEdits(n, cs), Lifted(n, cs);
    var lo, hi := if a < b then a else b, if a < b then b else a;
    forall j | lo < j <= hi
      ensures kept[j].sep != '&'
    {
      OriginMonotone(edits, lo, j);
      if j < hi {
        OriginMonotone(edits, j, hi);
      }
      LiftLeavesAllows(n, cs, Origin(edits, j));
    }
  }

  lemma LiftKeepsRooted(n: Naming, own: string, cs: seq<Condition>)
    requires Rooted(n, own, cs)
    ensures Rooted(n, own, Lifted(n, cs))
  {
    hide Stays;
    hide LiftEdit;
    hide Joined;
    hide AllMine;
    var edits, kept := LiftEdits(n, cs), Lifted(n, cs);
    forall k | 0 <= k < |kept| && OwnOnly(n, own, kept[k])
      ensures RootedAt(n, own, kept, k)
    {
      var i := Origin(edits, k);
      LiftLeavesAllows(n, cs, i);
      assert kept[k] == cs[i];
      assert RootedAt(n, own, cs, i);
      var m :| 0 <= m < |cs| && Joined(cs, i, m) && Stays(n, own, cs[m]);
      StayerLifted(n, own, cs, m);
      var b := KeptHasPlace(edits, m);
      StillJoined(n, cs, k, b);
      assert Stays(n, own, kept[b]);
    }
  }

  lemma TargetUnjoined(cs: seq<Condition>, k: nat, t: nat)
    requires k < |cs| && t < |cs| && IsTarget(cs, t) && k != t
    ensures !Joined(cs, k, t)
  {
    var hi := if k < t then t else k;
    assert cs[hi].sep == '&';
  }

  lemma PlaceKeepsRooted(n: Naming, own: string, cs: seq<Condition>, missing: seq<string>, valueSep: string)
    requires |missing| > 0 && Rooted(n, own, cs)
    ensures Rooted(n, own, Place(cs, missing, valueSep))
  {
    hide Stays;
    hide AllMine;
    hide IsTarget;
    hide Grow;
    var ds, t := Place(cs, missing, valueSep), FirstTarget(cs, 0);
    PlacedShape(cs, missing, valueSep);
    forall k | 0 <= k < |ds| && OwnOnly(n, own, ds[k])
      ensures RootedAt(n, own, ds, k)
    {
      assert k != t && k < |cs| && ds[k] == cs[k];
      assert RootedAt(n, own, cs, k);
      var m :| 0 <= m < |cs| && Joined(cs, k, m) && Stays(n, own, cs[m]);
      if m == t {
        TargetUnjoined(cs, k, t);
      }
      assert Joined(ds, k, m) && Stays(n, own, ds[m]);
    }
  }

  lemma PlacedShape(cs: seq<Condition>, missing: seq<string>, valueSep: string)
    requires |missing| > 0
    ensures var ds, t := Place(cs, missing, valueSep), FirstTarget(cs, 0);
            && |cs| <= |ds| && t < |ds| <= t + 1 + |cs| && IsExclude(ds[t])
            && (forall k :: 0 <= k < |ds| && k != t ==> k < |cs| && ds[k] == cs[k])
            && (t < |cs| ==> |ds| == |cs| && ds[t].sep == cs[t].sep)
  {
  }

  lemma BackRooted(n: Naming, own: string, cs: seq<Condition>)
    requires SaneNaming(n) && Rooted(n, own, cs)
    requires forall k :: 0 <= k < |cs| && !IsExclude(cs[k]) ==> cs[k].values != [""]
    ensures Rooted(n, own, ReadBack(cs))
  {
    hide AllMine;
    hide Stays;
    hide OursOnly;
    var ds := ReadBack(cs);
    forall k | 0 <= k < |ds|
      ensures Stays(n, own, cs[k]) ==> Stays(n, own, ds[k])
      ensures OwnOnly(n, own, ds[k]) ==> OwnOnly(n, own, cs[k])
    {
      BackStays(n, own, cs[k], ds[k].sep);
    }
    forall k | 0 <= k < |ds| && OwnOnly(n, own, ds[k])
      ensures RootedAt(n, own, ds, k)
    {
      assert RootedAt(n, own, cs, k);
      var m :| 0 <= m < |cs| && Joined(cs, k, m) && Stays(n, own, cs[m]);
      assert Joined(ds, k, m) && Stays(n, own, ds[m]);
    }
  }

  lemma BackStays(n: Naming, own: string, c: Condition, sep: char)
    requires SaneNaming(n) && (!IsExclude(c) ==> c.values != [""])
    ensures var d := Blanked(c).(sep := sep);
            (Stays(n, own, c) ==> Stays(n, own, d)) && (OwnOnly(n, own, d) ==> OwnOnly(n, own, c))
  {
    hide AllMine;
    hide OursOnly;
    if c.values != [""] {
      SepStays(n, own, c, sep);
    }
  }

  lemma MergeKeepsRooted(n: Naming, own: string, wanted: seq<string>, cs: seq<Condition>)
    requires SaneNaming(n) && Plain(cs) && Rooted(n, own, cs)
    ensures Rooted(n, own, MergeFor(n, wanted, cs))
  {
    hide Rooted;
    hide Lifted;
    hide Missing;
    hide Wanted;
    hide Place;
    var merged, kept := MergedConditions(n, cs, wanted), Lifted(n, cs);
    var missing := Missing(n, Wanted(n, cs, wanted), kept);
    LiftKeepsRooted(n, own, cs);
    if |missing| > 0 {
      PlaceKeepsRooted(n, own, kept, missing, HouseValueSep(cs));
      PlacedShape(kept, missing, HouseValueSep(cs));
    }
    forall k | 0 <= k < |merged| && !IsExclude(merged[k])
      ensures merged[k].values != [""]
    {
      AllowsUnblanked(n, cs, k);
    }
    BackRooted(n, own, merged);
  }

  lemma AllowsUnblanked(n: Naming, cs: seq<Condition>, k: nat)
    requires Plain(cs) && k < |Lifted(n, cs)| && !IsExclude(Lifted(n, cs)[k])
    ensures Lifted(n, cs)[k].values != [""]
  {
    hide LiftEdit;
    hide Plain;
    var i := Origin(LiftEdits(n, cs), k);
    LiftLeavesAllows(n, cs, i);
    PlainIs(cs);
    ConditionIsGood(cs, i);
  }

  // ----- so no pass shows more -----

  /** An item that carries no label of ours, the account's own row's among them, and no blank tag. */
  ghost predicate NotARow(n: Naming, row: OwnRow, item: Item) {
    && (forall v :: n.ours(v) ==> !CarriesLabel(n, item, v))
    && (row.own.Some? ==> !CarriesLabel(n, item, row.own.value)) && NoBlankTag(n, item)
  }

  ghost predicate RootedFor(n: Naming, row: OwnRow, cs: seq<Condition>) {
    row.own.Some? ==> Rooted(n, row.own.value, cs)
  }

  lemma NoneCarried(n: Naming, wanted: seq<string>, row: OwnRow, cs: seq<Condition>, item: Item)
    requires NotARow(n, row, item) && ShortlistLabels(n, wanted)
    ensures CarriesNone(n, item, Carried(n, cs)) && CarriesNone(n, item, wanted)
  {
    hide CarriesLabel;
    hide Carried;
    hide NoBlankTag;
    forall i | 0 <= i < |Carried(n, cs)|
      ensures !CarriesLabel(n, item, Carried(n, cs)[i])
    {
      var j := CarriedUpToFrom(n, cs, |cs|, Carried(n, cs)[i]) by {
        CarriedIs(n, cs, i);
      }
    }
    forall i | 0 <= i < |wanted|
      ensures !CarriesLabel(n, item, wanted[i])
    {
      assert ShortlistLabel(n, wanted[i]);
    }
  }

  lemma CarriedIs(n: Naming, cs: seq<Condition>, i: nat)
    requires i < |Carried(n, cs)|
    ensures Carried(n, cs)[i] in CarriedUpTo(n, cs, |cs|)
  {
  }

  lemma AdmitShowsSame(n: Naming, row: OwnRow, cs: seq<Condition>, item: Item)
    requires PlannableRow(n, row) && (row.own.Some? ==> row.show) && Plain(cs)
    requires RootedFor(n, row, cs) && NotARow(n, row, item)
    ensures Shows(PipeFirst, n, AdmitFor(n, row, cs), item) <==> Shows(PipeFirst, n, cs, item)
    ensures RootedFor(n, row, AdmitFor(n, row, cs))
  {
    hide Shows;
    hide Rooted;
    hide AdmitConditions;
    hide ParseFilter;
    hide Serialize;
    hide Plain;
    hide OwnLabel;
    hide NoneOwnAlone;
    hide NoBlankTag;
    hide Admit;
    if row.own.Some? {
      var own := row.own.value;
      RootedNoneAlone(n, own, cs);
      PlainSeps(cs);
      AdmitForPlain(n, row, cs);
      PlainSeps(AdmitFor(n, row, cs));
      AdmitChangesNoOtherVerdict(n, Serialize(cs), own, row.prefix, item);
      AdmitKeepsRooted(n, own, row.prefix, cs);
    }
  }

  lemma MergeShowsLess(n: Naming, wanted: seq<string>, row: OwnRow, cs: seq<Condition>, item: Item)
    requires ShortlistLabels(n, wanted) && SaneNaming(n) && Plain(cs) && RootedFor(n, row, cs) && NotARow(n, row, item)
    ensures var ds := MergeFor(n, wanted, cs);
            && (Shows(PipeFirst, n, ds, item) ==> Shows(PipeFirst, n, cs, item))
            && (!LiftChanges(n, cs) ==> (Shows(PipeFirst, n, ds, item) <==> Shows(PipeFirst, n, cs, item)))
            && RootedFor(n, row, ds)
  {
    hide Shows;
    hide Rooted;
    hide MergeFor;
    hide ParseFilter;
    hide Serialize;
    hide Plain;
    hide CarriesNone;
    hide Merge;
    hide LiftChanges;
    NoneCarried(n, wanted, row, cs, item);
    PlainSeps(cs);
    MergeForPlain(n, wanted, cs);
    PlainSeps(MergeFor(n, wanted, cs));
    MergeNeverShowsMore(PipeFirst, n, Serialize(cs), wanted, item);
    if row.own.Some? {
      MergeKeepsRooted(n, row.own.value, wanted, cs);
    }
  }

  lemma {:induction false} PassesShowLess(n: Naming, wanted: seq<string>, row: OwnRow, passes: nat,
                                          cs: seq<Condition>, item: Item)
    requires ShortlistLabels(n, wanted) && SaneNaming(n) && PlannableRow(n, row) && (row.own.Some? ==> row.show)
    requires Plain(cs) && RootedFor(n, row, cs) && NotARow(n, row, item)
    ensures Shows(PipeFirst, n, Passed(n, wanted, row, passes, cs), item) ==> Shows(PipeFirst, n, cs, item)
    decreases passes
  {
    hide Shows;
    hide RootedFor;
    hide AdmitFor;
    hide MergeFor;
    hide Plain;
    hide NotARow;
    hide PlannableRow;
    hide ShortlistLabels;
    hide SaneNaming;
    hide LiftChanges;
    if passes > 0 {
      AdmitForPlain(n, row, cs);
      AdmitShowsSame(n, row, cs, item);
      MergeShowsLess(n, wanted, row, AdmitFor(n, row, cs), item);
      MergeForPlain(n, wanted, AdmitFor(n, row, cs));
      PassesShowLess(n, wanted, row, passes - 1, PassOver(n, wanted, row, cs), item);
    }
  }

  /** Where the filter names the own row alone only beside clauses that stay, what is planned shows nothing but rows
      that the filter did not show; and where Plex ignores no clause of ours in it, exactly what it showed. */
  lemma PlanNeverShowsMore(n: Naming, raw: string, wanted: seq<string>, row: OwnRow, item: Item)
    requires ShortlistLabels(n, wanted) && SaneNaming(n) && PlannableRow(n, row) && (row.own.Some? ==> row.show)
    requires Readable(raw) && RootedFor(n, row, ParseFilter(raw).value) && NotARow(n, row, item)
    ensures Plan(n, raw, wanted, row).Ok? && ParseFilter(Plan(n, raw, wanted, row).value).Ok?
    ensures var before, after := ParseFilter(raw).value, ParseFilter(Plan(n, raw, wanted, row).value).value;
            && (Shows(PipeFirst, n, after, item) ==> Shows(PipeFirst, n, before, item))
            && (!LiftChanges(n, AdmitFor(n, row, before)) ==>
                  (Shows(PipeFirst, n, after, item) <==> Shows(PipeFirst, n, before, item)))
  {
    hide Shows;
    hide RootedFor;
    hide Plain;
    hide NotARow;
    hide PlannableRow;
    hide ShortlistLabels;
    hide SaneNaming;
    hide LiftChanges;
    hide PlanFrom;
    hide Passed;
    hide PassOver;
    hide AdmitFor;
    hide ParseFilter;
    hide Serialize;
    hide LiteralAmpersand;
    ReadablePlain(raw);
    var cs := ParseFilter(raw).value;
    PlanText(n, wanted, row, PLAN_PASSES, cs);
    PlainSeps(Passed(n, wanted, row, PLAN_PASSES, cs));
    PassesShowLess(n, wanted, row, PLAN_PASSES, cs, item);
    if !LiftChanges(n, AdmitFor(n, row, cs)) {
      UnliftedPlan(n, wanted, row, cs, item);
    }
  }

  /** Where the first merge has nothing to lift, the plan is that merge. */
  lemma UnliftedPlan(n: Naming, wanted: seq<string>, row: OwnRow, cs: seq<Condition>, item: Item)
    requires ShortlistLabels(n, wanted) && SaneNaming(n) && PlannableRow(n, row) && (row.own.Some? ==> row.show)
    requires Plain(cs) && RootedFor(n, row, cs) && NotARow(n, row, item) && !LiftChanges(n, AdmitFor(n, row, cs))
    ensures Shows(PipeFirst, n, Passed(n, wanted, row, PLAN_PASSES, cs), item) <==> Shows(PipeFirst, n, cs, item)
  {
    hide Shows;
    hide RootedFor;
    hide Plain;
    hide NotARow;
    hide PlannableRow;
    hide ShortlistLabels;
    hide SaneNaming;
    hide LiftChanges;
    hide AdmitFor;
    hide MergeFor;
    hide IdleFor;
    hide UnmixedFor;
    hide Lodged;
    hide LeadsVoided;
    hide FrontPasses;
    hide Passed;
    hide PlannedAs;
    hide LastAdmits;
    hide RowAllowed;
    var es, first := AdmitFor(n, row, cs), PassOver(n, wanted, row, cs);
    AdmitsAll(n, row, cs);
    AdmitShowsSame(n, row, cs, item);
    MergeShowsLess(n, wanted, row, es, item);
    UnliftedIdle(n, wanted, row, es);
    OnePass(n, wanted, row, cs);
    QuietEnd(n, row, first);
    PassedIs(n, wanted, row, cs, 1);
    FirstStays(n, wanted, row, cs, PLAN_PASSES);
  }
}
