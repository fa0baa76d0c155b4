/** What a merge makes of a filter with nothing to admit: of what it lifts, only a clause of ours at the front leaves a
    group that may hide the own row. */
module PassShape {
  import opened Options
  import opened ShareFilter
  import opened FilterSemantics
  import opened FilterEdits
  import opened FilterGroups
  import opened FilterKin
  import opened FilterMerge
  import opened MergeTheorems
  import opened MergeStability
  import opened FilterAllow
  import opened AllowTheorems
  import opened AdmitIdle
  import opened AdmitOutcome

  /** A filter Plex can read, as it was read. */
  ghost predicate Plain(cs: seq<Condition>) {
    WellFormed(cs) && NoAmpersand(cs)
  }

  lemma PlainSeps(cs: seq<Condition>)
    requires Plain(cs)
    ensures SepsIn(cs, CONDITION_SEPS) && ReadBack(cs) == cs && Printable(cs)
    ensures ParseFilter(Serialize(cs)) == Ok(cs) && !LiteralAmpersand(cs)
  {
    ParsedIsPrintable(cs);
    SerializeRoundTrip(cs);
    NoLiteralAmpersand(cs);
  }

  lemma PlainBack(cs: seq<Condition>)
    requires Printable(cs)
    ensures Plain(ReadBack(cs)) && Serialize(ReadBack(cs)) == Serialize(cs)
  {
    ReadBackText(cs);
    ReadBackWellFormed(cs);
    ReadBackReadable(cs);
    NoLiteralAmpersand(ReadBack(cs));
  }

  // ----- our excludes stand at the head of their groups -----

  /** Our excludes open their groups, alone there or holding only labels of ours. */
  ghost predicate Headed(n: Naming, cs: seq<Condition>) {
    forall k :: 0 <= k < |cs| && OursExclude(n, cs[k]) ==>
      (k == 0 || cs[k].sep == '&') && (Alone(cs, k) || OursOnly(n, cs[k]))
  }

  lemma HeadedAt(n: Naming, a: seq<Condition>, g: seq<Condition>, k: nat)
    requires |g| > 0 && (|a| > 0 ==> g[0].sep == '&') && k < |a| + |g|
    requires forall j :: 1 <= j < |g| ==> g[j].sep != '&'
    ensures k < |a| ==> (a + g)[k] == a[k] && (Alone(a + g, k) <==> Alone(a, k))
    ensures k >= |a| ==> (a + g)[k] == g[k - |a|]
    ensures k == |a| ==> (Alone(a + g, k) <==> |g| == 1)
  {
  }

  lemma HeadedConcat(n: Naming, a: seq<Condition>, g: seq<Condition>)
    requires |g| > 0 && (|a| > 0 ==> g[0].sep == '&') && forall j :: 1 <= j < |g| ==> g[j].sep != '&'
    ensures Headed(n, a + g) <==> Headed(n, a) && HeadedGroup(n, g)
  {
    hide OursExclude;
    hide OursOnly;
    hide Alone;
    var cs := a + g;
    if Headed(n, cs) {
      forall k | 0 <= k < |a| && OursExclude(n, a[k])
        ensures (k == 0 || a[k].sep == '&') && (Alone(a, k) || OursOnly(n, a[k]))
      {
        HeadedAt(n, a, g, k);
      }
      forall j | 0 <= j < |g| && OursExclude(n, g[j])
        ensures j == 0 && (|g| == 1 || OursOnly(n, g[0]))
      {
        HeadedAt(n, a, g, |a| + j);
        assert OursExclude(n, cs[|a| + j]);
      }
    }
    if Headed(n, a) && HeadedGroup(n, g) {
      forall k | 0 <= k < |cs| && OursExclude(n, cs[k])
        ensures (k == 0 || cs[k].sep == '&') && (Alone(cs, k) || OursOnly(n, cs[k]))
      {
        HeadedAt(n, a, g, k);
      }
    }
  }

  lemma {:induction false} HeadedFlatten(n: Naming, gs: seq<seq<Condition>>)
    requires GroupShape(gs)
    ensures Headed(n, Flatten(gs)) <==> HeadedGroups(n, gs)
    decreases |gs|
  {
    hide HeadedGroup;
    hide Headed;
    if |gs| > 0 {
      var m := |gs| - 1;
      HeadedFlatten(n, gs[..m]);
      HeadedConcat(n, Flatten(gs[..m]), gs[m]);
      assert HeadedGroups(n, gs) <==> HeadedGroups(n, gs[..m]) && HeadedGroup(n, gs[m]);
    } else {
      NothingHeaded(n);
    }
  }

  lemma NothingHeaded(n: Naming)
    ensures Headed(n, [])
  {
  }

  lemma HeadedBack(n: Naming, cs: seq<Condition>)
    requires SaneNaming(n) && Headed(n, cs)
    ensures Headed(n, ReadBack(cs))
  {
    hide OursOnly;
    var ds := ReadBack(cs);
    forall k | 0 <= k < |ds| && OursExclude(n, ds[k])
      ensures (k == 0 || ds[k].sep == '&') && (Alone(ds, k) || OursOnly(n, ds[k]))
    {
      assert cs[k].values != [""];
      assert ds[k] == cs[k].(sep := ds[k].sep);
      SepOurs(n, cs[k], ds[k].sep);
      assert Alone(ds, k) <==> Alone(cs, k);
    }
  }

  /** Letting the own row in, or taking it out, leaves our excludes at the heads of their groups. */
  lemma AdmitKeepsHeaded(n: Naming, own: string, prefix: string, show: bool, cs: seq<Condition>)
    requires SaneNaming(n) && OwnLabel(n, own) && Plain(cs) && Headed(n, cs)
    ensures Headed(n, ReadBack(AdmitConditions(n, own, prefix, show, cs)))
  {
    hide HeadedGroups;
    hide Headed;
    hide ShownGroups;
    hide HiddenGroups;
    var hs, ds := AdmittedGroups(n, own, prefix, show, cs), AdmitConditions(n, own, prefix, show, cs);
    GroupsShape(cs);
    FlattenGroups(cs);
    HeadedFlatten(n, GroupsOf(cs));
    AdmittedHeaded(n, own, prefix, show, cs);
    AdmittedShape(n, own, prefix, show, cs);
    HeadedFlatten(n, hs);
    HeadedUnled(n, Flatten(hs));
    HeadedBack(n, ds);
  }

  lemma HeadedUnled(n: Naming, cs: seq<Condition>)
    requires Headed(n, cs)
    ensures Headed(n, Unled(cs))
  {
    hide OursExclude;
    hide OursOnly;
    var ds := Unled(cs);
    forall k | 0 <= k < |ds| && OursExclude(n, ds[k])
      ensures (k == 0 || ds[k].sep == '&') && (Alone(ds, k) || OursOnly(n, ds[k]))
    {
      assert ds[k] == cs[k].(sep := ds[k].sep);
      SepOurs(n, cs[k], ds[k].sep);
      assert Alone(ds, k) <==> Alone(cs, k);
    }
  }

  // ----- filters a merge changes at most at the front -----

  /** Our labels that Plex ignores, and the wanted ones, are enforced somewhere; the clauses of ours that Plex ignores
      hold no label but ours, and open their groups. */
  ghost predicate Lodged(n: Naming, wanted: seq<string>, cs: seq<Condition>) {
    && (forall k :: 0 <= k < |cs| && Unenforced(n, cs, k) ==> (k == 0 || cs[k].sep == '&') && OursOnly(n, cs[k]))
    && (forall l :: l in Carried(n, cs) + wanted ==> EnforcesLabel(n, cs, l))
  }

  lemma OursUnlessMine(n: Naming, c: Condition)
    ensures OursExclude(n, c) <==> IsExclude(c) && |Mine(n, c.values)| > 0
  {
    var mine := Mine(n, c.values);
    if |mine| > 0 {
      assert mine[0] in mine;
    }
    if i :| 0 <= i < |c.values| && n.ours(c.values[i]) {
      assert c.values[i] in mine;
    }
  }

  lemma EnforcedAlone(cs: seq<Condition>, k: nat)
    requires k < |cs| && Enforced(cs, k)
    ensures Alone(cs, k)
  {
  }

  lemma LodgedHeaded(n: Naming, wanted: seq<string>, cs: seq<Condition>)
    requires Lodged(n, wanted, cs)
    ensures Headed(n, cs)
  {
    hide OursOnly;
    hide Enforced;
    hide EnforcesLabel;
    hide Alone;
    forall k | 0 <= k < |cs| && OursExclude(n, cs[k])
      ensures (k == 0 || cs[k].sep == '&') && (Alone(cs, k) || OursOnly(n, cs[k]))
    {
      OursUnlessMine(n, cs[k]);
      if Enforced(cs, k) {
        EnforcedAlone(cs, k);
        AloneOpens(cs, k);
      }
    }
  }

  lemma AloneOpens(cs: seq<Condition>, k: nat)
    requires k < |cs| && Alone(cs, k)
    ensures k == 0 || cs[k].sep == '&'
  {
  }

  /** What a merge gives is such a filter. */
  lemma MergedLodged(n: Naming, wanted: seq<string>, cs: seq<Condition>)
    requires SaneNaming(n) && SepsIn(cs, CONDITION_SEPS)
    requires AllEnforced(n, ReadBack(MergedConditions(n, cs, wanted)), Wanted(n, cs, wanted))
    ensures Lodged(n, wanted, ReadBack(MergedConditions(n, cs, wanted)))
  {
    hide MergedConditions;
    hide Lifted;
    hide Carried;
    hide EnforcesLabel;
    hide AllEnforced;
    var ds := ReadBack(MergedConditions(n, cs, wanted));
    forall k | 0 <= k < |ds| && Unenforced(n, ds, k)
      ensures (k == 0 || ds[k].sep == '&') && OursOnly(n, ds[k])
    {
      UnenforcedAfterMerge(n, cs, wanted, k);
      var i := StillUnenforced(n, cs, k);
      assert PaddedSeps(ds[k]) == PaddedSeps(cs[i]);
    }
    forall l | l in Carried(n, ds) + wanted
      ensures EnforcesLabel(n, ds, l)
    {
      SecondPassWantsOld(n, cs, wanted, l);
    }
  }

  lemma LodgedEdit(n: Naming, wanted: seq<string>, cs: seq<Condition>, k: nat)
    requires Lodged(n, wanted, cs) && k < |cs|
    ensures LiftEdit(n, cs, k) == if k == 0 && Unenforced(n, cs, 0) then None else Some(cs[k])
  {
  }

  lemma LodgedMissing(n: Naming, wanted: seq<string>, cs: seq<Condition>)
    requires Lodged(n, wanted, cs)
    ensures Missing(n, Wanted(n, cs, wanted), Lifted(n, cs)) == []
  {
    hide Unenforced;
    hide EnforcesLabel;
    hide Lifted;
    hide Carried;
    var missing := Missing(n, Wanted(n, cs, wanted), Lifted(n, cs));
    if |missing| > 0 {
      var l := missing[0];
      assert l in missing && l in Carried(n, cs) + wanted;
      EnforcedBeforeIsEnforcedAfter(n, cs, l);
      assert false;
    }
  }

  /** Merging one drops the clause of ours that leads it, if one does, and does nothing else. */
  lemma LodgedMerge(n: Naming, wanted: seq<string>, cs: seq<Condition>)
    requires Lodged(n, wanted, cs)
    ensures MergedConditions(n, cs, wanted) == if LeadsVoided(n, cs) then cs[1..] else cs
    ensures Lifted(n, cs) == MergedConditions(n, cs, wanted)
  {
    hide Unenforced;
    hide Lodged;
    hide EnforcesLabel;
    hide Missing;
    hide Wanted;
    forall k | 0 <= k < |cs|
      ensures LiftEdits(n, cs)[k] == if k == 0 && LeadsVoided(n, cs) then None else Some(cs[k])
    {
      LodgedEdit(n, wanted, cs, k);
    }
    if LeadsVoided(n, cs) {
      CollectWithoutFirst(cs, LiftEdits(n, cs));
    } else {
      CollectAll(cs, LiftEdits(n, cs));
    }
    LodgedMissing(n, wanted, cs);
  }

  // ----- what a merge makes of a filter whose excludes are headed -----

  /** The filter loses its first clause to the lift. */
  predicate LosesFirst(n: Naming, cs: seq<Condition>) {
    |cs| > 0 && Unenforced(n, cs, 0) && OursOnly(n, cs[0])
  }

  function Remaining(n: Naming, cs: seq<Condition>): seq<Condition> {
    if LosesFirst(n, cs) then cs[1..] else cs
  }

  /** A lifted clause keeps its separator; it is what it was, or some `label!=` clause that was a group of its own. */
  ghost predicate Trims(n: Naming, cs: seq<Condition>, k: nat)
    requires k < |cs|
  {
    && LiftEdit(n, cs, k).Some? && LiftEdit(n, cs, k).value.sep == cs[k].sep
    && (LiftEdit(n, cs, k).value == cs[k]
        || (Alone(cs, k) && IsExclude(cs[k]) && IsExclude(LiftEdit(n, cs, k).value)))
  }

  lemma LiftTrims(n: Naming, cs: seq<Condition>, k: nat)
    requires Headed(n, cs) && SepsIn(cs, CONDITION_SEPS) && k < |cs| && !(k == 0 && LosesFirst(n, cs))
    ensures Trims(n, cs, k)
  {
    hide Alone;
    OursUnlessMine(n, cs[k]);
  }

  lemma LiftLoses(n: Naming, cs: seq<Condition>)
    requires LosesFirst(n, cs)
    ensures LiftEdit(n, cs, 0) == None
  {
  }

  lemma {:induction false} CollectValues<T>(edits: seq<Option<T>>)
    requires forall i :: 0 <= i < |edits| ==> edits[i].Some?
    ensures |Collect(edits)| == |edits| && forall i :: 0 <= i < |edits| ==> Collect(edits)[i] == edits[i].value
    decreases |edits|
  {
    if |edits| > 0 {
      CollectValues(edits[..|edits| - 1]);
    }
  }

  /** What is lifted, position by position. */
  lemma LiftedAt(n: Naming, cs: seq<Condition>)
    requires Headed(n, cs) && SepsIn(cs, CONDITION_SEPS)
    ensures |Lifted(n, cs)| == |Remaining(n, cs)|
    ensures var lead := if LosesFirst(n, cs) then 1 else 0;
            forall k :: 0 <= k < |Lifted(n, cs)| ==>
              Trims(n, cs, k + lead) && Lifted(n, cs)[k] == LiftEdit(n, cs, k + lead).value
  {
    hide Trims;
    hide Headed;
    hide LosesFirst;
    hide LiftEdit;
    var edits, lead := LiftEdits(n, cs), if LosesFirst(n, cs) then 1 else 0;
    LoserExists(n, cs);
    forall k | lead <= k < |cs|
      ensures Trims(n, cs, k) && edits[k].Some?
    {
      LiftTrims(n, cs, k);
      TrimmedSome(n, cs, k);
    }
    if lead == 1 {
      LiftLoses(n, cs);
      CollectCons(edits);
      CollectValues(edits[1..]);
    } else {
      CollectValues(edits);
    }
  }

  lemma LoserExists(n: Naming, cs: seq<Condition>)
    ensures LosesFirst(n, cs) ==> |cs| > 0
  {
  }

  lemma TrimmedSome(n: Naming, cs: seq<Condition>, k: nat)
    requires k < |cs| && Trims(n, cs, k)
    ensures LiftEdit(n, cs, k).Some?
  {
  }

  lemma AloneBehind(cs: seq<Condition>, k: nat)
    requires 0 < k < |cs| && Alone(cs, k)
    ensures Alone(cs[1..], k - 1)
  {
  }

  /** A clause trimmed, or left as it was, among those behind the first `lead`. */
  lemma TrimKin(cs: seq<Condition>, lead: nat, kept: seq<Condition>, k: nat)
    requires lead <= 1 && k + lead < |cs| && |kept| == |cs| - lead && cs[k + lead].values != [""]
    requires kept[k].sep == cs[k + lead].sep
    requires kept[k] == cs[k + lead] || (Alone(cs, k + lead) && IsExclude(cs[k + lead]) && IsExclude(kept[k]))
    ensures Kin(cs[lead..], ReadBack(kept), k)
  {
    if lead == 1 && Alone(cs, k + 1) {
      AloneBehind(cs, k + 1);
    }
  }

  lemma RemainingIs(n: Naming, cs: seq<Condition>)
    ensures LosesFirst(n, cs) ==> |cs| > 0
    ensures Remaining(n, cs) == cs[if LosesFirst(n, cs) then 1 else 0..]
  {
  }

  lemma LiftedKin(n: Naming, cs: seq<Condition>, k: nat)
    requires Headed(n, cs) && Plain(cs) && k < |Remaining(n, cs)|
    ensures |Lifted(n, cs)| == |Remaining(n, cs)| && Kin(Remaining(n, cs), ReadBack(Lifted(n, cs)), k)
    ensures IsExclude(Lifted(n, cs)[k]) == IsExclude(Remaining(n, cs)[k])
    ensures Lifted(n, cs)[k].sep == Remaining(n, cs)[k].sep
  {
    hide Headed;
    hide LosesFirst;
    hide LiftEdit;
    hide Lifted;
    hide Remaining;
    hide Alone;
    hide Kin;
    hide WellFormed;
    hide NoAmpersand;
    hide ParseFilter;
    hide Serialize;
    hide Printable;
    hide LiteralAmpersand;
    hide SepsIn;
    hide ReadBack;
    PlainSeps(cs);
    LiftedAt(n, cs);
    RemainingIs(n, cs);
    var lead := if LosesFirst(n, cs) then 1 else 0;
    var c := Lifted(n, cs)[k];
    assert Trims(n, cs, k + lead);
    ConditionIsGood(cs, k + lead);
    TrimKin(cs, lead, Lifted(n, cs), k);
  }

  lemma GrownKin(cs: seq<Condition>, kept: seq<Condition>, ds: seq<Condition>, k: nat)
    requires |cs| == |kept| && k < |cs| && (forall i :: 0 <= i < |cs| ==> kept[i].sep == cs[i].sep)
    requires IsExclude(cs[k]) && IsTarget(kept, k) && |ds| == |cs| && IsExclude(ds[k]) && ds[k].sep == kept[k].sep
    ensures Kin(cs, ReadBack(ds), k)
  {
    EnforcedAlone(kept, k);
  }

  /** A merged filter is kin to what remained of it, with perhaps an exclude behind. */
  lemma MergedKin(n: Naming, wanted: seq<string>, cs: seq<Condition>)
    requires Headed(n, cs) && Plain(cs)
    ensures var x, ds := Remaining(n, cs), ReadBack(MergedConditions(n, cs, wanted));
            && |x| <= |ds| <= |x| + 1 && Akin(x, ds[..|x|])
            && (|ds| > |x| ==> IsExclude(ds[|x|]) && (|x| > 0 ==> ds[|x|].sep == '&'))
  {
    hide LosesFirst;
    hide Lifted;
    hide Headed;
    hide Kin;
    hide Plain;
    hide Missing;
    hide Remaining;
    var x, kept, merged := Remaining(n, cs), Lifted(n, cs), MergedConditions(n, cs, wanted);
    var ds := ReadBack(merged);
    PlainSeps(cs);
    LiftedAt(n, cs);
    assert |kept| == |x| <= |merged| <= |x| + 1;
    forall k | 0 <= k < |x|
      ensures Kin(x, ds[..|x|], k)
    {
      MergedKinAt(n, wanted, cs, k);
    }
  }

  lemma KinOnly(cs: seq<Condition>, ds: seq<Condition>, es: seq<Condition>, k: nat)
    requires k < |cs| == |ds| == |es| && ds[k] == es[k] && Kin(cs, ds, k)
    ensures Kin(cs, es, k)
  {
  }

  lemma MergedKinAt(n: Naming, wanted: seq<string>, cs: seq<Condition>, k: nat)
    requires Headed(n, cs) && Plain(cs) && k < |Remaining(n, cs)|
    ensures |ReadBack(MergedConditions(n, cs, wanted))| >= |Remaining(n, cs)|
    ensures Kin(Remaining(n, cs), ReadBack(MergedConditions(n, cs, wanted))[..|Remaining(n, cs)|], k)
  {
    hide Kin;
    hide Headed;
    hide Plain;
    hide Lifted;
    hide Missing;
    hide Remaining;
    var x, kept, merged := Remaining(n, cs), Lifted(n, cs), MergedConditions(n, cs, wanted);
    LiftedKin(n, cs, k);
    var ds := ReadBack(merged)[..|x|];
    if merged[k] == kept[k] {
      KinOnly(x, ReadBack(kept), ds, k);
    } else {
      forall i | 0 <= i < |x|
        ensures kept[i].sep == x[i].sep
      {
        LiftedKin(n, cs, i);
      }
      GrownKin(x, kept, merged[..|x|], k);
      KinOnly(x, ReadBack(merged[..|x|]), ds, k);
    }
  }

  // ----- so what is idle stays idle -----

  lemma LoneExcludeIdle(n: Naming, own: string, prefix: string, show: bool, g: seq<Condition>)
    requires |g| == 1 && IsExclude(g[0])
    ensures IdleGroup(n, own, prefix, show, g)
  {
  }

  lemma SameSaysSame(n: Naming, own: string, c: Condition, d: Condition, rowLabels: seq<string>)
    requires SameSay(c, d)
    ensures OwnersAllow(n, own, c) <==> OwnersAllow(n, own, d)
    ensures OursExclude(n, c) <==> OursExclude(n, d)
    ensures OwnOnly(n, own, c) <==> OwnOnly(n, own, d)
    ensures Admits(n, c, rowLabels) <==> Admits(n, d, rowLabels)
    ensures IsLabelAllow(c) <==> IsLabelAllow(d)
    ensures NamesOthers(n, own, c) <==> NamesOthers(n, own, d)
    ensures AllMine(n, own, c) <==> AllMine(n, own, d)
  {
  }

  lemma SameAnywhere(n: Naming, own: string, g: seq<Condition>, h: seq<Condition>, rowLabels: seq<string>)
    requires |g| == |h| && forall k :: 0 <= k < |g| ==> SameSay(g[k], h[k])
    ensures AnyOwnersAllow(n, own, g) <==> AnyOwnersAllow(n, own, h)
    ensures AnyOursExclude(n, g) <==> AnyOursExclude(n, h)
    ensures AnyAdmits(n, g, rowLabels) <==> AnyAdmits(n, h, rowLabels)
  {
    hide SameSay;
    hide OwnersAllow;
    hide OursExclude;
    hide Admits;
    forall k | 0 <= k < |g|
      ensures OwnersAllow(n, own, g[k]) <==> OwnersAllow(n, own, h[k])
      ensures OursExclude(n, g[k]) <==> OursExclude(n, h[k])
      ensures Admits(n, g[k], rowLabels) <==> Admits(n, h[k], rowLabels)
    {
      SameSaysSame(n, own, g[k], h[k], rowLabels);
    }
  }

  lemma IdleKin(n: Naming, own: string, prefix: string, show: bool, g: seq<Condition>, h: seq<Condition>)
    requires KinGroup(g, h) && IdleGroup(n, own, prefix, show, g)
    ensures IdleGroup(n, own, prefix, show, h)
  {
    hide SameSay;
    hide OwnOnly;
    hide NamesOthers;
    hide AllMine;
    hide AnyOwnersAllow;
    hide AnyOursExclude;
    hide AnyAdmits;
    if LoneExcludes(g, h) {
      LoneExcludeIdle(n, own, prefix, show, h);
    } else {
      SameAnywhere(n, own, g, h, [own, prefix]);
      forall k | 0 <= k < |h|
        ensures OwnOnly(n, own, g[k]) <==> OwnOnly(n, own, h[k])
        ensures IsLabelAllow(g[k]) <==> IsLabelAllow(h[k])
        ensures NamesOthers(n, own, g[k]) <==> NamesOthers(n, own, h[k])
        ensures AllMine(n, own, g[k]) <==> AllMine(n, own, h[k])
      {
        SameSaysSame(n, own, g[k], h[k], []);
      }
    }
  }

  /** The groups of a filter and an exclude behind it. */
  lemma GroupsWithExclude(cs: seq<Condition>, c: Condition)
    requires IsExclude(c) && (|cs| > 0 ==> c.sep == '&')
    ensures GroupsOf(cs + [c]) == GroupsOf(cs) + [[c]]
  {
    GroupsSnoc(cs, c);
  }

  /** From group `lo` on, nothing to do. */
  ghost predicate IdleFrom(n: Naming, own: string, prefix: string, show: bool, gs: seq<seq<Condition>>, lo: nat) {
    forall q :: lo <= q < |gs| ==> IdleGroup(n, own, prefix, show, gs[q])
  }

  lemma IdleFromKin(n: Naming, own: string, prefix: string, show: bool, gs: seq<seq<Condition>>,
                    hs: seq<seq<Condition>>, lo: nat)
    requires KinGroups(gs, hs) && IdleFrom(n, own, prefix, show, gs, lo)
    ensures IdleFrom(n, own, prefix, show, hs, lo)
  {
    hide IdleGroup;
    hide KinGroup;
    forall q | lo <= q < |hs|
      ensures IdleGroup(n, own, prefix, show, hs[q])
    {
      IdleKin(n, own, prefix, show, gs[q], hs[q]);
    }
  }

  lemma IdleFromMore(n: Naming, own: string, prefix: string, show: bool, gs: seq<seq<Condition>>, g: seq<Condition>,
                     lo: nat)
    requires IdleFrom(n, own, prefix, show, gs, lo) && |g| == 1 && IsExclude(g[0])
    ensures IdleFrom(n, own, prefix, show, gs + [g], lo)
  {
    hide IdleGroup;
    LoneExcludeIdle(n, own, prefix, show, g);
  }

  /** What has nothing to do in `x` from group `lo` on has nothing to do in a filter kin to it. */
  lemma KinIdle(n: Naming, own: string, prefix: string, show: bool, x: seq<Condition>, ds: seq<Condition>, lo: nat)
    requires |x| <= |ds| <= |x| + 1 && Akin(x, ds[..|x|])
    requires |ds| > |x| ==> IsExclude(ds[|x|]) && (|x| > 0 ==> ds[|x|].sep == '&')
    requires IdleFrom(n, own, prefix, show, GroupsOf(x), lo)
    ensures IdleFrom(n, own, prefix, show, GroupsOf(ds), lo)
  {
    hide IdleFrom;
    hide Akin;
    hide KinGroups;
    hide GroupsOf;
    AkinGroups(x, ds[..|x|]);
    KinBehind(ds, |x|);
    IdleFromKin(n, own, prefix, show, GroupsOf(x), GroupsOf(ds[..|x|]), lo);
    if |ds| > |x| {
      IdleFromMore(n, own, prefix, show, GroupsOf(ds[..|x|]), [ds[|x|]], lo);
    } else {
      assert GroupsOf(ds) == GroupsOf(ds[..|x|]) by {
        assert ds == ds[..|x|];
      }
    }
  }

  lemma KinBehind(ds: seq<Condition>, m: nat)
    requires m <= |ds| <= m + 1
    requires |ds| > m ==> IsExclude(ds[m]) && (m > 0 ==> ds[m].sep == '&')
    ensures GroupsOf(ds) == GroupsOf(ds[..m]) + (if |ds| > m then [[ds[m]]] else [])
  {
    hide GroupsOf;
    if |ds| > m {
      assert ds == ds[..m] + [ds[m]];
      GroupsWithExclude(ds[..m], ds[m]);
    } else {
      assert ds == ds[..m];
      assert GroupsOf(ds) + [] == GroupsOf(ds);
    }
  }

  lemma RestIdleFrom(n: Naming, own: string, prefix: string, show: bool, gs: seq<seq<Condition>>)
    ensures RestIdle(n, own, prefix, show, gs) <==> IdleFrom(n, own, prefix, show, gs, 1)
  {
    hide IdleGroup;
    if RestIdle(n, own, prefix, show, gs) {
      forall q | 1 <= q < |gs|
        ensures IdleGroup(n, own, prefix, show, gs[q])
      {
        assert gs[1..][q - 1] == gs[q];
      }
    }
  }

  lemma IdleIsFrom(n: Naming, own: string, prefix: string, show: bool, cs: seq<Condition>)
    ensures Idle(n, own, prefix, show, cs) <==> IdleFrom(n, own, prefix, show, GroupsOf(cs), 0)
    ensures Idle(n, own, prefix, show, cs) ==> IdleFrom(n, own, prefix, show, GroupsOf(cs), 1)
  {
    hide IdleGroup;
  }

  /** Taking off a clause that `|` joins to the rest leaves a remnant of the first group, and the others. */
  lemma PipedRestIdle(n: Naming, own: string, prefix: string, show: bool, cs: seq<Condition>)
    requires Idle(n, own, prefix, show, cs) && |cs| > 1 && cs[1].sep != '&'
    ensures IdleFrom(n, own, prefix, show, GroupsOf(cs[1..]), 1)
  {
    hide IdleGroup;
    hide GroupsOf;
    var t := cs[1..];
    assert cs == [cs[0]] + t;
    GroupsJoin(cs[0], t);
    assert forall q :: 1 <= q < |GroupsOf(t)| ==> GroupsOf(t)[q] == GroupsOf(cs)[q];
  }

  lemma RemainingIdle(n: Naming, own: string, prefix: string, show: bool, cs: seq<Condition>)
    requires Idle(n, own, prefix, show, cs)
    ensures IdleFrom(n, own, prefix, show, GroupsOf(Remaining(n, cs)), 1)
    ensures !LosesFirst(n, cs) || |cs| == 1 || cs[1].sep == '&' ==> Idle(n, own, prefix, show, Remaining(n, cs))
  {
    hide Idle;
    hide IdleFrom;
    hide LosesFirst;
    hide GroupsOf;
    LoserExists(n, cs);
    if LosesFirst(n, cs) {
      if |cs| == 1 || cs[1].sep == '&' {
        IdleTail(n, own, prefix, show, cs);
        IdleIsFrom(n, own, prefix, show, cs[1..]);
      } else {
        PipedRestIdle(n, own, prefix, show, cs);
      }
    } else {
      IdleIsFrom(n, own, prefix, show, cs);
    }
  }

  /** After a merge, a filter that had nothing to do has something to do in its first group at most; and only if a
      clause of ours left its front and none leads it now. */
  lemma MergeUncovers(n: Naming, own: string, prefix: string, show: bool, wanted: seq<string>, cs: seq<Condition>)
    requires SaneNaming(n) && Headed(n, cs) && Plain(cs) && Idle(n, own, prefix, show, cs)
    ensures var ds := ReadBack(MergedConditions(n, cs, wanted));
            && |ds| <= |cs| + 1 && (LosesFirst(n, cs) ==> |ds| <= |cs|)
            && RestIdle(n, own, prefix, show, GroupsOf(ds))
            && (!LosesFirst(n, cs) || LeadsVoided(n, ds) ==> Idle(n, own, prefix, show, ds))
  {
    hide Idle;
    hide IdleFrom;
    hide RestIdle;
    hide MergedConditions;
    hide Headed;
    hide Plain;
    hide Akin;
    hide LosesFirst;
    hide GroupsOf;
    hide LeadsVoided;
    var x, ds := Remaining(n, cs), ReadBack(MergedConditions(n, cs, wanted));
    MergedKin(n, wanted, cs);
    LoserExists(n, cs);
    RemainingIdle(n, own, prefix, show, cs);
    IdleIsFrom(n, own, prefix, show, x);
    IdleIsFrom(n, own, prefix, show, ds);
    KinIdle(n, own, prefix, show, x, ds, 1);
    RestIdleFrom(n, own, prefix, show, GroupsOf(ds));
    if Idle(n, own, prefix, show, x) {
      KinIdle(n, own, prefix, show, x, ds, 0);
    } else if LeadsVoided(n, ds) {
      NotVoidedBehind(n, wanted, cs);
      assert false;
    }
  }

  lemma NotVoidedBehind(n: Naming, wanted: seq<string>, cs: seq<Condition>)
    requires SaneNaming(n) && Headed(n, cs) && Plain(cs) && LosesFirst(n, cs) && |cs| > 1 && cs[1].sep != '&'
    ensures !LeadsVoided(n, ReadBack(MergedConditions(n, cs, wanted)))
  {
    hide MergedConditions;
    hide LosesFirst;
    hide Plain;
    hide Lifted;
    var ds := ReadBack(MergedConditions(n, cs, wanted));
    if LeadsVoided(n, ds) {
      UnenforcedAfterMerge(n, cs, wanted, 0);
      PlainSeps(cs);
      LiftedAt(n, cs);
      assert Trims(n, cs, 1);
      OursUnlessMine(n, cs[1]);
      assert false;
    }
  }
}
