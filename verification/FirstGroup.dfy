/** Letting the own row in, or taking it out, where only the first group asks for it: everything behind that group
    stands as it stood. */
module FirstGroup {
  import opened ShareFilter
  import opened FilterSemantics
  import opened FilterEdits
  import opened FilterGroups
  import opened FilterMerge
  import opened MergeTheorems
  import opened MergeStability
  import opened FilterAllow
  import opened AllowTheorems
  import opened AllowMethods
  import opened AdmitIdle
  import opened AdmitOutcome
  import opened PassShape

  // ----- the first group holds no exclude of ours -----

  lemma GroupHeaded(n: Naming, cs: seq<Condition>, q: nat)
    requires Headed(n, cs) && q < |GroupsOf(cs)|
    ensures HeadedGroup(n, GroupsOf(cs)[q])
  {
    hide Headed;
    GroupsShape(cs);
    FlattenGroups(cs);
    HeadedFlatten(n, GroupsOf(cs));
  }

  lemma PipeBehindFirst(cs: seq<Condition>)
    requires |cs| > 0 && |GroupsOf(cs)[0]| > 1
    ensures !Enforced(cs, 0) && cs[0] == GroupsOf(cs)[0][0]
  {
    FirstAndRestAt(cs);
    assert cs[1].sep != '&';
  }

  lemma FirstAndRestAt(cs: seq<Condition>)
    requires |cs| > 0
    ensures var g := GroupsOf(cs)[0];
            && 0 < |g| <= |cs| && (forall k :: 0 <= k < |g| ==> cs[k] == g[k])
            && (forall k :: 1 <= k < |g| ==> cs[k].sep != '&')
            && cs == g + Flatten(GroupsOf(cs)[1..])
            && (|g| < |cs| ==> cs[|g|].sep == '&')
  {
    hide Flatten;
    hide GroupsOf;
    FilterKin.FirstAndRest(cs);
  }

  lemma FirstGroupBare(n: Naming, own: string, prefix: string, show: bool, cs: seq<Condition>)
    requires Headed(n, cs) && RestIdle(n, own, prefix, show, GroupsOf(cs)) && !Idle(n, own, prefix, show, cs)
    requires !LeadsVoided(n, cs)
    ensures |cs| > 0 && !AnyOursExclude(n, GroupsOf(cs)[0])
    ensures |GroupsOf(cs)[0]| == 1 ==> !IsExclude(GroupsOf(cs)[0][0])
  {
    hide IdleGroup;
    hide Headed;
    hide OursOnly;
    RestIdleFrom(n, own, prefix, show, GroupsOf(cs));
    var g := GroupsOf(cs)[0];
    if |g| == 1 && IsExclude(g[0]) {
      LoneExcludeIdle(n, own, prefix, show, g);
      assert false;
    }
    GroupHeaded(n, cs, 0);
    if k :| 0 <= k < |g| && OursExclude(n, g[k]) {
      OursUnlessMine(n, g[0]);
      PipeBehindFirst(cs);
      assert false;
    }
  }

  lemma AdmitOneBare(n: Naming, own: string, prefix: string, show: bool, valueSep: string, g: seq<Condition>)
    requires |g| > 0 && !AnyOursExclude(n, g)
    ensures !AnyOursExclude(n, AdmitOne(n, own, prefix, show, valueSep, g))
  {
    hide AnyOursExclude;
    hide AdmitGroup;
    hide HideGroup;
    if show {
      SpareExclude(n, own, false, g);
      RefitExcludes(n, Spare(n, own, false, g), g[0].sep);
      AdmitKeepsPending(n, own, prefix, valueSep, DropGroup(n, own, g));
      NoneExcluded(n);
    } else {
      HideKeepsPending(n, own, g);
    }
  }

  lemma NoneExcluded(n: Naming)
    ensures !AnyOursExclude(n, [])
  {
  }

  // ----- behind it nothing changes -----

  lemma TailEnforced(g: seq<Condition>, a: seq<Condition>, t: seq<Condition>, j: nat)
    requires |g| > 0 && j < |t| && t[0].sep == '&'
    ensures Enforced(Unled(a + t), |a| + j) <==> Enforced(g + t, |g| + j)
  {
    var e, d := Unled(a + t), g + t;
    if Enforced(e, |a| + j) {
      forall m | |g| + j <= m < |d| && m > 0
        ensures d[m].sep == '&'
      {
        assert d[m] == t[m - |g|];
        if m > |g| || |a| > 0 {
          assert e[|a| + (m - |g|)].sep == '&';
        }
      }
    }
    if Enforced(d, |g| + j) {
      forall m | |a| + j <= m < |e| && m > 0
        ensures e[m].sep == '&'
      {
        assert e[m] == t[m - |a|] == d[|g| + (m - |a|)];
      }
    }
  }

  lemma TailSays(n: Naming, g: seq<Condition>, a: seq<Condition>, t: seq<Condition>, j: nat)
    requires |g| > 0 && j < |t| && t[0].sep == '&'
    ensures var e, d := Unled(a + t), g + t;
            && (Unenforced(n, e, |a| + j) <==> Unenforced(n, d, |g| + j))
            && (IsTarget(e, |a| + j) <==> IsTarget(d, |g| + j))
            && (OursOnly(n, e[|a| + j]) <==> OursOnly(n, d[|g| + j]))
            && e[|a| + j].values == d[|g| + j].values && (|a| + j == 0 || e[|a| + j].sep == d[|g| + j].sep)
  {
    hide Enforced;
    TailEnforced(g, a, t, j);
    var e, d := Unled(a + t), g + t;
    assert d[|g| + j] == t[j];
    assert e[|a| + j] == t[j].(sep := e[|a| + j].sep);
    SepOurs(n, t[j], e[|a| + j].sep);
  }

  lemma BareNotUnenforced(n: Naming, a: seq<Condition>, t: seq<Condition>, k: nat)
    requires !AnyOursExclude(n, a) && k < |a|
    ensures !Unenforced(n, Unled(a + t), k)
  {
    hide Enforced;
    var e := Unled(a + t);
    assert e[k] == a[k].(sep := e[k].sep);
    SepOurs(n, a[k], e[k].sep);
    OursUnlessMine(n, e[k]);
  }

  /** Wherever Plex ignores a clause of ours afterwards, it did so before, behind the first group. */
  lemma UnenforcedBefore(n: Naming, g: seq<Condition>, a: seq<Condition>, t: seq<Condition>, k: nat)
    requires |g| > 0 && (|t| > 0 ==> t[0].sep == '&') && !AnyOursExclude(n, a)
    requires k < |a| + |t| && Unenforced(n, Unled(a + t), k)
    ensures k >= |a| && Unenforced(n, g + t, |g| + (k - |a|))
    ensures var e, d := Unled(a + t), g + t;
            && e[k].values == d[|g| + (k - |a|)].values && (k == 0 || e[k].sep == d[|g| + (k - |a|)].sep)
            && (OursOnly(n, e[k]) <==> OursOnly(n, d[|g| + (k - |a|)]))
  {
    hide Unenforced;
    hide OursOnly;
    if k < |a| {
      BareNotUnenforced(n, a, t, k);
      assert false;
    }
    TailSays(n, g, a, t, k - |a|);
  }

  lemma TargetBehind(g: seq<Condition>, t: seq<Condition>, i: nat)
    requires |g| > 0 && i < |g| + |t| && IsTarget(g + t, i)
    requires (forall k :: 1 <= k < |g| ==> g[k].sep != '&') && (|g| == 1 ==> !IsExclude(g[0]))
    ensures i >= |g|
  {
    var last := |g| - 1;
    assert (g + t)[last] == g[last];
  }

  lemma TargetAfter(n: Naming, g: seq<Condition>, a: seq<Condition>, t: seq<Condition>, l: string)
    requires |g| > 0 && (|t| > 0 ==> t[0].sep == '&') && EnforcesLabel(n, g + t, l)
    requires (forall k :: 1 <= k < |g| ==> g[k].sep != '&') && (|g| == 1 ==> !IsExclude(g[0]))
    ensures EnforcesLabel(n, Unled(a + t), l)
  {
    hide OursOnly;
    hide Unenforced;
    var d, e := g + t, Unled(a + t);
    var i :| 0 <= i < |d| && IsTarget(d, i) && Listed(n, l, d[i].values);
    TargetBehind(g, t, i);
    TailSays(n, g, a, t, i - |g|);
    assert IsTarget(e, |a| + (i - |g|));
  }

  lemma CarriedBefore(n: Naming, g: seq<Condition>, a: seq<Condition>, t: seq<Condition>, l: string)
    requires |g| > 0 && (|t| > 0 ==> t[0].sep == '&') && !AnyOursExclude(n, a)
    requires l in Carried(n, Unled(a + t))
    ensures l in Carried(n, g + t)
  {
    hide Unenforced;
    hide OursOnly;
    var e, d := Unled(a + t), g + t;
    var k := CarriedUpToFrom(n, e, |e|, l);
    UnenforcedBefore(n, g, a, t, k);
    CarriedUpToHas(n, d, |d|, |g| + (k - |a|), l);
  }

  lemma TailLodged(n: Naming, wanted: seq<string>, g: seq<Condition>, a: seq<Condition>, t: seq<Condition>)
    requires |g| > 0 && (|t| > 0 ==> t[0].sep == '&') && !AnyOursExclude(n, a)
    requires (forall k :: 1 <= k < |g| ==> g[k].sep != '&') && (|g| == 1 ==> !IsExclude(g[0]))
    requires Lodged(n, wanted, g + t)
    ensures Lodged(n, wanted, Unled(a + t))
  {
    hide Unenforced;
    hide OursOnly;
    hide EnforcesLabel;
    hide Carried;
    hide AnyOursExclude;
    var e, d := Unled(a + t), g + t;
    forall k | 0 <= k < |e| && Unenforced(n, e, k)
      ensures (k == 0 || e[k].sep == '&') && OursOnly(n, e[k])
    {
      UnenforcedBefore(n, g, a, t, k);
    }
    forall l | l in Carried(n, e) + wanted
      ensures EnforcesLabel(n, e, l)
    {
      if l in Carried(n, e) {
        CarriedBefore(n, g, a, t, l);
      }
      assert l in Carried(n, d) + wanted;
      TargetAfter(n, g, a, t, l);
    }
  }

  // ----- the filter that comes of it -----

  /** The filter once its first group has been seen to. */
  lemma FirstGroupOutcome(n: Naming, own: string, prefix: string, show: bool, cs: seq<Condition>)
    requires OwnLabel(n, own) && Plain(cs) && |cs| > 0 && (show || UnmixedAll(n, own, cs))
    requires RestIdle(n, own, prefix, show, GroupsOf(cs))
    ensures |GroupsOf(cs)[0]| > 0
    ensures ReadBack(AdmitConditions(n, own, prefix, show, cs)) ==
            Unled(AdmitOne(n, own, prefix, show, HouseValueSep(cs), GroupsOf(cs)[0]) + Flatten(GroupsOf(cs)[1..]))
  {
    hide AdmitOne;
    hide RestIdle;
    hide UnmixedAll;
    hide ShownGroups;
    hide HiddenGroups;
    hide Plain;
    var gs := GroupsOf(cs);
    FirstGroupAlone(n, own, prefix, show, cs) by {
      PlainIs(cs);
    }
    PlainIs(cs);
    var a := AdmitOne(n, own, prefix, show, HouseValueSep(cs), gs[0]);
    if |a| > 0 {
      FlattenCons(a, gs[1..]);
    } else {
      assert [] + gs[1..] == gs[1..] && a + Flatten(gs[1..]) == Flatten(gs[1..]);
    }
    AdmittedUnblanked(n, own, prefix, show, cs);
    UnledIsReadBack(AdmitConditions(n, own, prefix, show, cs));
    UnledTwice(a + Flatten(gs[1..]));
  }

  lemma PlainIs(cs: seq<Condition>)
    requires Plain(cs)
    ensures WellFormed(cs) && NoAmpersand(cs)
  {
  }

  lemma UnledTwice(cs: seq<Condition>)
    ensures Unled(Unled(cs)) == Unled(cs)
  {
  }

  /** Where only the first group has something to do, and no clause of ours leads, what is lodged stays lodged; a
      clause of ours leads afterwards only if the first group has gone, and only if Plex ignored it before. */
  lemma FirstAdmitted(n: Naming, own: string, prefix: string, show: bool, wanted: seq<string>, cs: seq<Condition>)
    requires OwnLabel(n, own) && Plain(cs) && (show || UnmixedAll(n, own, cs)) && Lodged(n, wanted, cs)
    requires RestIdle(n, own, prefix, show, GroupsOf(cs)) && !Idle(n, own, prefix, show, cs) && !LeadsVoided(n, cs)
    ensures var es := ReadBack(AdmitConditions(n, own, prefix, show, cs));
            && Lodged(n, wanted, es)
            && (LeadsVoided(n, es) ==> |es| < |cs| && exists k :: 0 <= k < |cs| && Unenforced(n, cs, k))
    ensures |cs| > 0 && |GroupsOf(cs)[0]| > 0
    ensures LeadsVoided(n, ReadBack(AdmitConditions(n, own, prefix, show, cs))) ==>
              AdmitOne(n, own, prefix, show, HouseValueSep(cs), GroupsOf(cs)[0]) == []
  {
    hide AdmitOne;
    hide RestIdle;
    hide UnmixedAll;
    hide AdmitConditions;
    hide Plain;
    hide Idle;
    hide Unenforced;
    hide AnyOursExclude;
    hide Lodged;
    hide Flatten;
    hide GroupsOf;
    LodgedHeaded(n, wanted, cs);
    FirstGroupBare(n, own, prefix, show, cs);
    FirstAndRestAt(cs);
    FirstGroupOutcome(n, own, prefix, show, cs);
    var g, t := GroupsOf(cs)[0], Flatten(GroupsOf(cs)[1..]);
    var a := AdmitOne(n, own, prefix, show, HouseValueSep(cs), g);
    AdmitOneBare(n, own, prefix, show, HouseValueSep(cs), g);
    TailLodged(n, wanted, g, a, t);
    if LeadsVoided(n, Unled(a + t)) {
      UnenforcedBefore(n, g, a, t, 0);
    }
  }

  /** The own row is not hidden by a group that goes altogether. */
  lemma GoneWasAllowed(n: Naming, own: string, prefix: string, wanted: seq<string>, cs: seq<Condition>)
    requires OwnLabel(n, own) && Plain(cs) && Lodged(n, wanted, cs)
    requires RestIdle(n, own, prefix, true, GroupsOf(cs)) && !Idle(n, own, prefix, true, cs) && !LeadsVoided(n, cs)
    requires LeadsVoided(n, ReadBack(AdmitConditions(n, own, prefix, true, cs)))
    ensures OwnRowAllowed(n, own, prefix, cs)
  {
    hide AnyAdmits;
    hide AnyOwnersAllow;
    hide OwnOnly;
    hide AdmitConditions;
    hide Plain;
    hide Lodged;
    hide DropGroup;
    hide AdmitGroup;
    hide LeadsVoided;
    hide Idle;
    FirstAdmitted(n, own, prefix, true, wanted, cs);
    RestIdleFrom(n, own, prefix, true, GroupsOf(cs));
    var g := GroupsOf(cs)[0];
    var d := DropGroup(n, own, g);
    if |d| > 0 {
      SameHeadIfAny(n, own, prefix, HouseValueSep(cs), d);
      assert false;
    }
    DropGroupEmpty(n, own, g);
    OwnAloneOwnsNothing(n, own, g);
    forall q | 0 <= q < |GroupsOf(cs)|
      ensures Allowed(n, own, prefix, GroupsOf(cs)[q])
    {
      assert q > 0 ==> IdleGroup(n, own, prefix, true, GroupsOf(cs)[q]);
    }
  }

  lemma OwnAloneOwnsNothing(n: Naming, own: string, g: seq<Condition>)
    requires OwnAlone(n, own, g)
    ensures !AnyOwnersAllow(n, own, g)
  {
    forall k | 0 <= k < |g|
      ensures !OwnersAllow(n, own, g[k])
    {
      assert OwnOnly(n, own, g[k]);
    }
  }
}
