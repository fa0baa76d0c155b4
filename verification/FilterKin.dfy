/** Filters grouped alike: clause for clause they say the same, or both hold some `label!=` clause that is a group of
    its own. */
module FilterKin {
  import opened FilterText
  import opened ShareFilter
  import opened FilterSemantics
  import opened FilterGroups

  /** The same but for separators. */
  predicate SameSay(c: Condition, d: Condition) {
    c.field == d.field && c.op == d.op && c.values == d.values
  }

  /** Condition `k` is a group of its own. */
  predicate Alone(cs: seq<Condition>, k: nat)
    requires k < |cs|
  {
    (k == 0 || cs[k].sep == '&') && (k + 1 == |cs| || cs[k + 1].sep == '&')
  }

  predicate Kin(cs: seq<Condition>, ds: seq<Condition>, k: nat)
    requires k < |cs| == |ds|
  {
    && (k > 0 ==> (ds[k].sep == '&' <==> cs[k].sep == '&'))
    && (SameSay(cs[k], ds[k]) || (Alone(cs, k) && IsExclude(cs[k]) && IsExclude(ds[k])))
  }

  ghost predicate Akin(cs: seq<Condition>, ds: seq<Condition>) {
    |cs| == |ds| && forall k :: 0 <= k < |cs| ==> Kin(cs, ds, k)
  }

  predicate LoneExcludes(g: seq<Condition>, h: seq<Condition>) {
    |g| == |h| == 1 && IsExclude(g[0]) && IsExclude(h[0])
  }

  ghost predicate KinGroup(g: seq<Condition>, h: seq<Condition>) {
    LoneExcludes(g, h) || (|g| == |h| && forall k :: 0 <= k < |g| ==> SameSay(g[k], h[k]))
  }

  ghost predicate KinGroups(gs: seq<seq<Condition>>, hs: seq<seq<Condition>>) {
    |gs| == |hs| && forall q :: 0 <= q < |gs| ==> KinGroup(gs[q], hs[q])
  }

  lemma LastOfGroups(cs: seq<Condition>)
    requires |cs| > 0
    ensures var gs := GroupsOf(cs);
            |gs[|gs| - 1]| > 0 && gs[|gs| - 1][|gs[|gs| - 1]| - 1] == cs[|cs| - 1]
  {
  }

  lemma AkinInit(cs: seq<Condition>, ds: seq<Condition>, m: nat)
    requires Akin(cs, ds) && m <= |cs|
    ensures Akin(cs[..m], ds[..m])
  {
    forall k | 0 <= k < m
      ensures Kin(cs[..m], ds[..m], k)
    {
      assert Kin(cs, ds, k);
    }
  }

  lemma KinSnoc(g: seq<Condition>, h: seq<Condition>, c: Condition, d: Condition)
    requires KinGroup(g, h) && SameSay(c, d) && (LoneExcludes(g, h) ==> SameSay(g[0], h[0]))
    ensures KinGroup(g + [c], h + [d])
  {
  }

  lemma KinJoins(gs: seq<seq<Condition>>, hs: seq<seq<Condition>>, c: Condition, d: Condition)
    requires KinGroups(gs, hs) && |gs| > 0 && KinGroup(gs[|gs| - 1] + [c], hs[|hs| - 1] + [d])
    ensures KinGroups(gs[..|gs| - 1] + [gs[|gs| - 1] + [c]], hs[..|hs| - 1] + [hs[|hs| - 1] + [d]])
  {
  }

  /** What the last conditions of kin filters have in common. */
  lemma KinLast(cs: seq<Condition>, ds: seq<Condition>, c: Condition, d: Condition)
    requires Akin(cs + [c], ds + [d]) && |cs| == |ds|
    ensures |cs| > 0 ==> (d.sep == '&' <==> c.sep == '&')
    ensures SameSay(c, d) || (IsExclude(c) && IsExclude(d))
    ensures |cs| > 0 && c.sep != '&' ==> SameSay(c, d) && SameSay(cs[|cs| - 1], ds[|cs| - 1])
  {
    hide SameSay;
    var m, all, also := |cs|, cs + [c], ds + [d];
    assert Kin(all, also, m) && all[m] == c && also[m] == d;
    if m > 0 {
      assert Kin(all, also, m - 1) && all[m - 1] == cs[m - 1] && also[m - 1] == ds[m - 1];
    }
  }

  lemma KinGrows(gs: seq<seq<Condition>>, hs: seq<seq<Condition>>, c: Condition, d: Condition)
    requires KinGroups(gs, hs) && |gs| > 0 && |gs[|gs| - 1]| > 0 && |hs[|hs| - 1]| > 0 && SameSay(c, d)
    requires SameSay(gs[|gs| - 1][|gs[|gs| - 1]| - 1], hs[|hs| - 1][|hs[|hs| - 1]| - 1])
    ensures KinGroups(gs[..|gs| - 1] + [gs[|gs| - 1] + [c]], hs[..|hs| - 1] + [hs[|hs| - 1] + [d]])
  {
    hide KinGroup;
    hide SameSay;
    KinSnoc(gs[|gs| - 1], hs[|hs| - 1], c, d);
    KinJoins(gs, hs, c, d);
  }

  lemma GroupOpened(cs: seq<Condition>, c: Condition)
    requires |cs| == 0 || c.sep == '&'
    ensures GroupsOf(cs + [c]) == GroupsOf(cs) + [[c]]
  {
    hide GroupsOf;
    GroupsSnoc(cs, c);
  }

  lemma GroupJoined(cs: seq<Condition>, c: Condition)
    requires |cs| > 0 && c.sep != '&'
    ensures var gs := GroupsOf(cs);
            GroupsOf(cs + [c]) == gs[..|gs| - 1] + [gs[|gs| - 1] + [c]]
  {
    hide GroupsOf;
    GroupsSnoc(cs, c);
  }

  lemma AkinJoins(cs: seq<Condition>, ds: seq<Condition>, c: Condition, d: Condition)
    requires |cs| == |ds| > 0 && c.sep != '&' && d.sep != '&' && KinGroups(GroupsOf(cs), GroupsOf(ds))
    requires SameSay(c, d) && SameSay(cs[|cs| - 1], ds[|ds| - 1])
    ensures KinGroups(GroupsOf(cs + [c]), GroupsOf(ds + [d]))
  {
    hide *;
    GroupJoined(cs, c);
    GroupJoined(ds, d);
    LastOfGroups(cs);
    LastOfGroups(ds);
    KinGrows(GroupsOf(cs), GroupsOf(ds), c, d);
  }

  /** One more condition on either side. */
  lemma AkinSnoc(cs: seq<Condition>, ds: seq<Condition>, c: Condition, d: Condition)
    requires Akin(cs + [c], ds + [d]) && |cs| == |ds| && KinGroups(GroupsOf(cs), GroupsOf(ds))
    ensures KinGroups(GroupsOf(cs + [c]), GroupsOf(ds + [d]))
  {
    hide *;
    KinLast(cs, ds, c, d);
    if |cs| == 0 || c.sep == '&' {
      GroupOpened(cs, c);
      GroupOpened(ds, d);
      KinAlone(c, d);
      KinOpens(GroupsOf(cs), GroupsOf(ds), c, d);
    } else {
      AkinJoins(cs, ds, c, d);
    }
  }

  lemma KinOpens(gs: seq<seq<Condition>>, hs: seq<seq<Condition>>, c: Condition, d: Condition)
    requires KinGroups(gs, hs) && KinGroup([c], [d])
    ensures KinGroups(gs + [[c]], hs + [[d]])
  {
    hide KinGroup;
  }

  lemma {:induction false} AkinGroups(cs: seq<Condition>, ds: seq<Condition>)
    requires Akin(cs, ds)
    ensures KinGroups(GroupsOf(cs), GroupsOf(ds))
    decreases |cs|
  {
    hide Kin;
    hide KinGroups;
    if |cs| > 0 {
      hide GroupsOf;
      var m := |cs| - 1;
      SplitLast(cs);
      SplitLast(ds);
      AkinInit(cs, ds, m);
      AkinGroups(cs[..m], ds[..m]);
      AkinSnoc(cs[..m], ds[..m], cs[m], ds[m]);
    } else {
      NoKin();
    }
  }

  lemma NoKin()
    ensures KinGroups(GroupsOf([]), GroupsOf([]))
  {
  }

  lemma KinAlone(c: Condition, d: Condition)
    requires SameSay(c, d) || (IsExclude(c) && IsExclude(d))
    ensures KinGroup([c], [d])
  {
  }

  // ----- the first group, and the rest -----

  lemma FirstGrows(c: Condition, gs: seq<seq<Condition>>, d: Condition)
    requires |gs| > 0
    ensures var all, more := [[c] + gs[0]] + gs[1..], gs[..|gs| - 1] + [gs[|gs| - 1] + [d]];
            all[..|all| - 1] + [all[|all| - 1] + [d]] == [[c] + more[0]] + more[1..]
  {
    if |gs| == 1 {
      assert [c] + gs[0] + [d] == [c] + (gs[0] + [d]);
    }
  }

  /** A clause joined by `|` to the filter behind it is one more member of that filter's first group. */
  lemma {:induction false} GroupsJoin(c: Condition, t: seq<Condition>)
    requires |t| > 0 && t[0].sep != '&'
    ensures GroupsOf([c] + t) == [[c] + GroupsOf(t)[0]] + GroupsOf(t)[1..]
    decreases |t|
  {
    hide GroupsOf;
    var init, d := t[..|t| - 1], t[|t| - 1];
    SplitLast(t);
    if |init| == 0 {
      GroupsSnoc([], c);
      GroupsSnoc([c], d);
      GroupsSnoc([], d);
      assert [] + [c] == [c] && [] + [d] == [d] == t;
      assert [[c]][..0] + [[[c]][0] + [d]] == [[c] + [d]] + [[d]][1..];
    } else {
      GroupsJoin(c, init);
      JoinSnoc(c, init, d);
    }
  }

  lemma JoinSnoc(c: Condition, init: seq<Condition>, d: Condition)
    requires |init| > 0 && GroupsOf([c] + init) == [[c] + GroupsOf(init)[0]] + GroupsOf(init)[1..]
    ensures GroupsOf([c] + (init + [d])) == [[c] + GroupsOf(init + [d])[0]] + GroupsOf(init + [d])[1..]
  {
    hide GroupsOf;
    var gs := GroupsOf(init);
    Assoc([c], init, [d]);
    GroupsSnoc([c] + init, d);
    GroupsSnoc(init, d);
    if d.sep == '&' {
      Assoc([[c] + gs[0]], gs[1..], [[d]]);
      assert (gs + [[d]])[1..] == gs[1..] + [[d]];
    } else {
      FirstGrows(c, gs, d);
    }
  }

  lemma NothingFlat()
    ensures Flatten([]) == []
  {
  }

  /** The first group and what is behind it. */
  lemma FirstAndRest(cs: seq<Condition>)
    requires |cs| > 0
    ensures var gs := GroupsOf(cs);
            && GroupShape(gs) && |gs[0]| > 0 && cs == gs[0] + Flatten(gs[1..])
            && (|Flatten(gs[1..])| > 0 ==> Flatten(gs[1..])[0].sep == '&')
  {
    var gs := GroupsOf(cs);
    GroupsShape(cs);
    FlattenGroups(cs);
    hide GroupsOf;
    hide Flatten;
    assert gs == [gs[0]] + gs[1..];
    FlattenCons(gs[0], gs[1..]);
    if |gs| > 1 {
      assert gs[1..] == [gs[1]] + gs[2..];
      FlattenCons(gs[1], gs[2..]);
    } else {
      assert gs[1..] == [];
      NothingFlat();
    }
  }
}
