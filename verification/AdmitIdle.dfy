/** Filters that letting the own row in, or taking it out, leaves as they are. */
module AdmitIdle {
  import opened Options
  import opened FilterText
  import opened ShareFilter
  import opened FilterSemantics
  import opened FilterGroups
  import opened FilterMerge
  import opened MergeTheorems
  import opened FilterAllow
  import opened AllowTheorems

  /** A group with nothing to do. To let the row in, it has no clause naming only the row that could go, and lets the
      row through wherever the owner allows only some items; to take it out, each `label=` clause names only others, or
      is held back by an exclude of ours. */
  ghost predicate IdleGroup(n: Naming, own: string, prefix: string, show: bool, g: seq<Condition>) {
    if show then
      && (AnyOwnersAllow(n, own, g) || AnyOursExclude(n, g) || forall k :: 0 <= k < |g| ==> !OwnOnly(n, own, g[k]))
      && (AnyOwnersAllow(n, own, g) ==> AnyAdmits(n, g, [own, prefix]))
    else
      forall k :: 0 <= k < |g| && IsLabelAllow(g[k]) ==>
        NamesOthers(n, own, g[k]) || (AllMine(n, own, g[k]) && AnyOursExclude(n, g))
  }

  ghost predicate IdleGroups(n: Naming, own: string, prefix: string, show: bool, gs: seq<seq<Condition>>) {
    forall q :: 0 <= q < |gs| ==> IdleGroup(n, own, prefix, show, gs[q])
  }

  ghost predicate Idle(n: Naming, own: string, prefix: string, show: bool, cs: seq<Condition>) {
    IdleGroups(n, own, prefix, show, GroupsOf(cs))
  }

  // ----- such filters are left alone -----

  lemma DropIdle(n: Naming, own: string, prefix: string, g: seq<Condition>)
    requires |g| > 0 && IdleGroup(n, own, prefix, true, g)
    ensures DropGroup(n, own, g) == g
  {
    if !AnyOwnersAllow(n, own, g) {
      SpareAll(n, own, AnyOursExclude(n, g), g);
      assert Refit(g, g[0].sep) == g;
    }
  }

  lemma {:induction false} DropGroupsIdle(n: Naming, own: string, prefix: string, gs: seq<seq<Condition>>)
    requires IdleGroups(n, own, prefix, true, gs) && forall q :: 0 <= q < |gs| ==> |gs[q]| > 0
    ensures DropGroups(n, own, gs) == gs
    decreases |gs|
  {
    hide IdleGroup;
    hide DropGroup;
    if |gs| > 0 {
      DropIdle(n, own, prefix, gs[0]);
      DropGroupsIdle(n, own, prefix, gs[1..]);
      assert gs == [gs[0]] + gs[1..];
    }
  }

  lemma AdmitGroupsIdle(n: Naming, own: string, prefix: string, valueSep: string, gs: seq<seq<Condition>>)
    requires IdleGroups(n, own, prefix, true, gs)
    ensures AdmitGroups(n, own, prefix, valueSep, gs) == gs
  {
  }

  lemma HideIdle(n: Naming, own: string, prefix: string, g: seq<Condition>)
    requires GoodGroup(g) && IdleGroup(n, own, prefix, false, g)
    ensures HideGroup(n, own, g) == g
  {
    hide NamesOthers;
    hide AllMine;
    hide AnyOursExclude;
    hide Clean;
    var edits := HideEdits(n, own, g);
    forall k | 0 <= k < |g|
      ensures edits[k] == Some(g[k])
    {
      HideEditMine(n, own, g[k]);
      if NamesOthers(n, own, g[k]) {
        HideEditOthers(n, own, g[k]);
      }
    }
    CollectAll(g, edits);
    assert Refit(g, g[0].sep) == g;
  }

  lemma HideGroupsIdle(n: Naming, own: string, prefix: string, gs: seq<seq<Condition>>)
    requires IdleGroups(n, own, prefix, false, gs) && forall q :: 0 <= q < |gs| ==> |gs[q]| > 0 && GoodGroup(gs[q])
    ensures HideGroups(n, own, gs) == gs
  {
    hide IdleGroup;
    hide HideGroup;
    hide GoodGroup;
    forall q | 0 <= q < |gs|
      ensures HidesTo(n, own, gs[q], gs[q])
    {
      HideIdle(n, own, prefix, gs[q]);
    }
    HideGroupsPointwise(n, own, gs, gs);
  }

  lemma UnledSame(cs: seq<Condition>)
    requires |cs| > 0 ==> cs[0].sep == '|'
    ensures Unled(cs) == cs
  {
    if |cs| > 0 {
      assert cs[0].(sep := '|') == cs[0];
    }
  }

  lemma IdleAdmits(n: Naming, own: string, prefix: string, show: bool, cs: seq<Condition>)
    requires WellFormed(cs) && NoAmpersand(cs) && Idle(n, own, prefix, show, cs)
    ensures AdmitConditions(n, own, prefix, show, cs) == cs
  {
    hide IdleGroup;
    hide GoodGroup;
    hide HouseValueSep;
    var gs := GroupsOf(cs);
    GroupsShape(cs);
    FlattenGroups(cs);
    GoodGroupsOf(cs);
    UnledSame(cs);
    if show {
      DropGroupsIdle(n, own, prefix, gs);
      AdmitGroupsIdle(n, own, prefix, HouseValueSep(cs), gs);
    } else {
      HideGroupsIdle(n, own, prefix, gs);
    }
  }

  /** So the text itself is left alone. */
  lemma IdleText(n: Naming, raw: string, own: string, prefix: string, show: bool)
    requires ParseFilter(raw).Ok? && !LiteralAmpersand(ParseFilter(raw).value)
    requires Idle(n, own, prefix, show, ParseFilter(raw).value)
    ensures Admit(n, raw, own, prefix, show) == Ok(raw)
  {
    hide AdmitConditions;
    hide Idle;
    ParseRoundTrip(raw);
    NoLiteralAmpersand(ParseFilter(raw).value);
    IdleAdmits(n, own, prefix, show, ParseFilter(raw).value);
  }

  // ----- which filters are -----

  /** A filter of excludes alone has nothing to do. */
  lemma ExcludesIdle(n: Naming, own: string, prefix: string, show: bool, cs: seq<Condition>)
    requires forall i :: 0 <= i < |cs| ==> cs[i].op == IsNot
    ensures Idle(n, own, prefix, show, cs)
  {
    var gs := GroupsOf(cs);
    FlattenGroups(cs);
    forall q | 0 <= q < |gs|
      ensures IdleGroup(n, own, prefix, show, gs[q])
    {
      forall k | 0 <= k < |gs[q]|
        ensures gs[q][k].op == IsNot
      {
        FlattenHolds(gs, q, k);
      }
    }
  }

  lemma IdleUnledGroup(n: Naming, own: string, prefix: string, show: bool, g: seq<Condition>)
    ensures IdleGroup(n, own, prefix, show, Unled(g)) <==> IdleGroup(n, own, prefix, show, g)
  {
    var u := Unled(g);
    UnledSaysSame(n, own, g, [own, prefix], map[]);
    forall k | 0 <= k < |g|
      ensures OwnOnly(n, own, u[k]) <==> OwnOnly(n, own, g[k])
      ensures IsLabelAllow(u[k]) <==> IsLabelAllow(g[k])
      ensures NamesOthers(n, own, u[k]) <==> NamesOthers(n, own, g[k])
      ensures AllMine(n, own, u[k]) <==> AllMine(n, own, g[k])
    {
      assert u[k] == if k == 0 then g[0].(sep := '|') else g[k];
    }
  }

  /** What would join the first condition to one before it has no say. */
  lemma IdleUnled(n: Naming, own: string, prefix: string, show: bool, cs: seq<Condition>)
    requires Idle(n, own, prefix, show, cs)
    ensures Idle(n, own, prefix, show, Unled(cs))
  {
    hide IdleGroup;
    GroupsOfUnled(cs);
    if |cs| > 0 {
      IdleUnledGroup(n, own, prefix, show, GroupsOf(cs)[0]);
    }
  }

  lemma {:induction false} GroupsCons(c: Condition, t: seq<Condition>)
    requires |t| > 0 ==> t[0].sep == '&'
    ensures GroupsOf([c] + t) == [[c]] + GroupsOf(t)
    decreases |t|
  {
    if |t| == 0 {
      assert [c] + t == [c] && [c][..0] == [] && [[c]] + [] == [[c]];
    } else {
      var init, d := t[..|t| - 1], t[|t| - 1];
      SplitLast(t);
      Assoc([c], init, [d]);
      GroupsCons(c, init);
      GroupsSnoc([c] + init, d);
      GroupsSnoc(init, d);
      if |init| > 0 && d.sep != '&' {
        LastGrows([c], GroupsOf(init), d);
      } else {
        Assoc([[c]], GroupsOf(init), [[d]]);
      }
    }
  }

  lemma LastGrows(g: seq<Condition>, gs: seq<seq<Condition>>, d: Condition)
    requires |gs| > 0
    ensures var all := [g] + gs;
            all[..|all| - 1] + [all[|all| - 1] + [d]] == [g] + (gs[..|gs| - 1] + [gs[|gs| - 1] + [d]])
  {
  }

  /** A clause that is a group of its own may go from the front. */
  lemma IdleTail(n: Naming, own: string, prefix: string, show: bool, cs: seq<Condition>)
    requires |cs| > 0 && (|cs| > 1 ==> cs[1].sep == '&') && Idle(n, own, prefix, show, cs)
    ensures Idle(n, own, prefix, show, cs[1..])
  {
    hide IdleGroup;
    assert cs == [cs[0]] + cs[1..];
    GroupsCons(cs[0], cs[1..]);
    var gs := GroupsOf(cs[1..]);
    forall q | 0 <= q < |gs|
      ensures IdleGroup(n, own, prefix, show, gs[q])
    {
      assert GroupsOf(cs)[q + 1] == gs[q];
    }
  }
}
