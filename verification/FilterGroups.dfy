/** The `&`-separated groups of `|`-separated alternatives that a real Plex server reads a filter as. */
module FilterGroups {
  import opened FilterText
  import opened ShareFilter
  import opened FilterSemantics

  function GroupsOf(cs: seq<Condition>): (gs: seq<seq<Condition>>)
    ensures |cs| > 0 ==> |gs| > 0
    ensures |cs| == 0 ==> gs == []
  {
    if |cs| == 0 then []
    else
      var gs := GroupsOf(cs[..|cs| - 1]);
      var c := cs[|cs| - 1];
      if |cs| == 1 || c.sep == '&' then gs + [[c]]
      else gs[..|gs| - 1] + [gs[|gs| - 1] + [c]]
  }

  function Flatten(gs: seq<seq<Condition>>): seq<Condition> {
    if |gs| == 0 then [] else Flatten(gs[..|gs| - 1]) + gs[|gs| - 1]
  }

  /** Inside a group everything is joined by `|`; every group but the first opens with `&`. */
  ghost predicate GroupShape(gs: seq<seq<Condition>>) {
    && (forall q :: 0 <= q < |gs| ==> |gs[q]| > 0)
    && (forall q, k :: 0 <= q < |gs| && 1 <= k < |gs[q]| ==> gs[q][k].sep != '&')
    && (forall q :: 1 <= q < |gs| ==> gs[q][0].sep == '&')
  }

  lemma FlattenSnoc(gs: seq<seq<Condition>>, g: seq<Condition>)
    ensures Flatten(gs + [g]) == Flatten(gs) + g
  {
    assert (gs + [g])[..|gs|] == gs;
  }

  lemma GroupsSnoc(cs: seq<Condition>, c: Condition)
    ensures var gs := GroupsOf(cs);
            GroupsOf(cs + [c]) == if |cs| == 0 || c.sep == '&' then gs + [[c]]
                                  else gs[..|gs| - 1] + [gs[|gs| - 1] + [c]]
  {
    assert (cs + [c])[..|cs|] == cs;
  }

  lemma ShapeAppend(gs: seq<seq<Condition>>, c: Condition)
    requires GroupShape(gs) && (|gs| == 0 || c.sep == '&')
    ensures GroupShape(gs + [[c]])
  {
  }

  lemma ShapeExtend(gs: seq<seq<Condition>>, c: Condition)
    requires GroupShape(gs) && |gs| > 0 && c.sep != '&'
    ensures GroupShape(gs[..|gs| - 1] + [gs[|gs| - 1] + [c]])
  {
    var last := gs[|gs| - 1] + [c];
    assert forall k :: 1 <= k < |last| ==> last[k].sep != '&';
  }

  lemma {:induction false} GroupsShape(cs: seq<Condition>)
    ensures GroupShape(GroupsOf(cs))
  {
    if |cs| > 0 {
      var init, c := cs[..|cs| - 1], cs[|cs| - 1];
      assert cs == init + [c];
      GroupsShape(init);
      GroupsSnoc(init, c);
      if |init| == 0 || c.sep == '&' {
        ShapeAppend(GroupsOf(init), c);
      } else {
        ShapeExtend(GroupsOf(init), c);
      }
    }
  }

  lemma FlattenExtend(gs: seq<seq<Condition>>, c: Condition)
    requires |gs| > 0
    ensures Flatten(gs[..|gs| - 1] + [gs[|gs| - 1] + [c]]) == Flatten(gs) + [c]
  {
    var front, last := gs[..|gs| - 1], gs[|gs| - 1];
    FlattenSnoc(front, last + [c]);
    Assoc(Flatten(front), last, [c]);
  }

  lemma {:induction false} FlattenGroups(cs: seq<Condition>)
    ensures Flatten(GroupsOf(cs)) == cs
  {
    if |cs| > 0 {
      var init, c := cs[..|cs| - 1], cs[|cs| - 1];
      assert cs == init + [c];
      FlattenGroups(init);
      GroupsSnoc(init, c);
      if |init| == 0 || c.sep == '&' {
        FlattenSnoc(GroupsOf(init), [c]);
      } else {
        FlattenExtend(GroupsOf(init), c);
      }
    }
  }

  lemma GroupsMore(cs: seq<Condition>, gs: seq<seq<Condition>>, g: seq<Condition>, c: Condition)
    requires GroupsOf(cs) == gs + [g] && |cs| > 0 && c.sep != '&'
    ensures GroupsOf(cs + [c]) == gs + [g + [c]]
  {
    GroupsSnoc(cs, c);
    assert (gs + [g])[..|gs|] == gs;
  }

  lemma Peel<T>(a: seq<T>, g: seq<T>)
    requires |g| > 0
    ensures g == g[..|g| - 1] + [g[|g| - 1]]
    ensures a + g == a + g[..|g| - 1] + [g[|g| - 1]]
  {
  }

  lemma {:induction false} GroupsOfExtended(cs: seq<Condition>, gs: seq<seq<Condition>>, g: seq<Condition>)
    requires |g| > 0 && GroupsOf(cs) == gs && (|cs| > 0 ==> g[0].sep == '&')
    requires forall k :: 1 <= k < |g| ==> g[k].sep != '&'
    ensures GroupsOf(cs + g) == gs + [g]
    decreases |g|
  {
    var fewer, c := g[..|g| - 1], g[|g| - 1];
    Peel(cs, g);
    if |fewer| == 0 {
      assert cs + fewer == cs && g == [c];
      GroupsSnoc(cs, c);
    } else {
      GroupsOfExtended(cs, gs, fewer);
      GroupsMore(cs + fewer, gs, fewer, c);
    }
  }

  lemma GroupsOfFlattenSnoc(gs: seq<seq<Condition>>, g: seq<Condition>)
    requires GroupsOf(Flatten(gs)) == gs && |g| > 0 && (|gs| > 0 ==> g[0].sep == '&')
    requires forall k :: 1 <= k < |g| ==> g[k].sep != '&'
    ensures GroupsOf(Flatten(gs + [g])) == gs + [g]
  {
    FlattenSnoc(gs, g);
    GroupsOfExtended(Flatten(gs), gs, g);
  }

  lemma {:induction false} GroupsOfFlatten(gs: seq<seq<Condition>>)
    requires GroupShape(gs)
    ensures GroupsOf(Flatten(gs)) == gs
  {
    if |gs| > 0 {
      var init, g := gs[..|gs| - 1], gs[|gs| - 1];
      GroupsOfFlatten(init);
      GroupsOfFlattenSnoc(init, g);
      Peel([], gs);
    }
  }

  // ----- the groups decide the verdict -----

  predicate GroupHolds(n: Naming, g: seq<Condition>, item: Item) {
    exists k :: 0 <= k < |g| && Holds(n, g[k], item)
  }

  predicate AllGroupsHold(n: Naming, gs: seq<seq<Condition>>, item: Item) {
    forall q :: 0 <= q < |gs| ==> GroupHolds(n, gs[q], item)
  }

  lemma GroupHoldsSnoc(n: Naming, g: seq<Condition>, c: Condition, item: Item)
    ensures GroupHolds(n, g + [c], item) <==> GroupHolds(n, g, item) || Holds(n, c, item)
  {
    assert (g + [c])[|g|] == c;
    assert forall k :: 0 <= k < |g| ==> (g + [c])[k] == g[k];
  }

  lemma AllGroupsHoldSnoc(n: Naming, gs: seq<seq<Condition>>, g: seq<Condition>, item: Item)
    ensures AllGroupsHold(n, gs + [g], item) <==> AllGroupsHold(n, gs, item) && GroupHolds(n, g, item)
  {
    assert (gs + [g])[|gs|] == g;
    assert forall q :: 0 <= q < |gs| ==> (gs + [g])[q] == gs[q];
  }

  lemma {:induction false} GroupedProgress(n: Naming, cs: seq<Condition>, item: Item)
    requires |cs| > 0
    ensures var gs, p := GroupsOf(cs), Grouped(Terms(n, cs, item));
            && (p.closed <==> AllGroupsHold(n, gs[..|gs| - 1], item))
            && (p.current <==> GroupHolds(n, gs[|gs| - 1], item))
  {
    var init, c := cs[..|cs| - 1], cs[|cs| - 1];
    assert Terms(n, cs, item)[..|cs| - 1] == Terms(n, init, item);
    assert GroupHolds(n, [c], item) <==> Holds(n, c, item) by {
      assert [c][0] == c;
    }
    if |cs| > 1 {
      GroupedProgress(n, init, item);
      var gs := GroupsOf(init);
      if c.sep == '&' {
        assert gs == gs[..|gs| - 1] + [gs[|gs| - 1]];
        AllGroupsHoldSnoc(n, gs[..|gs| - 1], gs[|gs| - 1], item);
        assert (gs + [[c]])[..|gs|] == gs;
      } else {
        GroupHoldsSnoc(n, gs[|gs| - 1], c, item);
        assert GroupsOf(cs)[..|gs| - 1] == gs[..|gs| - 1];
      }
    }
  }

  /** With `|` binding tighter, a filter shows an item exactly when every group has an alternative that holds. */
  lemma ShowsByGroups(n: Naming, cs: seq<Condition>, item: Item)
    ensures Shows(PipeFirst, n, cs, item) <==> AllGroupsHold(n, GroupsOf(cs), item)
  {
    if |cs| > 0 {
      GroupedProgress(n, cs, item);
      var gs := GroupsOf(cs);
      assert gs == gs[..|gs| - 1] + [gs[|gs| - 1]];
      AllGroupsHoldSnoc(n, gs[..|gs| - 1], gs[|gs| - 1], item);
    }
  }

  lemma {:induction false} FlattenAppend(a: seq<seq<Condition>>, b: seq<seq<Condition>>)
    ensures Flatten(a + b) == Flatten(a) + Flatten(b)
    decreases |b|
  {
    if |b| == 0 {
      assert a + b == a;
    } else {
      var init, g := b[..|b| - 1], b[|b| - 1];
      FlattenAppend(a, init);
      assert a + b == (a + init) + [g];
      FlattenSnoc(a + init, g);
      assert Flatten(a) + (Flatten(init) + g) == Flatten(a) + Flatten(init) + g;
    }
  }

  lemma FlattenCons(g: seq<Condition>, gs: seq<seq<Condition>>)
    ensures Flatten([g] + gs) == g + Flatten(gs)
  {
    FlattenAppend([g], gs);
    FlattenSnoc([], g);
    assert [] + [g] == [g];
  }

  // ----- groups by position -----

  /** The positions one group takes up. */
  datatype Span = Span(lo: nat, hi: nat)

  function Spans(cs: seq<Condition>): (spans: seq<Span>)
    ensures |cs| > 0 ==> |spans| > 0
  {
    if |cs| == 0 then []
    else
      var i := |cs| - 1;
      var spans := Spans(cs[..i]);
      if i == 0 || cs[i].sep == '&' then spans + [Span(i, i + 1)]
      else spans[|spans| - 1 := Span(spans[|spans| - 1].lo, i + 1)]
  }

  method AllowGroups(cs: seq<Condition>) returns (spans: seq<Span>)
    ensures spans == Spans(cs)
  {
    spans := [];
    for i := 0 to |cs|
      invariant spans == Spans(cs[..i])
    {
      assert cs[..i + 1][..i] == cs[..i];
      if i == 0 || cs[i].sep == '&' {
        spans := spans + [Span(i, i + 1)];
      } else {
        spans := spans[|spans| - 1 := Span(spans[|spans| - 1].lo, i + 1)];
      }
    }
    assert cs[..|cs|] == cs;
  }

  /** The spans tile the filter, and each holds its group. */
  ghost predicate Tiles(cs: seq<Condition>, spans: seq<Span>, gs: seq<seq<Condition>>) {
    && |spans| == |gs|
    && (forall q :: 0 <= q < |gs| ==> spans[q].lo < spans[q].hi <= |cs| && cs[spans[q].lo..spans[q].hi] == gs[q])
    && (forall q :: 1 <= q < |gs| ==> spans[q].lo == spans[q - 1].hi)
    && (if |gs| == 0 then |cs| == 0 else spans[0].lo == 0 && spans[|gs| - 1].hi == |cs|)
  }

  lemma TilesAppend(cs: seq<Condition>, c: Condition, spans: seq<Span>, gs: seq<seq<Condition>>)
    requires Tiles(cs, spans, gs)
    ensures Tiles(cs + [c], spans + [Span(|cs|, |cs| + 1)], gs + [[c]])
  {
    forall q | 0 <= q < |gs|
      ensures (cs + [c])[spans[q].lo..spans[q].hi] == gs[q]
    {
      assert (cs + [c])[spans[q].lo..spans[q].hi] == cs[spans[q].lo..spans[q].hi];
    }
    assert (cs + [c])[|cs|..|cs| + 1] == [c];
  }

  lemma TilesExtend(cs: seq<Condition>, c: Condition, spans: seq<Span>, gs: seq<seq<Condition>>)
    requires Tiles(cs, spans, gs) && |gs| > 0
    ensures var last := |gs| - 1;
            Tiles(cs + [c], spans[last := Span(spans[last].lo, |cs| + 1)], gs[..last] + [gs[last] + [c]])
  {
    var last := |gs| - 1;
    forall q | 0 <= q < |gs|
      ensures (cs + [c])[spans[q].lo..spans[q].hi] == gs[q]
    {
      assert (cs + [c])[spans[q].lo..spans[q].hi] == cs[spans[q].lo..spans[q].hi];
    }
    assert (cs + [c])[spans[last].lo..|cs| + 1] == cs[spans[last].lo..|cs|] + [c];
  }

  lemma SpansSnoc(cs: seq<Condition>, c: Condition)
    ensures var spans := Spans(cs);
            Spans(cs + [c]) == if |cs| == 0 || c.sep == '&' then spans + [Span(|cs|, |cs| + 1)]
                               else spans[|spans| - 1 := Span(spans[|spans| - 1].lo, |cs| + 1)]
  {
    assert (cs + [c])[..|cs|] == cs;
  }

  lemma TilesSnoc(cs: seq<Condition>, c: Condition)
    requires Tiles(cs, Spans(cs), GroupsOf(cs))
    ensures Tiles(cs + [c], Spans(cs + [c]), GroupsOf(cs + [c]))
  {
    GroupsSnoc(cs, c);
    SpansSnoc(cs, c);
    if |cs| == 0 || c.sep == '&' {
      TilesAppend(cs, c, Spans(cs), GroupsOf(cs));
    } else {
      TilesExtend(cs, c, Spans(cs), GroupsOf(cs));
    }
  }

  lemma {:induction false} SpansTile(cs: seq<Condition>)
    ensures Tiles(cs, Spans(cs), GroupsOf(cs))
  {
    if |cs| > 0 {
      Peel([], cs);
      SpansTile(cs[..|cs| - 1]);
      TilesSnoc(cs[..|cs| - 1], cs[|cs| - 1]);
    }
  }
}
