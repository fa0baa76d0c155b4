/** The loops that admit the own row and take it back out, each against the group-by-group account of its result. */
module AllowMethods {
  import opened Options
  import opened ShareFilter
  import opened FilterSemantics
  import opened FilterEdits
  import opened FilterGroups
  import opened FilterMerge
  import opened MergeTheorems
  import opened FilterAllow
  import opened AllowTheorems

  // ----- one group between what precedes and what follows -----

  /** `h` is a group standing between `front` and `tail`. */
  ghost predicate Stands(front: seq<Condition>, h: seq<Condition>, tail: seq<Condition>) {
    && |h| > 0
    && (|front| > 0 ==> h[0].sep == '&')
    && (forall k :: 1 <= k < |h| ==> h[k].sep == '|')
    && (|tail| > 0 ==> tail[0].sep == '&')
  }

  lemma UnledAt(cs: seq<Condition>, ds: seq<Condition>, i: nat)
    requires Unled(cs) == Unled(ds) && i < |cs|
    ensures |cs| == |ds| && ds[i] == cs[i].(sep := ds[i].sep) && (i > 0 ==> ds[i] == cs[i])
  {
    assert Unled(cs)[i] == Unled(ds)[i];
  }

  lemma DropAt(cs: seq<Condition>, i: nat, k: nat)
    requires i < |cs| && k < |cs| - 1
    ensures |DropCondition(cs, i)| == |cs| - 1
    ensures DropCondition(cs, i)[k] ==
            if k < i then cs[k]
            else if k == i && 0 < i then
              cs[k + 1].(sep := if cs[i].sep == '&' || cs[k + 1].sep == '&' then '&' else '|')
            else cs[k + 1]
  {
  }

  lemma UnledEqual(cs: seq<Condition>, ds: seq<Condition>)
    requires |cs| == |ds|
    requires forall k :: 1 <= k < |cs| ==> cs[k] == ds[k]
    requires |cs| > 0 ==> cs[0].(sep := '|') == ds[0].(sep := '|')
    ensures Unled(cs) == Unled(ds)
  {
  }

  lemma UnledDrop(cs: seq<Condition>, ds: seq<Condition>, i: nat)
    requires Unled(cs) == Unled(ds) && i < |cs|
    ensures |cs| == |ds| && Unled(DropCondition(cs, i)) == Unled(DropCondition(ds, i))
  {
    var a, b := DropCondition(cs, i), DropCondition(ds, i);
    UnledAt(cs, ds, i);
    forall k | 0 <= k < |cs| - 1
      ensures k > 0 ==> a[k] == b[k]
      ensures a[k].(sep := '|') == b[k].(sep := '|')
    {
      UnledAt(cs, ds, k);
      UnledAt(cs, ds, k + 1);
      DropAt(cs, i, k);
      DropAt(ds, i, k);
    }
    UnledEqual(a, b);
  }

  lemma WithoutMember(front: seq<Condition>, h: seq<Condition>, k: nat, tail: seq<Condition>)
    requires k < |h|
    ensures var cs, i := front + h + tail, |front| + k;
            && cs[i] == h[k]
            && cs[..i] + cs[i + 1..] == front + (h[..k] + h[k + 1..]) + tail
            && (i + 1 < |cs| ==> cs[i + 1] == if k + 1 < |h| then h[k + 1] else tail[0])
  {
  }

  lemma DropLater(front: seq<Condition>, h: seq<Condition>, k: nat, tail: seq<Condition>)
    requires Stands(front, h, tail) && 0 < k < |h|
    ensures DropCondition(front + h + tail, |front| + k) == front + (h[..k] + h[k + 1..]) + tail
    ensures Refit(h[..k] + h[k + 1..], h[0].sep) == h[..k] + h[k + 1..]
  {
    WithoutMember(front, h, k, tail);
    var rest := front + (h[..k] + h[k + 1..]) + tail;
    var i := |front| + k;
    if i < |rest| {
      assert rest[i] == if k + 1 < |h| then h[k + 1] else tail[0];
    }
  }

  lemma DropFirst(h: seq<Condition>, tail: seq<Condition>)
    requires |h| > 0
    ensures Unled(DropCondition(h + tail, 0)) == Unled(Refit(h[1..], h[0].sep) + tail)
  {
    var rest := h[1..] + tail;
    assert (h + tail)[..0] + (h + tail)[1..] == rest;
    var b := Refit(h[1..], h[0].sep) + tail;
    assert forall k :: 1 <= k < |rest| ==> b[k] == rest[k];
    assert |rest| > 0 ==> b[0].(sep := '|') == rest[0].(sep := '|');
  }

  lemma DropHead(front: seq<Condition>, h: seq<Condition>, tail: seq<Condition>)
    requires Stands(front, h, tail)
    ensures Unled(DropCondition(front + h + tail, |front|)) == Unled(front + Refit(h[1..], h[0].sep) + tail)
  {
    if |front| == 0 {
      assert front + h + tail == h + tail;
      assert front + Refit(h[1..], h[0].sep) + tail == Refit(h[1..], h[0].sep) + tail;
      DropFirst(h, tail);
    } else {
      DropHeadLater(front, h, tail);
    }
  }

  lemma At(front: seq<Condition>, h: seq<Condition>, tail: seq<Condition>, k: nat)
    requires k < |front| + |h| + |tail|
    ensures (front + h + tail)[k] == if k < |front| then front[k] else if k < |front| + |h| then h[k - |front|]
                                     else tail[k - |front| - |h|]
  {
  }

  lemma DropHeadLater(front: seq<Condition>, h: seq<Condition>, tail: seq<Condition>)
    requires Stands(front, h, tail) && |front| > 0
    ensures DropCondition(front + h + tail, |front|) == front + Refit(h[1..], '&') + tail
  {
    var cs, i := front + h + tail, |front|;
    var a, b := DropCondition(cs, i), front + Refit(h[1..], '&') + tail;
    At(front, h, tail, i);
    forall k | 0 <= k < |cs| - 1
      ensures a[k] == b[k]
    {
      DropAt(cs, i, k);
      At(front, h, tail, k);
      At(front, h, tail, k + 1);
      At(front, Refit(h[1..], '&'), tail, k);
    }
  }

  lemma DropInGroup(front: seq<Condition>, h: seq<Condition>, k: nat, tail: seq<Condition>)
    requires Stands(front, h, tail) && k < |h|
    ensures Unled(DropCondition(front + h + tail, |front| + k)) ==
            Unled(front + Refit(h[..k] + h[k + 1..], h[0].sep) + tail)
  {
    if k == 0 {
      DropHead(front, h, tail);
      assert h[..0] + h[1..] == h[1..];
    } else {
      DropLater(front, h, k, tail);
    }
  }

  lemma {:induction false} GroupLoStands(cs: seq<Condition>, front: seq<Condition>, h: seq<Condition>,
                                         tail: seq<Condition>, k: nat)
    requires Stands(front, h, tail) && Unled(cs) == Unled(front + h + tail) && k < |h|
    ensures |front| + k < |cs| && GroupLo(cs, |front| + k) == |front|
    decreases k
  {
    UnledAt(front + h + tail, cs, |front| + k);
    if k > 0 {
      GroupLoStands(cs, front, h, tail, k - 1);
    }
  }

  lemma {:induction false} GroupHiStands(cs: seq<Condition>, front: seq<Condition>, h: seq<Condition>,
                                         tail: seq<Condition>, k: nat)
    requires Stands(front, h, tail) && Unled(cs) == Unled(front + h + tail) && k < |h|
    ensures |front| + k < |cs| && GroupHi(cs, |front| + k) == |front| + |h|
    decreases |h| - k
  {
    if |front| + k + 1 < |cs| {
      UnledAt(front + h + tail, cs, |front| + k + 1);
      if k + 1 < |h| {
        GroupHiStands(cs, front, h, tail, k + 1);
      }
    }
  }

  lemma UnledExclude(n: Naming, cs: seq<Condition>, ds: seq<Condition>)
    requires |cs| == |ds| && forall k :: 0 <= k < |cs| ==> cs[k].(sep := '|') == ds[k].(sep := '|')
    ensures AnyOursExclude(n, cs) <==> AnyOursExclude(n, ds)
  {
    forall k | 0 <= k < |cs|
      ensures OursExclude(n, cs[k]) <==> OursExclude(n, ds[k])
    {
      assert cs[k].values == cs[k].(sep := '|').values && cs[k].field == cs[k].(sep := '|').field;
      assert ds[k].values == ds[k].(sep := '|').values && ds[k].field == ds[k].(sep := '|').field;
    }
  }

  lemma RepairPendingStands(n: Naming, cs: seq<Condition>, front: seq<Condition>, h: seq<Condition>,
                            tail: seq<Condition>, k: nat)
    requires Stands(front, h, tail) && Unled(cs) == Unled(front + h + tail) && k < |h|
    ensures |front| + k < |cs|
    ensures RepairPending(n, cs, |front| + k) <==> |h| > 1 && AnyOursExclude(n, h)
  {
    GroupLoStands(cs, front, h, tail, k);
    GroupHiStands(cs, front, h, tail, k);
    var g := cs[|front|..|front| + |h|];
    forall m | 0 <= m < |h|
      ensures g[m].(sep := '|') == h[m].(sep := '|')
    {
      UnledAt(front + h + tail, cs, |front| + m);
    }
    UnledExclude(n, g, h);
  }

  // ----- dropping clauses that allow only the own row -----

  /** A group whose members from `k` on have been looked at. */
  function PartSpared(n: Naming, own: string, g: seq<Condition>, k: nat): seq<Condition>
    requires |g| > 0 && k <= |g|
  {
    Refit(g[..k] + Spare(n, own, AnyOursExclude(n, g), g[k..]), g[0].sep)
  }

  lemma {:induction false} SpareExclude(n: Naming, own: string, pending: bool, g: seq<Condition>)
    ensures AnyOursExclude(n, Spare(n, own, pending, g)) <==> AnyOursExclude(n, g)
    decreases |g|
  {
    if |g| > 0 {
      SpareExclude(n, own, pending, g[1..]);
      var h := Spare(n, own, pending, g[1..]);
      ExcludeConcat(n, [g[0]], g[1..]);
      ExcludeConcat(n, [g[0]], h);
      assert g == [g[0]] + g[1..];
      assert AnyOursExclude(n, [g[0]]) <==> OursExclude(n, g[0]) by {
        assert [g[0]][0] == g[0];
      }
      if OwnOnly(n, own, g[0]) && !pending {
        assert Spare(n, own, pending, g) == h;
      }
    }
  }

  lemma ExcludeConcat(n: Naming, a: seq<Condition>, b: seq<Condition>)
    ensures AnyOursExclude(n, a + b) <==> AnyOursExclude(n, a) || AnyOursExclude(n, b)
  {
    var all := a + b;
    assert forall k :: 0 <= k < |a| ==> all[k] == a[k];
    assert forall k :: 0 <= k < |b| ==> all[|a| + k] == b[k];
    if AnyOursExclude(n, all) {
      var k :| 0 <= k < |all| && OursExclude(n, all[k]);
      assert k >= |a| ==> b[k - |a|] == all[k];
    }
  }

  lemma PartSparedShape(n: Naming, own: string, g: seq<Condition>, k: nat)
    requires 0 < k <= |g| && forall m :: 1 <= m < |g| ==> g[m].sep == '|'
    ensures var h := PartSpared(n, own, g, k);
            && |h| >= k && h[..k] == g[..k] && h[k..] == Spare(n, own, AnyOursExclude(n, g), g[k..])
            && (forall m :: 1 <= m < |h| ==> h[m].sep == '|')
            && (AnyOursExclude(n, h) <==> AnyOursExclude(n, g))
            && (AnyOursExclude(n, g) ==> h == g)
  {
    var pending := AnyOursExclude(n, g);
    var rest := Spare(n, own, pending, g[k..]);
    var h := PartSpared(n, own, g, k);
    assert h == g[..k] + rest;
    SpareSeps(n, own, pending, g[k..]);
    SpareExclude(n, own, pending, g[k..]);
    ExcludeConcat(n, g[..k], g[k..]);
    ExcludeConcat(n, g[..k], rest);
    assert g == g[..k] + g[k..];
    if pending {
      SparePending(n, own, g[k..]);
    }
  }

  lemma {:induction false} SpareSeps(n: Naming, own: string, pending: bool, g: seq<Condition>)
    requires forall m :: 0 <= m < |g| ==> g[m].sep == '|'
    ensures forall m :: 0 <= m < |Spare(n, own, pending, g)| ==> Spare(n, own, pending, g)[m].sep == '|'
    decreases |g|
  {
    if |g| > 0 {
      SpareSeps(n, own, pending, g[1..]);
    }
  }

  lemma {:induction false} SparePending(n: Naming, own: string, g: seq<Condition>)
    ensures Spare(n, own, true, g) == g
    decreases |g|
  {
    if |g| > 0 {
      SparePending(n, own, g[1..]);
      assert g == [g[0]] + g[1..];
    }
  }

  lemma SpareFrom(n: Naming, own: string, pending: bool, g: seq<Condition>, k: nat)
    requires k < |g|
    ensures Spare(n, own, pending, g[k..]) ==
            (if OwnOnly(n, own, g[k]) && !pending then [] else [g[k]]) + Spare(n, own, pending, g[k + 1..])
  {
    assert g[k..][1..] == g[k + 1..] && g[k..][0] == g[k];
  }

  lemma PartSparedIs(n: Naming, own: string, g: seq<Condition>, k: nat)
    requires 0 < k <= |g|
    ensures PartSpared(n, own, g, k) == g[..k] + Spare(n, own, AnyOursExclude(n, g), g[k..])
  {
  }

  lemma SliceOut(a: seq<Condition>, c: Condition, b: seq<Condition>)
    ensures var h := a + [c] + b;
            h[..|a|] + h[|a| + 1..] == a + b && h[|a|] == c && h == a + ([c] + b)
  {
  }

  lemma PartSparedNext(n: Naming, own: string, g: seq<Condition>, k: nat)
    requires k < |g| && forall m :: 1 <= m < |g| ==> g[m].sep == '|'
    ensures var h, pending := PartSpared(n, own, g, k + 1), AnyOursExclude(n, g);
            && |h| > k && h[k] == g[k] && h[0] == g[0]
            && PartSpared(n, own, g, k) ==
               if OwnOnly(n, own, g[k]) && !pending then Refit(h[..k] + h[k + 1..], g[0].sep) else h
  {
    var pending := AnyOursExclude(n, g);
    var rest := Spare(n, own, pending, g[k + 1..]);
    PartSparedIs(n, own, g, k + 1);
    assert g[..k + 1] == g[..k] + [g[k]];
    SliceOut(g[..k], g[k], rest);
    SpareFrom(n, own, pending, g, k);
    assert [] + rest == rest;
  }

  ghost predicate Holding(cs: seq<Condition>, front: seq<Condition>, h: seq<Condition>, tail: seq<Condition>) {
    Unled(cs) == Unled(front + h + tail)
  }

  /** Looking at one member of a group: it goes if it names only the own row and no repair is pending. */
  function VisitOwn(n: Naming, own: string, cs: seq<Condition>, j: nat): seq<Condition>
    requires j < |cs|
  {
    if OwnOnly(n, own, cs[j]) && !RepairPending(n, cs, j) then DropCondition(cs, j) else cs
  }

  lemma VisitStep(n: Naming, own: string, front: seq<Condition>, g: seq<Condition>, j: nat, tail: seq<Condition>,
                  cs: seq<Condition>)
    requires Stands(front, g, tail) && |front| <= j < |front| + |g|
    requires Holding(cs, front, PartSpared(n, own, g, j + 1 - |front|), tail)
    ensures j < |cs|
    ensures Holding(VisitOwn(n, own, cs, j), front, PartSpared(n, own, g, j - |front|), tail)
  {
    hide VisitOwn;
    hide Holding;
    var k := j - |front|;
    PartSparedShape(n, own, g, k + 1);
    PartSparedNext(n, own, g, k);
    VisitHolding(n, own, cs, front, PartSpared(n, own, g, k + 1), tail, k, AnyOursExclude(n, g));
  }

  lemma VisitHolding(n: Naming, own: string, cs: seq<Condition>, front: seq<Condition>, h: seq<Condition>,
                     tail: seq<Condition>, k: nat, pending: bool)
    requires Stands(front, h, tail) && Holding(cs, front, h, tail) && k < |h| && pending == AnyOursExclude(n, h)
    ensures |front| + k < |cs|
    ensures Holding(VisitOwn(n, own, cs, |front| + k), front,
                    if OwnOnly(n, own, h[k]) && !pending then Refit(h[..k] + h[k + 1..], h[0].sep) else h, tail)
  {
    UnledAt(front + h + tail, cs, |front| + k);
    if OwnOnly(n, own, h[k]) {
      PendingHolding(n, cs, front, h, tail, k, h[k]);
      DropHolding(cs, front, h, k, tail);
    }
  }

  /** The groups from `q` on, after dropping; and how the earlier ones come to stand before them. */
  lemma DroppedStands(n: Naming, own: string, cs: seq<Condition>, q: nat)
    requires SepsIn(cs, CONDITION_SEPS) && q < |GroupsOf(cs)|
    ensures var gs, spans := GroupsOf(cs), Spans(cs);
            && |spans| == |gs| && spans[q].lo < spans[q].hi <= |cs|
            && (forall i :: 0 <= i < |gs| ==> |gs[i]| > 0)
            && |gs[q]| == spans[q].hi - spans[q].lo
            && cs[..spans[q].lo] + gs[q] == cs[..spans[q].hi]
            && Stands(cs[..spans[q].lo], gs[q], Flatten(DropGroups(n, own, gs[q + 1..])))
  {
    var gs, spans := GroupsOf(cs), Spans(cs);
    SpansTile(cs);
    GroupsShape(cs);
    assert cs[..spans[q].lo] + gs[q] == cs[..spans[q].hi];
    GroupSeps(cs, q);
    SpanStart(spans, gs, cs, q);
    DroppedTail(n, own, gs[q + 1..]);
  }

  lemma SpanStart(spans: seq<Span>, gs: seq<seq<Condition>>, cs: seq<Condition>, q: nat)
    requires Tiles(cs, spans, gs) && q < |gs|
    ensures q == 0 <==> spans[q].lo == 0
  {
    if q > 0 {
      assert spans[q].lo == spans[q - 1].hi;
    }
  }

  lemma GroupSeps(cs: seq<Condition>, q: nat)
    requires SepsIn(cs, CONDITION_SEPS) && q < |GroupsOf(cs)|
    ensures var g := GroupsOf(cs)[q];
            && |g| > 0 && (q > 0 ==> g[0].sep == '&') && forall k :: 1 <= k < |g| ==> g[k].sep == '|'
  {
    var g := GroupsOf(cs)[q];
    GroupsShape(cs);
    SpansTile(cs);
    forall k: nat | 1 <= k < |g|
      ensures g[k].sep == '|'
    {
      assert g[k] == cs[Spans(cs)[q].lo + k];
    }
  }

  lemma {:induction false} DroppedTail(n: Naming, own: string, gs: seq<seq<Condition>>)
    requires forall q :: 0 <= q < |gs| ==> |gs[q]| > 0 && gs[q][0].sep == '&'
    ensures var tail := Flatten(DropGroups(n, own, gs));
            |tail| > 0 ==> tail[0].sep == '&'
    decreases |gs|
  {
    if |gs| > 0 {
      DroppedTail(n, own, gs[1..]);
      DropGroupsHead(n, own, gs);
    }
  }

  lemma DropGroupsHead(n: Naming, own: string, gs: seq<seq<Condition>>)
    requires |gs| > 0 && forall q :: 0 <= q < |gs| ==> |gs[q]| > 0
    ensures Flatten(DropGroups(n, own, gs)) == DropGroup(n, own, gs[0]) + Flatten(DropGroups(n, own, gs[1..]))
    ensures |DropGroup(n, own, gs[0])| > 0 ==> DropGroup(n, own, gs[0])[0].sep == gs[0][0].sep
  {
    var d := DropGroup(n, own, gs[0]);
    FlattenCons(d, DropGroups(n, own, gs[1..]));
    if |d| == 0 {
      assert [] + DropGroups(n, own, gs[1..]) == DropGroups(n, own, gs[1..]);
    }
  }

  lemma UnledSlice(n: Naming, own: string, cs: seq<Condition>, front: seq<Condition>, g: seq<Condition>,
                   tail: seq<Condition>)
    requires Unled(cs) == Unled(front + g + tail)
    ensures |cs| == |front| + |g| + |tail|
    ensures AnyOwnersAllow(n, own, cs[|front|..|front| + |g|]) <==> AnyOwnersAllow(n, own, g)
  {
    var h := cs[|front|..|front| + |g|];
    forall k | 0 <= k < |g|
      ensures OwnersAllow(n, own, h[k]) <==> OwnersAllow(n, own, g[k])
    {
      UnledAt(front + g + tail, cs, |front| + k);
    }
  }

  lemma PartSparedEnds(n: Naming, own: string, g: seq<Condition>)
    requires |g| > 0
    ensures PartSpared(n, own, g, |g|) == g
    ensures PartSpared(n, own, g, 0) == Refit(Spare(n, own, AnyOursExclude(n, g), g), g[0].sep)
  {
    assert g[..|g|] + [] == g && g[|g|..] == [] && g[0..] == g;
    assert [] + Spare(n, own, AnyOursExclude(n, g), g) == Spare(n, own, AnyOursExclude(n, g), g);
    assert Refit(g, g[0].sep) == g;
  }

  /** Take the clauses that allow only the own row out of one group, last first. */
  method DropFromGroup(n: Naming, own: string, cs: seq<Condition>, span: Span, ghost front: seq<Condition>,
                       ghost g: seq<Condition>, ghost tail: seq<Condition>)
    returns (conditions: seq<Condition>)
    requires Stands(front, g, tail) && Holding(cs, front, g, tail)
    requires span == Span(|front|, |front| + |g|)
    ensures Holding(conditions, front, PartSpared(n, own, g, 0), tail)
  {
    conditions := cs;
    PartSparedEnds(n, own, g);
    var j := span.hi;
    while j > span.lo
      invariant span.lo <= j <= span.hi
      invariant Holding(conditions, front, PartSpared(n, own, g, j - |front|), tail)
    {
      j := j - 1;
      VisitStep(n, own, front, g, j, tail, conditions);
      conditions := VisitOwn(n, own, conditions, j);
    }
  }

  ghost predicate NonEmptyGroups(cs: seq<Condition>) {
    forall i :: 0 <= i < |GroupsOf(cs)| ==> |GroupsOf(cs)[i]| > 0
  }

  /** The groups from `q` on have been dealt with; those before are as they were. */
  ghost predicate DroppedFrom(n: Naming, own: string, cs: seq<Condition>, q: nat, conditions: seq<Condition>)
    requires NonEmptyGroups(cs)
  {
    && |Spans(cs)| == |GroupsOf(cs)| >= q
    && (q > 0 ==> Spans(cs)[q - 1].hi <= |cs|)
    && Unled(conditions) == Unled(cs[..if q == 0 then 0 else Spans(cs)[q - 1].hi]
                                  + Flatten(DropGroups(n, own, GroupsOf(cs)[q..])))
  }

  lemma DroppedOpen(n: Naming, own: string, cs: seq<Condition>, q: nat, conditions: seq<Condition>)
    requires SepsIn(cs, CONDITION_SEPS) && q < |GroupsOf(cs)|
    requires NonEmptyGroups(cs)
    requires DroppedFrom(n, own, cs, q + 1, conditions)
    ensures Spans(cs)[q].lo < Spans(cs)[q].hi <= |cs|
    ensures var front, tail := cs[..Spans(cs)[q].lo], Flatten(DropGroups(n, own, GroupsOf(cs)[q + 1..]));
            && Stands(front, GroupsOf(cs)[q], tail) && Spans(cs)[q] == Span(|front|, |front| + |GroupsOf(cs)[q]|)
            && Holding(conditions, front, GroupsOf(cs)[q], tail)
  {
    DroppedStands(n, own, cs, q);
  }

  lemma DroppedClose(n: Naming, own: string, cs: seq<Condition>, q: nat, conditions: seq<Condition>)
    requires q < |GroupsOf(cs)|
    requires NonEmptyGroups(cs)
    requires |Spans(cs)| == |GroupsOf(cs)| && Spans(cs)[q].lo <= |cs|
    requires Spans(cs)[q].lo == if q == 0 then 0 else Spans(cs)[q - 1].hi
    requires Holding(conditions, cs[..Spans(cs)[q].lo], DropGroup(n, own, GroupsOf(cs)[q]),
                     Flatten(DropGroups(n, own, GroupsOf(cs)[q + 1..])))
    ensures DroppedFrom(n, own, cs, q, conditions)
  {
    var gs := GroupsOf(cs);
    DropGroupsFrom(n, own, gs, q);
    Regroup(cs[..Spans(cs)[q].lo], DropGroup(n, own, gs[q]), Flatten(DropGroups(n, own, gs[q + 1..])));
  }

  lemma Regroup(a: seq<Condition>, b: seq<Condition>, c: seq<Condition>)
    ensures a + b + c == a + (b + c)
  {
  }

  lemma DropGroupsFrom(n: Naming, own: string, gs: seq<seq<Condition>>, q: nat)
    requires q < |gs| && forall i :: 0 <= i < |gs| ==> |gs[i]| > 0
    ensures Flatten(DropGroups(n, own, gs[q..])) ==
            DropGroup(n, own, gs[q]) + Flatten(DropGroups(n, own, gs[q + 1..]))
  {
    DropGroupsHead(n, own, gs[q..]);
    assert gs[q..][1..] == gs[q + 1..] && gs[q..][0] == gs[q];
  }

  lemma DroppedStart(n: Naming, own: string, cs: seq<Condition>)
    requires NonEmptyGroups(cs)
    ensures DroppedFrom(n, own, cs, |Spans(cs)|, cs)
  {
    SpansTile(cs);
    var gs := GroupsOf(cs);
    assert gs[|gs|..] == [] && cs[..|cs|] + [] == cs;
  }

  lemma DroppedEnd(n: Naming, own: string, cs: seq<Condition>, conditions: seq<Condition>)
    requires NonEmptyGroups(cs) && DroppedFrom(n, own, cs, 0, conditions)
    ensures Unled(conditions) == Unled(Flatten(DropGroups(n, own, GroupsOf(cs))))
  {
    var gs := GroupsOf(cs);
    assert gs[0..] == gs;
    assert cs[..0] + Flatten(DropGroups(n, own, gs)) == Flatten(DropGroups(n, own, gs));
  }

  lemma DropGroupIs(n: Naming, own: string, g: seq<Condition>)
    requires |g| > 0
    ensures DropGroup(n, own, g) == if AnyOwnersAllow(n, own, g) then g else PartSpared(n, own, g, 0)
  {
    PartSparedEnds(n, own, g);
  }

  method DropOneGroup(n: Naming, own: string, span: Span, before: seq<Condition>, ghost front: seq<Condition>,
                      ghost g: seq<Condition>, ghost tail: seq<Condition>)
    returns (conditions: seq<Condition>)
    requires Stands(front, g, tail) && Holding(before, front, g, tail)
    requires span == Span(|front|, |front| + |g|)
    ensures Holding(conditions, front, DropGroup(n, own, g), tail)
  {
    UnledSlice(n, own, before, front, g, tail);
    DropGroupIs(n, own, g);
    if AnyOwnersAllow(n, own, before[span.lo..span.hi]) {
      conditions := before;
    } else {
      conditions := DropFromGroup(n, own, before, span, front, g, tail);
    }
  }

  lemma SpanLinks(cs: seq<Condition>, q: nat)
    requires q < |Spans(cs)|
    ensures |Spans(cs)| == |GroupsOf(cs)|
    ensures Spans(cs)[q].lo == if q == 0 then 0 else Spans(cs)[q - 1].hi
  {
    SpansTile(cs);
  }

  /** Take out, last group first, the clauses that allow only the own row where no allow condition of the owner's
      is left beside them. */
  method DropOwnClauses(n: Naming, own: string, cs: seq<Condition>) returns (conditions: seq<Condition>)
    requires SepsIn(cs, CONDITION_SEPS)
    ensures NonEmptyGroups(cs)
    ensures Unled(conditions) == Unled(Flatten(DropGroups(n, own, GroupsOf(cs))))
  {
    hide DroppedFrom;
    hide DropGroups;
    assert NonEmptyGroups(cs) by {
      GroupsShape(cs);
    }
    DroppedStart(n, own, cs);
    var spans := AllowGroups(cs);
    conditions := cs;
    var q := |spans|;
    while q > 0
      invariant 0 <= q <= |spans|
      invariant DroppedFrom(n, own, cs, q, conditions)
    {
      q := q - 1;
      SpanLinks(cs, q);
      DroppedOpen(n, own, cs, q, conditions);
      conditions := DropOneGroup(n, own, spans[q], conditions, cs[..spans[q].lo], GroupsOf(cs)[q],
                                 Flatten(DropGroups(n, own, GroupsOf(cs)[q + 1..])));
      DroppedClose(n, own, cs, q, conditions);
    }
    DroppedEnd(n, own, cs, conditions);
  }

  // ----- adding the own row where a group would hide it -----

  /** One group, between what precedes and what follows it. */
  method AdmitIntoGroup(n: Naming, own: string, prefix: string, valueSep: string, before: seq<Condition>, span: Span,
                        ghost front: seq<Condition>, ghost g: seq<Condition>, ghost tail: seq<Condition>)
    returns (conditions: seq<Condition>)
    requires before == front + g + tail && span == Span(|front|, |front| + |g|)
    ensures conditions == front + AdmitGroup(n, own, prefix, valueSep, g) + tail
  {
    hide AnyAdmits;
    hide AnyOwnersAllow;
    conditions := before;
    var group := conditions[span.lo..span.hi];
    assert group == g;
    if AnyAdmits(n, group, [own, prefix]) || !AnyOwnersAllow(n, own, group) {
      return;
    }
    var j := 0;
    while j < |group| && !IsLabelAllow(group[j])
      invariant j <= |group|
      invariant AllowClause(group, 0) == AllowClause(group, j)
    {
      j := j + 1;
    }
    if j == |group| {
      conditions := conditions[..span.hi] + [Condition("label", Is, [own], '|', [])] + conditions[span.hi..];
    } else {
      var cond := group[j];
      var existing := PaddedSeps(cond);
      var fill := if |cond.valueSeps| > 0 then cond.valueSeps[|cond.valueSeps| - 1] else valueSep;
      var grown := cond.values + [own];
      var bigger := cond.(values := grown, valueSeps := existing + Fill(fill, |grown| - 1 - |existing|));
      assert bigger == Grow(g[j], [own], valueSep);
      conditions := conditions[span.lo + j := bigger];
      UpdateMember(front, g, j, bigger, tail);
    }
  }

  lemma UpdateMember(front: seq<Condition>, g: seq<Condition>, j: nat, c: Condition, tail: seq<Condition>)
    requires j < |g|
    ensures (front + g + tail)[|front| + j := c] == front + g[j := c] + tail
  {
  }

  /** The groups from `q` on have been admitted into; those before are as they were. */
  ghost predicate AdmittedFrom(n: Naming, own: string, prefix: string, valueSep: string, cs: seq<Condition>, q: nat,
                               conditions: seq<Condition>)
  {
    && |Spans(cs)| == |GroupsOf(cs)| >= q
    && (q > 0 ==> Spans(cs)[q - 1].hi <= |cs|)
    && conditions == cs[..if q == 0 then 0 else Spans(cs)[q - 1].hi]
                     + Flatten(AdmitGroups(n, own, prefix, valueSep, GroupsOf(cs))[q..])
  }

  lemma AdmittedOpen(n: Naming, own: string, prefix: string, valueSep: string, cs: seq<Condition>, q: nat,
                     conditions: seq<Condition>)
    requires q < |GroupsOf(cs)| && AdmittedFrom(n, own, prefix, valueSep, cs, q + 1, conditions)
    ensures Spans(cs)[q].lo < Spans(cs)[q].hi <= |cs|
    ensures var front := cs[..Spans(cs)[q].lo];
            && Spans(cs)[q] == Span(|front|, |front| + |GroupsOf(cs)[q]|)
            && conditions == front + GroupsOf(cs)[q]
                             + Flatten(AdmitGroups(n, own, prefix, valueSep, GroupsOf(cs))[q + 1..])
  {
    SpansTile(cs);
    var s := Spans(cs)[q];
    assert cs[..s.hi] == cs[..s.lo] + cs[s.lo..s.hi];
  }

  lemma AdmittedClose(n: Naming, own: string, prefix: string, valueSep: string, cs: seq<Condition>, q: nat,
                      conditions: seq<Condition>)
    requires q < |GroupsOf(cs)| == |Spans(cs)| && Spans(cs)[q].lo <= |cs|
    requires conditions == cs[..Spans(cs)[q].lo] + AdmitGroup(n, own, prefix, valueSep, GroupsOf(cs)[q])
                           + Flatten(AdmitGroups(n, own, prefix, valueSep, GroupsOf(cs))[q + 1..])
    ensures AdmittedFrom(n, own, prefix, valueSep, cs, q, conditions)
  {
    SpanLinks(cs, q);
    var hs := AdmitGroups(n, own, prefix, valueSep, GroupsOf(cs));
    FlattenFrom(hs, q);
    Regroup(cs[..Spans(cs)[q].lo], hs[q], Flatten(hs[q + 1..]));
  }

  lemma FlattenFrom(gs: seq<seq<Condition>>, q: nat)
    requires q < |gs|
    ensures Flatten(gs[q..]) == gs[q] + Flatten(gs[q + 1..])
  {
    assert gs[q..] == [gs[q]] + gs[q + 1..];
    FlattenCons(gs[q], gs[q + 1..]);
  }

  lemma AdmittedEnds(n: Naming, own: string, prefix: string, valueSep: string, cs: seq<Condition>)
    ensures AdmittedFrom(n, own, prefix, valueSep, cs, |Spans(cs)|, cs)
    ensures cs[..0] + Flatten(AdmitGroups(n, own, prefix, valueSep, GroupsOf(cs))[0..]) ==
            Flatten(AdmitGroups(n, own, prefix, valueSep, GroupsOf(cs)))
  {
    hide AdmitGroup;
    SpansTile(cs);
    var hs := AdmitGroups(n, own, prefix, valueSep, GroupsOf(cs));
    assert hs[|hs|..] == [] && cs[..|cs|] + [] == cs && hs[0..] == hs;
  }

  /** Add the own row, last group first, to every group of the owner's allow conditions that would hide it. */
  method AdmitIntoGroups(n: Naming, own: string, prefix: string, valueSep: string, cs: seq<Condition>)
    returns (conditions: seq<Condition>)
    ensures conditions == Flatten(AdmitGroups(n, own, prefix, valueSep, GroupsOf(cs)))
  {
    var spans := AllowGroups(cs);
    AdmittedEnds(n, own, prefix, valueSep, cs);
    conditions := cs;
    var q := |spans|;
    while q > 0
      invariant 0 <= q <= |spans|
      invariant AdmittedFrom(n, own, prefix, valueSep, cs, q, conditions)
    {
      q := q - 1;
      AdmittedOpen(n, own, prefix, valueSep, cs, q, conditions);
      conditions := AdmitIntoGroup(n, own, prefix, valueSep, conditions, spans[q], cs[..spans[q].lo], GroupsOf(cs)[q],
                                   Flatten(AdmitGroups(n, own, prefix, valueSep, GroupsOf(cs))[q + 1..]));
      AdmittedClose(n, own, prefix, valueSep, cs, q, conditions);
    }
  }

  lemma UnledMember(g: seq<Condition>, c: nat, d: Condition)
    requires c < |g| && d.sep == g[c].sep
    ensures Unled(g)[c := d.(sep := Unled(g)[c].sep)] == Unled(g[c := d])
  {
  }

  lemma UnledMore(g: seq<Condition>, d: Condition)
    requires |g| > 0
    ensures Unled(g) + [d] == Unled(g + [d])
  {
  }

  lemma GrowUnled(g: seq<Condition>, c: nat, more: seq<string>, valueSep: string)
    requires c < |g| && |more| > 0
    ensures Unled(g)[c := Grow(Unled(g)[c], more, valueSep)] == Unled(g[c := Grow(g[c], more, valueSep)])
  {
    var u := Unled(g)[c];
    assert u == g[c].(sep := u.sep);
    assert PaddedSeps(u) == PaddedSeps(g[c]);
    UnledMember(g, c, Grow(g[c], more, valueSep));
  }

  lemma AdmitGroupUnled(n: Naming, own: string, prefix: string, valueSep: string, g: seq<Condition>)
    requires |g| > 0
    ensures AdmitGroup(n, own, prefix, valueSep, Unled(g)) == Unled(AdmitGroup(n, own, prefix, valueSep, g))
  {
    UnledSaysSame(n, own, g, [own, prefix], map[]);
    AllowClauseUnled(g, 0);
    var c := AllowClause(g, 0);
    if c < |g| {
      GrowUnled(g, c, [own], valueSep);
    } else {
      UnledMore(g, Condition("label", Is, [own], '|', []));
    }
  }

  lemma {:induction false} AllowClauseUnled(g: seq<Condition>, k: nat)
    requires k <= |g|
    ensures AllowClause(Unled(g), k) == AllowClause(g, k)
    decreases |g| - k
  {
    if k < |g| {
      assert Unled(g)[k] == if k == 0 then g[0].(sep := '|') else g[k];
      AllowClauseUnled(g, k + 1);
    }
  }

  lemma UnledFirstAt(gs: seq<seq<Condition>>, q: nat)
    requires q < |gs|
    ensures UnledFirst(gs)[q] == if q == 0 then Unled(gs[0]) else gs[q]
  {
  }

  lemma AdmitGroupsOfUnled(n: Naming, own: string, prefix: string, valueSep: string, gs: seq<seq<Condition>>)
    requires |gs| > 0 && |gs[0]| > 0
    ensures AdmitGroups(n, own, prefix, valueSep, UnledFirst(gs)) ==
            UnledFirst(AdmitGroups(n, own, prefix, valueSep, gs))
  {
    var us, hs := AdmitGroups(n, own, prefix, valueSep, UnledFirst(gs)), AdmitGroups(n, own, prefix, valueSep, gs);
    forall q | 0 <= q < |gs|
      ensures us[q] == UnledFirst(hs)[q]
    {
      UnledFirstAt(gs, q);
      UnledFirstAt(hs, q);
      if q == 0 {
        AdmitGroupUnled(n, own, prefix, valueSep, gs[0]);
      }
    }
  }

  lemma AdmitGroupNonEmpty(n: Naming, own: string, prefix: string, valueSep: string, g: seq<Condition>)
    requires |g| > 0
    ensures |AdmitGroup(n, own, prefix, valueSep, g)| > 0
  {
  }

  /** The separator that opens the list plays no part. */
  lemma AdmitGroupsUnled(n: Naming, own: string, prefix: string, valueSep: string, gs: seq<seq<Condition>>)
    requires |gs| > 0 ==> |gs[0]| > 0
    ensures Unled(Flatten(AdmitGroups(n, own, prefix, valueSep, gs))) ==
            Flatten(AdmitGroups(n, own, prefix, valueSep, UnledFirst(gs)))
  {
    if |gs| > 0 {
      AdmitGroupNonEmpty(n, own, prefix, valueSep, gs[0]);
      FlattenUnledFirst(AdmitGroups(n, own, prefix, valueSep, gs));
      AdmitGroupsOfUnled(n, own, prefix, valueSep, gs);
    } else {
      assert UnledFirst(gs) == gs;
      assert AdmitGroups(n, own, prefix, valueSep, gs) == [];
    }
  }

  lemma AdmitUnled(n: Naming, own: string, prefix: string, valueSep: string, cs: seq<Condition>,
                   gs: seq<seq<Condition>>)
    requires GroupShape(gs) && Unled(cs) == Unled(Flatten(gs))
    ensures Unled(Flatten(AdmitGroups(n, own, prefix, valueSep, GroupsOf(cs)))) ==
            Unled(Flatten(AdmitGroups(n, own, prefix, valueSep, gs)))
  {
    GroupsOfFlatten(gs);
    GroupsOfUnled(cs);
    GroupsOfUnled(Flatten(gs));
    GroupsShape(cs);
    AdmitGroupsUnled(n, own, prefix, valueSep, GroupsOf(cs));
    AdmitGroupsUnled(n, own, prefix, valueSep, gs);
  }

  // ----- taking the own row back out -----

  /** A group whose members before `p` have been edited. */
  function PartEdited(g: seq<Condition>, edits: seq<Option<Condition>>, p: nat): seq<Condition>
    requires p <= |g| == |edits| && |g| > 0
  {
    Refit(Collect(edits[..p]) + g[p..], g[0].sep)
  }

  /** Edits that keep separators and leave our excludes alone. */
  ghost predicate HideLike(n: Naming, g: seq<Condition>, edits: seq<Option<Condition>>) {
    && KeepsSeps(g, edits)
    && forall k :: 0 <= k < |g| ==>
         (OursExclude(n, g[k]) <==> edits[k].Some? && OursExclude(n, edits[k].value))
  }

  ghost predicate PipesInside(g: seq<Condition>) {
    forall k :: 1 <= k < |g| ==> g[k].sep == '|'
  }

  lemma {:induction false} EditedSeps(g: seq<Condition>, edits: seq<Option<Condition>>, p: nat)
    requires p <= |g| && PipesInside(g) && KeepsSeps(g, edits)
    ensures PipesInside(Collect(edits[..p]))
  {
    if p > 0 {
      EditedSeps(g, edits, p - 1);
      CollectNext(edits, p - 1);
      CollectBound(edits[..p - 1]);
    }
  }

  lemma CollectBound(edits: seq<Option<Condition>>)
    ensures |Collect(edits)| > 0 ==> |edits| > 0
  {
  }

  lemma {:induction false} EditedExcludes(n: Naming, g: seq<Condition>, edits: seq<Option<Condition>>, p: nat)
    requires p <= |g| && HideLike(n, g, edits)
    ensures AnyOursExclude(n, Collect(edits[..p])) <==> AnyOursExclude(n, g[..p])
  {
    if p > 0 {
      EditedExcludes(n, g, edits, p - 1);
      CollectNext(edits, p - 1);
      assert g[..p] == g[..p - 1] + [g[p - 1]];
      AnyOursExcludeSnoc(n, g[..p - 1], g[p - 1]);
      if edits[p - 1].Some? {
        AnyOursExcludeSnoc(n, Collect(edits[..p - 1]), edits[p - 1].value);
      } else {
        assert Collect(edits[..p]) == Collect(edits[..p - 1]);
        assert !OursExclude(n, g[p - 1]);
      }
    }
  }

  lemma RefitSame(n: Naming, g: seq<Condition>, sep: char)
    ensures AnyOursExclude(n, Refit(g, sep)) <==> AnyOursExclude(n, g)
  {
    UnledExclude(n, Refit(g, sep), g);
  }

  lemma PartEditedExcludes(n: Naming, g: seq<Condition>, edits: seq<Option<Condition>>, p: nat)
    requires p <= |g| && |g| > 0 && HideLike(n, g, edits)
    ensures AnyOursExclude(n, PartEdited(g, edits, p)) <==> AnyOursExclude(n, g)
  {
    var kept := Collect(edits[..p]);
    EditedExcludes(n, g, edits, p);
    ExcludeConcat(n, kept, g[p..]);
    ExcludeConcat(n, g[..p], g[p..]);
    assert g == g[..p] + g[p..];
    RefitSame(n, kept + g[p..], g[0].sep);
  }

  lemma PartEditedShape(g: seq<Condition>, edits: seq<Option<Condition>>, p: nat)
    requires p < |g| && PipesInside(g) && KeepsSeps(g, edits)
    ensures var h, m := PartEdited(g, edits, p), |Collect(edits[..p])|;
            m < |h| && h[m].(sep := '|') == g[p].(sep := '|') && h[0].sep == g[0].sep && PipesInside(h)
  {
    var kept := Collect(edits[..p]);
    EditedSeps(g, edits, p);
    CollectBound(edits[..p]);
    var h, plain := PartEdited(g, edits, p), kept + g[p..];
    forall k | 1 <= k < |h|
      ensures h[k].sep == '|'
    {
      assert h[k] == plain[k] && plain[k] == if k < |kept| then kept[k] else g[p + k - |kept|];
    }
  }

  lemma EditedGone(kept: seq<Condition>, c: Condition, rest: seq<Condition>, sep: char)
    ensures var h, m := Refit(kept + ([c] + rest), sep), |kept|;
            Refit(kept + rest, sep) == Refit(h[..m] + h[m + 1..], sep)
  {
    var h, m := Refit(kept + ([c] + rest), sep), |kept|;
    assert forall k :: 1 <= k < |h| ==> h[k] == (kept + ([c] + rest))[k];
    var a, b := kept + rest, h[..m] + h[m + 1..];
    assert |a| == |b| && forall k :: 1 <= k < |a| ==> a[k] == b[k];
    assert |a| > 0 ==> a[0].(sep := sep) == b[0].(sep := sep);
  }

  lemma EditedKept(kept: seq<Condition>, c: Condition, d: Condition, rest: seq<Condition>, sep: char)
    requires d.sep == c.sep
    ensures var h, m := Refit(kept + ([c] + rest), sep), |kept|;
            Refit(kept + [d] + rest, sep) == h[m := d.(sep := h[m].sep)]
  {
  }

  /** What a group becomes when its next member goes. */
  lemma PartEditedGone(g: seq<Condition>, edits: seq<Option<Condition>>, p: nat)
    requires p < |g| == |edits| && edits[p] == None
    ensures var h, m := PartEdited(g, edits, p), |Collect(edits[..p])|;
            m < |h| && PartEdited(g, edits, p + 1) == Refit(h[..m] + h[m + 1..], g[0].sep)
            && |Collect(edits[..p + 1])| == m
  {
    CollectNext(edits, p);
    assert g[p..] == [g[p]] + g[p + 1..];
    EditedGone(Collect(edits[..p]), g[p], g[p + 1..], g[0].sep);
  }

  /** What a group becomes when its next member is kept as `c`. */
  lemma PartEditedKept(g: seq<Condition>, edits: seq<Option<Condition>>, p: nat, c: Condition)
    requires p < |g| == |edits| && edits[p] == Some(c) && c.sep == g[p].sep
    ensures var h, m := PartEdited(g, edits, p), |Collect(edits[..p])|;
            m < |h| && PartEdited(g, edits, p + 1) == h[m := c.(sep := h[m].sep)]
            && |Collect(edits[..p + 1])| == m + 1
  {
    CollectNext(edits, p);
    assert g[p..] == [g[p]] + g[p + 1..];
    EditedKept(Collect(edits[..p]), g[p], c, g[p + 1..], g[0].sep);
  }

  lemma HideEditsLike(n: Naming, own: string, g: seq<Condition>)
    ensures HideLike(n, g, HideEdits(n, own, g))
  {
  }

  /** Looking at condition `i`: it loses the own label, and goes once empty unless a repair is pending. The second
      result is where the loop stands next. */
  function VisitHide(n: Naming, own: string, cs: seq<Condition>, i: nat): (r: (seq<Condition>, nat))
    requires i < |cs|
  {
    if !IsLabelAllow(cs[i]) then (cs, i + 1)
    else
      var rest := WithoutValues(cs[i], MineIs(n, own));
      if rest.Some? then (cs[i := rest.value], i + 1)
      else if RepairPending(n, cs, i) then (cs, i + 1)
      else (DropCondition(cs, i), i)
  }

  lemma UnledUpdate(cs: seq<Condition>, ds: seq<Condition>, i: nat, c: Condition, d: Condition)
    requires Unled(cs) == Unled(ds) && i < |cs| && c.(sep := '|') == d.(sep := '|') && (i > 0 ==> c == d)
    ensures |ds| == |cs| && Unled(cs[i := c]) == Unled(ds[i := d])
  {
    var a, b := Unled(cs[i := c]), Unled(ds[i := d]);
    forall k | 0 <= k < |cs|
      ensures a[k] == b[k]
    {
      UnledAt(cs, ds, k);
    }
  }

  /** One step of the loop over a group's members. */
  lemma HideStep(n: Naming, own: string, front: seq<Condition>, g: seq<Condition>, p: nat, tail: seq<Condition>,
                 cs: seq<Condition>, i: nat)
    requires Stands(front, g, tail) && p < |g| && i == |front| + |Collect(HideEdits(n, own, g)[..p])|
    requires Holding(cs, front, PartEdited(g, HideEdits(n, own, g), p), tail)
    ensures i < |cs|
    ensures Holding(VisitHide(n, own, cs, i).0, front, PartEdited(g, HideEdits(n, own, g), p + 1), tail)
    ensures VisitHide(n, own, cs, i).1 == |front| + |Collect(HideEdits(n, own, g)[..p + 1])|
  {
    var edits := HideEdits(n, own, g);
    var h, m := PartEdited(g, edits, p), i - |front|;
    HideEditsLike(n, own, g);
    PartEditedShape(g, edits, p);
    UnledAt(front + h + tail, cs, i);
    if edits[p].None? {
      PartEditedGone(g, edits, p);
      HideGoes(n, own, front, g, p, tail, cs, i);
    } else {
      PartEditedKept(g, edits, p, edits[p].value);
      HideStays(n, own, front, g, p, tail, cs, i);
    }
  }

  lemma SameValuesWithout(c: Condition, d: Condition, drop: string -> bool)
    requires c.(sep := '|') == d.(sep := '|')
    ensures match WithoutValues(c, drop)
            case None => WithoutValues(d, drop) == None
            case Some(r) => WithoutValues(d, drop) == Some(r.(sep := d.sep))
  {
    assert c.values == c.(sep := '|').values && c.valueSeps == c.(sep := '|').valueSeps;
    assert d.values == d.(sep := '|').values && d.valueSeps == d.(sep := '|').valueSeps;
    assert d == c.(sep := d.sep);
  }

  lemma AllowBesideExclude(n: Naming, h: seq<Condition>, m: nat)
    requires m < |h| && h[m].op == Is && AnyOursExclude(n, h)
    ensures |h| > 1
  {
    var k :| 0 <= k < |h| && OursExclude(n, h[k]);
    assert k != m;
  }

  /** Whether a repair is pending looks the same wherever in a group the loop stands. */
  lemma PendingStaysPut(n: Naming, front: seq<Condition>, g: seq<Condition>, edits: seq<Option<Condition>>, p: nat,
                        tail: seq<Condition>, cs: seq<Condition>, i: nat)
    requires Stands(front, g, tail) && p < |g| == |edits| && i == |front| + |Collect(edits[..p])|
    requires Holding(cs, front, PartEdited(g, edits, p), tail) && HideLike(n, g, edits)
    requires IsLabelAllow(g[p])
    ensures i < |cs| && cs[i].(sep := '|') == g[p].(sep := '|')
    ensures RepairPending(n, cs, i) <==> AnyOursExclude(n, g)
  {
    PartEditedShape(g, edits, p);
    PartEditedExcludes(n, g, edits, p);
    PendingHolding(n, cs, front, PartEdited(g, edits, p), tail, i - |front|, g[p]);
  }

  lemma PendingHolding(n: Naming, cs: seq<Condition>, front: seq<Condition>, h: seq<Condition>, tail: seq<Condition>,
                       m: nat, c: Condition)
    requires Stands(front, h, tail) && Holding(cs, front, h, tail) && m < |h|
    requires h[m].(sep := '|') == c.(sep := '|') && IsLabelAllow(c)
    ensures |front| + m < |cs| && cs[|front| + m].(sep := '|') == c.(sep := '|')
    ensures RepairPending(n, cs, |front| + m) <==> AnyOursExclude(n, h)
  {
    UnledAt(front + h + tail, cs, |front| + m);
    RepairPendingStands(n, cs, front, h, tail, m);
    assert h[m].op == h[m].(sep := '|').op;
    assert c.op == c.(sep := '|').op;
    if AnyOursExclude(n, h) {
      AllowBesideExclude(n, h, m);
    }
  }

  lemma VisitHideGoes(n: Naming, own: string, cs: seq<Condition>, i: nat, c: Condition, pending: bool)
    requires i < |cs| && cs[i].(sep := '|') == c.(sep := '|') && HideEdit(n, own, pending, c).None?
    requires RepairPending(n, cs, i) == pending
    ensures VisitHide(n, own, cs, i) == (DropCondition(cs, i), i)
  {
    SameValuesWithout(c, cs[i], MineIs(n, own));
  }

  lemma HideGoes(n: Naming, own: string, front: seq<Condition>, g: seq<Condition>, p: nat, tail: seq<Condition>,
                 cs: seq<Condition>, i: nat)
    requires Stands(front, g, tail) && p < |g| && i == |front| + |Collect(HideEdits(n, own, g)[..p])|
    requires Holding(cs, front, PartEdited(g, HideEdits(n, own, g), p), tail)
    requires HideEdits(n, own, g)[p].None?
    ensures i < |cs|
    ensures VisitHide(n, own, cs, i) == (DropCondition(cs, i), i)
    ensures Holding(DropCondition(cs, i), front, PartEdited(g, HideEdits(n, own, g), p + 1), tail)
  {
    var edits := HideEdits(n, own, g);
    HideEditsLike(n, own, g);
    PendingStaysPut(n, front, g, edits, p, tail, cs, i);
    VisitHideGoes(n, own, cs, i, g[p], AnyOursExclude(n, g));
    EditGoes(front, g, edits, p, tail, cs, i);
  }

  lemma EditGoes(front: seq<Condition>, g: seq<Condition>, edits: seq<Option<Condition>>, p: nat, tail: seq<Condition>,
                 cs: seq<Condition>, i: nat)
    requires Stands(front, g, tail) && p < |g| == |edits| && i == |front| + |Collect(edits[..p])|
    requires Holding(cs, front, PartEdited(g, edits, p), tail) && KeepsSeps(g, edits) && edits[p].None?
    ensures i < |cs| && Holding(DropCondition(cs, i), front, PartEdited(g, edits, p + 1), tail)
  {
    hide Holding;
    hide DropCondition;
    PartEditedShape(g, edits, p);
    PartEditedGone(g, edits, p);
    DropHolding(cs, front, PartEdited(g, edits, p), i - |front|, tail);
  }

  lemma DropHolding(cs: seq<Condition>, front: seq<Condition>, h: seq<Condition>, k: nat, tail: seq<Condition>)
    requires Stands(front, h, tail) && Holding(cs, front, h, tail) && k < |h|
    ensures |front| + k < |cs|
    ensures Holding(DropCondition(cs, |front| + k), front, Refit(h[..k] + h[k + 1..], h[0].sep), tail)
  {
    UnledAt(front + h + tail, cs, |front| + k);
    UnledDrop(cs, front + h + tail, |front| + k);
    DropInGroup(front, h, k, tail);
  }

  lemma VisitHideStays(n: Naming, own: string, cs: seq<Condition>, i: nat, c: Condition, pending: bool)
    requires i < |cs| && cs[i].(sep := '|') == c.(sep := '|') && HideEdit(n, own, pending, c).Some?
    requires IsLabelAllow(c) ==> RepairPending(n, cs, i) == pending
    ensures VisitHide(n, own, cs, i) == (cs[i := HideEdit(n, own, pending, c).value.(sep := cs[i].sep)], i + 1)
  {
    assert cs[i] == c.(sep := cs[i].sep) by {
      assert cs[i].(sep := '|').values == c.(sep := '|').values;
    }
    SameValuesWithout(c, cs[i], MineIs(n, own));
    assert cs[i := cs[i]] == cs;
  }

  lemma EditStays(front: seq<Condition>, g: seq<Condition>, edits: seq<Option<Condition>>, p: nat,
                  tail: seq<Condition>, cs: seq<Condition>, i: nat)
    requires Stands(front, g, tail) && p < |g| == |edits| && i == |front| + |Collect(edits[..p])|
    requires Holding(cs, front, PartEdited(g, edits, p), tail) && KeepsSeps(g, edits) && edits[p].Some?
    ensures i < |cs| && cs[i].(sep := '|') == g[p].(sep := '|')
    ensures Holding(cs[i := edits[p].value.(sep := cs[i].sep)], front, PartEdited(g, edits, p + 1), tail)
  {
    PartEditedShape(g, edits, p);
    PartEditedKept(g, edits, p, edits[p].value);
    UpdateHolding(cs, front, PartEdited(g, edits, p), i - |front|, tail, edits[p].value);
  }

  lemma UpdateHolding(cs: seq<Condition>, front: seq<Condition>, h: seq<Condition>, k: nat, tail: seq<Condition>,
                      c: Condition)
    requires Holding(cs, front, h, tail) && k < |h|
    ensures var i := |front| + k;
            && i < |cs| && cs[i].(sep := '|') == h[k].(sep := '|')
            && Holding(cs[i := c.(sep := cs[i].sep)], front, h[k := c.(sep := h[k].sep)], tail)
  {
    var i := |front| + k;
    UnledAt(front + h + tail, cs, i);
    UpdateMember(front, h, k, c.(sep := h[k].sep), tail);
    UnledUpdate(cs, front + h + tail, i, c.(sep := cs[i].sep), c.(sep := h[k].sep));
  }

  lemma HideStays(n: Naming, own: string, front: seq<Condition>, g: seq<Condition>, p: nat, tail: seq<Condition>,
                  cs: seq<Condition>, i: nat)
    requires Stands(front, g, tail) && p < |g| && i == |front| + |Collect(HideEdits(n, own, g)[..p])|
    requires Holding(cs, front, PartEdited(g, HideEdits(n, own, g), p), tail)
    requires HideEdits(n, own, g)[p].Some?
    ensures i < |cs|
    ensures VisitHide(n, own, cs, i).1 == i + 1
    ensures Holding(VisitHide(n, own, cs, i).0, front, PartEdited(g, HideEdits(n, own, g), p + 1), tail)
  {
    var edits := HideEdits(n, own, g);
    HideEditsLike(n, own, g);
    EditStays(front, g, edits, p, tail, cs, i);
    if IsLabelAllow(g[p]) {
      PendingStaysPut(n, front, g, edits, p, tail, cs, i);
    }
    VisitHideStays(n, own, cs, i, g[p], AnyOursExclude(n, g));
  }

  /** `p` members of group `q` are edited and every earlier group is done. */
  ghost predicate HidingPast(n: Naming, own: string, gs: seq<seq<Condition>>, q: nat, p: nat, cs: seq<Condition>,
                             i: nat)
    requires forall k :: 0 <= k < |gs| ==> |gs[k]| > 0
  {
    && q < |gs| && p <= |gs[q]|
    && var front := Flatten(HideGroups(n, own, gs[..q]));
    && i == |front| + |Collect(HideEdits(n, own, gs[q])[..p])|
    && Holding(cs, front, PartEdited(gs[q], HideEdits(n, own, gs[q]), p), Flatten(gs[q + 1..]))
  }

  /** Where the loop stands: at member `p` of group `q`. */
  ghost predicate HidingAt(n: Naming, own: string, gs: seq<seq<Condition>>, q: nat, p: nat, cs: seq<Condition>, i: nat)
    requires forall k :: 0 <= k < |gs| ==> |gs[k]| > 0
  {
    HidingPast(n, own, gs, q, p, cs, i) && p < |gs[q]|
  }

  ghost predicate HidingDone(n: Naming, own: string, gs: seq<seq<Condition>>, cs: seq<Condition>, i: nat)
    requires forall k :: 0 <= k < |gs| ==> |gs[k]| > 0
  {
    Unled(cs) == Unled(Flatten(HideGroups(n, own, gs))) && i == |cs|
  }

  /** Groups as a parsed filter has them. */
  ghost predicate PipedGroups(gs: seq<seq<Condition>>) {
    && (forall q :: 0 <= q < |gs| ==> |gs[q]| > 0 && PipesInside(gs[q]))
    && (forall q :: 1 <= q < |gs| ==> gs[q][0].sep == '&')
  }

  lemma RestOpens(gs: seq<seq<Condition>>, q: nat)
    requires q < |gs| && |gs[q]| > 0
    ensures |Flatten(gs[q..])| > 0 && Flatten(gs[q..])[0] == gs[q][0]
  {
    assert gs[q..] == [gs[q]] + gs[q + 1..];
    FlattenCons(gs[q], gs[q + 1..]);
  }

  lemma GroupStands(n: Naming, own: string, gs: seq<seq<Condition>>, q: nat)
    requires PipedGroups(gs) && q < |gs|
    ensures Stands(Flatten(HideGroups(n, own, gs[..q])), gs[q], Flatten(gs[q + 1..]))
  {
    if q + 1 < |gs| {
      RestOpens(gs, q + 1);
    }
    assert q == 0 ==> gs[..q] == [];
  }

  lemma HideGroupsNext(n: Naming, own: string, gs: seq<seq<Condition>>, q: nat)
    requires q < |gs| && forall k :: 0 <= k < |gs| ==> |gs[k]| > 0
    ensures Flatten(HideGroups(n, own, gs[..q + 1])) ==
            Flatten(HideGroups(n, own, gs[..q])) + HideGroup(n, own, gs[q])
  {
    assert gs[..q + 1][..q] == gs[..q];
    var h := HideGroup(n, own, gs[q]);
    if |h| > 0 {
      FlattenSnoc(HideGroups(n, own, gs[..q]), h);
    } else {
      assert HideGroups(n, own, gs[..q + 1]) == HideGroups(n, own, gs[..q]);
    }
  }

  lemma PartEditedEnds(g: seq<Condition>, edits: seq<Option<Condition>>)
    requires |g| == |edits| > 0
    ensures PartEdited(g, edits, 0) == g
    ensures PartEdited(g, edits, |g|) == Refit(Collect(edits), g[0].sep)
  {
    assert edits[..0] == [] && [] + g[0..] == g && edits[..|g|] == edits;
    assert Collect(edits) + g[|g|..] == Collect(edits);
  }

  lemma HandOver(cs: seq<Condition>, front: seq<Condition>, h: seq<Condition>, g: seq<Condition>,
                 rest: seq<seq<Condition>>)
    requires Holding(cs, front, h, Flatten([g] + rest))
    ensures Holding(cs, front + h, g, Flatten(rest))
  {
    FlattenCons(g, rest);
    Regroup(front + h, g, Flatten(rest));
  }

  /** A finished group hands over to the next. */
  lemma HidingNext(n: Naming, own: string, gs: seq<seq<Condition>>, q: nat, cs: seq<Condition>, i: nat)
    requires PipedGroups(gs) && q + 1 < |gs| && GroupHidden(n, own, gs, q, cs, i)
    ensures HidingAt(n, own, gs, q + 1, 0, cs, i)
  {
    HideGroupsNext(n, own, gs, q);
    NextGroup(gs, q);
    HandOver(cs, Flatten(HideGroups(n, own, gs[..q])), HideGroup(n, own, gs[q]), gs[q + 1], gs[q + 2..]);
    PartEditedStart(gs[q + 1], HideEdits(n, own, gs[q + 1]));
  }

  lemma NextGroup(gs: seq<seq<Condition>>, q: nat)
    requires q + 1 < |gs|
    ensures gs[q + 1..] == [gs[q + 1]] + gs[q + 2..]
  {
  }

  lemma PartEditedStart(g: seq<Condition>, edits: seq<Option<Condition>>)
    requires |g| == |edits| > 0
    ensures PartEdited(g, edits, 0) == g && Collect(edits[..0]) == []
  {
    PartEditedEnds(g, edits);
  }

  lemma HidingEnds(n: Naming, own: string, gs: seq<seq<Condition>>, cs: seq<Condition>, i: nat)
    requires PipedGroups(gs) && |gs| > 0 && GroupHidden(n, own, gs, |gs| - 1, cs, i)
    ensures HidingDone(n, own, gs, cs, i)
  {
    var q := |gs| - 1;
    HideGroupsNext(n, own, gs, q);
    assert gs[..q + 1] == gs && gs[q + 1..] == [];
    var all := Flatten(HideGroups(n, own, gs));
    assert all + [] == all;
    assert |Unled(cs)| == |Unled(all)|;
  }

  lemma HidingStep(n: Naming, own: string, gs: seq<seq<Condition>>, q: nat, p: nat, cs: seq<Condition>, i: nat)
    requires PipedGroups(gs) && HidingAt(n, own, gs, q, p, cs, i)
    ensures i < |cs|
    ensures HidingPast(n, own, gs, q, p + 1, VisitHide(n, own, cs, i).0, VisitHide(n, own, cs, i).1)
  {
    GroupStands(n, own, gs, q);
    HideStep(n, own, Flatten(HideGroups(n, own, gs[..q])), gs[q], p, Flatten(gs[q + 1..]), cs, i);
  }

  lemma GroupEdited(g: seq<Condition>, edits: seq<Option<Condition>>, p: nat)
    requires p == |g| == |edits| > 0
    ensures PartEdited(g, edits, p) == Refit(Collect(edits), g[0].sep) && edits[..p] == edits
  {
    PartEditedEnds(g, edits);
  }

  lemma HidingFinishes(n: Naming, own: string, gs: seq<seq<Condition>>, q: nat, p: nat, cs: seq<Condition>, i: nat)
    requires PipedGroups(gs) && q < |gs| && p == |gs[q]| && HidingPast(n, own, gs, q, p, cs, i)
    ensures GroupHidden(n, own, gs, q, cs, i)
  {
    GroupEdited(gs[q], HideEdits(n, own, gs[q]), p);
  }

  /** Group `q` is done, and so is every earlier one. */
  ghost predicate GroupHidden(n: Naming, own: string, gs: seq<seq<Condition>>, q: nat, cs: seq<Condition>, i: nat)
    requires forall k :: 0 <= k < |gs| ==> |gs[k]| > 0
  {
    && q < |gs|
    && i == |Flatten(HideGroups(n, own, gs[..q]))| + |HideGroup(n, own, gs[q])|
    && Holding(cs, Flatten(HideGroups(n, own, gs[..q])), HideGroup(n, own, gs[q]), Flatten(gs[q + 1..]))
  }

  lemma VisitShrinks(n: Naming, own: string, cs: seq<Condition>, i: nat)
    requires i < |cs|
    ensures var v := VisitHide(n, own, cs, i); 0 <= |v.0| - v.1 < |cs| - i
  {
  }

  lemma ParsedGroupsPiped(cs: seq<Condition>)
    requires SepsIn(cs, CONDITION_SEPS)
    ensures PipedGroups(GroupsOf(cs))
  {
    forall q | 0 <= q < |GroupsOf(cs)|
      ensures |GroupsOf(cs)[q]| > 0 && PipesInside(GroupsOf(cs)[q])
      ensures q > 0 ==> GroupsOf(cs)[q][0].sep == '&'
    {
      GroupSeps(cs, q);
    }
  }

  /** Where the loop stands: inside some group, or past the last. */
  ghost predicate HidingState(n: Naming, own: string, gs: seq<seq<Condition>>, q: nat, p: nat, cs: seq<Condition>,
                              i: nat)
    requires forall k :: 0 <= k < |gs| ==> |gs[k]| > 0
  {
    if q < |gs| then i < |cs| && HidingAt(n, own, gs, q, p, cs, i) else HidingDone(n, own, gs, cs, i)
  }

  lemma HidingInside(n: Naming, own: string, gs: seq<seq<Condition>>, q: nat, p: nat, cs: seq<Condition>, i: nat)
    requires PipedGroups(gs) && HidingAt(n, own, gs, q, p, cs, i)
    ensures HidingState(n, own, gs, q, p, cs, i)
  {
    HidingStep(n, own, gs, q, p, cs, i);
  }

  lemma HidingStartsAt(n: Naming, own: string, gs: seq<seq<Condition>>)
    requires PipedGroups(gs) && |gs| > 0
    ensures HidingAt(n, own, gs, 0, 0, Flatten(gs), 0)
  {
    assert gs == [gs[0]] + gs[1..];
    FlattenCons(gs[0], gs[1..]);
    PartEditedStart(gs[0], HideEdits(n, own, gs[0]));
    assert gs[..0] == [];
    assert [] + gs[0] + Flatten(gs[1..]) == gs[0] + Flatten(gs[1..]);
  }

  lemma HidingStart(n: Naming, own: string, cs: seq<Condition>)
    requires SepsIn(cs, CONDITION_SEPS)
    ensures PipedGroups(GroupsOf(cs)) && HidingState(n, own, GroupsOf(cs), 0, 0, cs, 0)
  {
    ParsedGroupsPiped(cs);
    FlattenGroups(cs);
    if |cs| > 0 {
      HidingStartsAt(n, own, GroupsOf(cs));
      HidingInside(n, own, GroupsOf(cs), 0, 0, cs, 0);
    }
  }

  /** After a finished group the loop stands in the next, or past the last. */
  lemma HidingTurns(n: Naming, own: string, gs: seq<seq<Condition>>, q: nat, cs: seq<Condition>, i: nat)
    requires PipedGroups(gs) && q < |gs| && HidingPast(n, own, gs, q, |gs[q]|, cs, i)
    ensures HidingState(n, own, gs, q + 1, 0, cs, i)
  {
    HidingFinishes(n, own, gs, q, |gs[q]|, cs, i);
    if q + 1 < |gs| {
      HidingNext(n, own, gs, q, cs, i);
      HidingInside(n, own, gs, q + 1, 0, cs, i);
    } else {
      HidingEnds(n, own, gs, cs, i);
    }
  }

  /** One visit moves the loop on by one member. */
  lemma HidingAdvance(n: Naming, own: string, gs: seq<seq<Condition>>, q: nat, p: nat, cs: seq<Condition>, i: nat)
    returns (r: nat, m: nat)
    requires PipedGroups(gs) && i < |cs| && HidingState(n, own, gs, q, p, cs, i)
    ensures HidingState(n, own, gs, r, m, VisitHide(n, own, cs, i).0, VisitHide(n, own, cs, i).1)
  {
    var v := VisitHide(n, own, cs, i);
    HidingStep(n, own, gs, q, p, cs, i);
    if p + 1 < |gs[q]| {
      r, m := q, p + 1;
      HidingInside(n, own, gs, r, m, v.0, v.1);
    } else {
      r, m := q + 1, 0;
      HidingTurns(n, own, gs, q, v.0, v.1);
    }
  }

  lemma HidingEnded(n: Naming, own: string, gs: seq<seq<Condition>>, q: nat, p: nat, cs: seq<Condition>, i: nat)
    requires PipedGroups(gs) && i >= |cs| && HidingState(n, own, gs, q, p, cs, i)
    ensures Unled(cs) == Unled(Flatten(HideGroups(n, own, gs)))
  {
  }

  /** Take the own label out of every `label=` clause, and the clause with it once nothing is left. */
  method TakeOwnOut(n: Naming, own: string, cs: seq<Condition>) returns (conditions: seq<Condition>)
    requires SepsIn(cs, CONDITION_SEPS)
    ensures Unled(conditions) == Unled(Flatten(HiddenGroups(n, own, cs)))
  {
    ghost var gs := GroupsOf(cs);
    HidingStart(n, own, cs);
    conditions := cs;
    var i := 0;
    ghost var q, p := 0, 0;
    while i < |conditions|
      invariant PipedGroups(gs) && 0 <= i <= |conditions| && q >= 0 && p >= 0
      invariant HidingState(n, own, gs, q, p, conditions, i)
      decreases |conditions| - i
    {
      VisitShrinks(n, own, conditions, i);
      q, p := HidingAdvance(n, own, gs, q, p, conditions, i);
      var v := VisitHide(n, own, conditions, i);
      conditions, i := v.0, v.1;
    }
    HidingEnded(n, own, gs, q, p, conditions, i);
  }

  // ----- the whole of it -----

  lemma ShownText(n: Naming, own: string, prefix: string, cs: seq<Condition>, dropped: seq<Condition>,
                  conditions: seq<Condition>)
    requires WellFormed(cs) && NoAmpersand(cs) && NonEmptyGroups(cs)
    requires Unled(dropped) == Unled(Flatten(DropGroups(n, own, GroupsOf(cs))))
    requires conditions == Flatten(AdmitGroups(n, own, prefix, HouseValueSep(cs), GroupsOf(dropped)))
    ensures Serialize(conditions) == Serialize(AdmitConditions(n, own, prefix, true, cs))
  {
    GoodGroupsOf(cs);
    DropGroupsGood(n, own, GroupsOf(cs));
    GoodIsShape(DropGroups(n, own, GroupsOf(cs)));
    AdmitUnled(n, own, prefix, HouseValueSep(cs), dropped, DropGroups(n, own, GroupsOf(cs)));
    UnledText(conditions);
  }

  method AdmitOwnRows(n: Naming, raw: string, own: string, prefix: string, show: bool) returns (r: Result<string>)
    ensures r == Admit(n, raw, own, prefix, show)
  {
    var parsed := ParseFilter(raw);
    if parsed.Err? {
      return Err(Unparseable);
    }
    var cs := parsed.value;
    if LiteralAmpersand(cs) {
      return Err(Ambiguous);
    }
    ParseRoundTrip(raw);
    NoLiteralAmpersand(cs);
    var houseValueSep := HouseValueSep(cs);
    var conditions;
    if !show {
      conditions := TakeOwnOut(n, own, cs);
      UnledText(conditions);
    } else {
      var dropped := DropOwnClauses(n, own, cs);
      conditions := AdmitIntoGroups(n, own, prefix, houseValueSep, dropped);
      ShownText(n, own, prefix, cs, dropped, conditions);
    }
    var admitted := Serialize(conditions);
    r := Ok(if admitted == raw then raw else admitted);
  }
}
