/** Building the shelf by insertion: a row is put next to its target as soon as the target has a place. */
module ShelfBuild {
  import opened Options
  import opened ShelfOrder

  // ----- lists of rows -----

  ghost predicate NoRepeats(xs: seq<string>) {
    forall i, j :: 0 <= i < j < |xs| ==> xs[i] != xs[j]
  }

  function Members(xs: seq<string>): set<string> {
    set x | x in xs
  }

  function NotIn(xs: seq<string>, gone: set<string>): (rest: seq<string>)
    ensures forall x :: x in rest <==> x in xs && x !in gone
  {
    if |xs| == 0 then []
    else
      var x := xs[|xs| - 1];
      NotIn(xs[..|xs| - 1], gone) + (if x in gone then [] else [x])
  }

  function Roots(p: Placements, xs: seq<string>): seq<string> {
    if |xs| == 0 then []
    else
      var x := xs[|xs| - 1];
      Roots(p, xs[..|xs| - 1]) + (if TargetOf(p, x).None? then [x] else [])
  }

  function Insert(xs: seq<string>, at: nat, x: string): (ys: seq<string>)
    requires at <= |xs|
    ensures |ys| == |xs| + 1 && ys[at] == x
    ensures forall i :: 0 <= i < at ==> ys[i] == xs[i]
    ensures forall i :: at <= i < |xs| ==> ys[i + 1] == xs[i]
  {
    xs[..at] + [x] + xs[at..]
  }

  function IndexOf(xs: seq<string>, x: string): (i: nat)
    requires x in xs
    ensures i < |xs| && xs[i] == x
  {
    if xs[0] == x then 0 else 1 + IndexOf(xs[1..], x)
  }

  /** Where the element now at `i` stood before the insertion, for any other place than `at`. */
  function Was(at: nat, i: nat): (j: int)
    ensures i != at ==> 0 <= j
  {
    if i < at then i else i - 1
  }

  lemma InsertedAt(xs: seq<string>, at: nat, x: string, i: nat)
    requires at <= |xs| && i <= |xs| && i != at
    ensures Was(at, i) < |xs| && Insert(xs, at, x)[i] == xs[Was(at, i)]
  {
  }

  lemma InsertMembers(xs: seq<string>, at: nat, x: string)
    requires at <= |xs|
    ensures Members(Insert(xs, at, x)) == Members(xs) + {x}
    ensures multiset(Insert(xs, at, x)) == multiset(xs) + multiset{x}
  {
    assert xs == xs[..at] + xs[at..];
  }

  lemma InsertNoRepeats(xs: seq<string>, at: nat, x: string)
    requires at <= |xs| && NoRepeats(xs) && x !in xs
    ensures NoRepeats(Insert(xs, at, x))
  {
    var ys := Insert(xs, at, x);
    forall i, j | 0 <= i < j < |ys|
      ensures ys[i] != ys[j]
    {
      if i != at {
        InsertedAt(xs, at, x, i);
      }
      if j != at {
        InsertedAt(xs, at, x, j);
      }
    }
  }

  lemma NotInSnoc(xs: seq<string>, x: string, gone: set<string>)
    ensures NotIn(xs + [x], gone) == NotIn(xs, gone) + (if x in gone then [] else [x])
  {
    assert (xs + [x])[..|xs|] == xs;
  }

  lemma {:induction false} NotInTwice(xs: seq<string>, gone: set<string>, x: string)
    ensures NotIn(NotIn(xs, gone), {x}) == NotIn(xs, gone + {x})
  {
    hide NotIn;
    if |xs| == 0 {
      NothingIn(gone);
      NothingIn({x});
      NothingIn(gone + {x});
    } else {
      var init, y := xs[..|xs| - 1], xs[|xs| - 1];
      NotInTwice(init, gone, x);
      assert xs == init + [y];
      NotInSnoc(init, y, gone);
      NotInSnoc(init, y, gone + {x});
      NotInSnoc(NotIn(init, gone), y, {x});
      assert NotIn(init, gone) + [] == NotIn(init, gone);
    }
  }

  lemma NothingIn(gone: set<string>)
    ensures NotIn([], gone) == []
  {
  }

  lemma {:induction false} NotInShorter(xs: seq<string>, x: string)
    requires x in xs
    ensures |NotIn(xs, {x})| < |xs|
  {
    NotInNoLonger(xs[..|xs| - 1], {x});
    if xs[|xs| - 1] != x {
      NotInShorter(xs[..|xs| - 1], x);
    }
  }

  lemma {:induction false} NotInNoLonger(xs: seq<string>, gone: set<string>)
    ensures |NotIn(xs, gone)| <= |xs|
  {
    if |xs| > 0 {
      NotInNoLonger(xs[..|xs| - 1], gone);
    }
  }

  lemma {:induction false} NotInNoRepeats(xs: seq<string>, gone: set<string>)
    requires NoRepeats(xs)
    ensures NoRepeats(NotIn(xs, gone))
  {
    if |xs| > 0 {
      NotInNoRepeats(xs[..|xs| - 1], gone);
    }
  }

  lemma {:induction false} RootsConcat(p: Placements, a: seq<string>, b: seq<string>)
    ensures Roots(p, a + b) == Roots(p, a) + Roots(p, b)
  {
    if |b| == 0 {
      assert a + b == a;
    } else {
      RootsConcat(p, a, b[..|b| - 1]);
      assert (a + b)[..|a + b| - 1] == a + b[..|b| - 1];
    }
  }

  lemma RootsOfOne(p: Placements, x: string)
    ensures Roots(p, [x]) == if TargetOf(p, x).None? then [x] else []
  {
    assert [x][..0] == [];
    assert Roots(p, []) == [];
  }

  lemma InsertRoots(p: Placements, xs: seq<string>, at: nat, x: string)
    requires at <= |xs|
    ensures TargetOf(p, x).Some? ==> Roots(p, Insert(xs, at, x)) == Roots(p, xs)
    ensures TargetOf(p, x).None? && at == |xs| ==> Roots(p, Insert(xs, at, x)) == Roots(p, xs) + [x]
  {
    hide Roots;
    var a, b := xs[..at], xs[at..];
    RootsOfOne(p, x);
    RootsConcat(p, a, [x]);
    RootsConcat(p, a + [x], b);
    RootsConcat(p, a, b);
    assert xs == a + b && Insert(xs, at, x) == a + [x] + b;
    assert at == |xs| ==> a == xs && Insert(xs, at, x) == xs + [x];
    assert Roots(p, a) + [] == Roots(p, a);
  }

  // ----- what the order built so far keeps -----

  predicate GoesAbove(p: Placements, slug: string) {
    slug in p && p[slug].before
  }

  /** Every row is on its named side of its target. */
  ghost predicate Sided(p: Placements, order: seq<string>) {
    forall i, j :: 0 <= i < |order| && 0 <= j < |order| && TargetOf(p, order[i]) == Some(order[j]) ==>
      if GoesAbove(p, order[i]) then i < j else j < i
  }

  /** Every row's target is there too, and its chain ends. */
  ghost predicate Closed(p: Placements, order: seq<string>) {
    forall i :: 0 <= i < |order| ==>
      (TargetOf(p, order[i]).Some? ==> TargetOf(p, order[i]).value in order) && ChainEnds(p, order[i])
  }

  /** The rows following a row make up one block, directly below it. */
  ghost predicate Blocks(p: Placements, order: seq<string>) {
    forall i, k :: 0 <= i < |order| && 0 <= k < |order| && Follows(p, order[k], order[i]) ==>
      i < k && forall j :: i < j < k ==> Follows(p, order[j], order[i])
  }

  predicate AllAfter(p: Placements) {
    forall slug :: slug in p ==> !GoesAbove(p, slug)
  }

  ghost predicate Good(p: Placements, order: seq<string>) {
    NoRepeats(order) && Closed(p, order) && Sided(p, order) && (AllAfter(p) ==> Blocks(p, order))
  }

  /** Nobody already placed follows a row that is not. */
  lemma {:induction false} PlacedFollowPlaced(p: Placements, order: seq<string>, slug: string, n: nat)
    requires Closed(p, order) && slug in order && Up(p, slug, n).Some?
    ensures Up(p, slug, n).value in order
  {
    if n > 0 {
      PlacedFollowPlaced(p, order, slug, n - 1);
    }
  }

  lemma NoneFollowsUnplaced(p: Placements, order: seq<string>, slug: string, x: string)
    requires Closed(p, order) && slug in order && x !in order
    ensures !Follows(p, slug, x) && TargetOf(p, slug) != Some(x)
  {
    if Follows(p, slug, x) {
      var n: nat :| n > 0 && Up(p, slug, n) == Some(x);
      PlacedFollowPlaced(p, order, slug, n);
    }
    FollowsByTarget(p, slug, x);
  }

  // ----- placing one row -----

  /** The place for a row after its target: below everything already following the target. */
  ghost predicate AfterSpot(p: Placements, order: seq<string>, target: string, at: nat) {
    && target in order && IndexOf(order, target) < at <= |order|
    && (forall j :: IndexOf(order, target) < j < at ==> Follows(p, order[j], target) && !GoesAbove(p, order[j]))
    && (at < |order| ==> !(Follows(p, order[at], target) && !GoesAbove(p, order[at])))
  }

  /** The place the row is put: at the end, at its target's own place, or after everything following the target. */
  ghost predicate Spot(p: Placements, order: seq<string>, slug: string, at: nat)
    requires slug in p
  {
    var target := TargetOf(p, slug);
    if target.None? then at == |order|
    else target.value in order
         && if GoesAbove(p, slug) then at == IndexOf(order, target.value) else AfterSpot(p, order, target.value, at)
  }

  lemma InsertKeepsClosed(p: Placements, order: seq<string>, slug: string, at: nat)
    requires Closed(p, order) && slug in p && at <= |order| && slug !in order
    requires TargetOf(p, slug).Some? ==> TargetOf(p, slug).value in order
    ensures Closed(p, Insert(order, at, slug))
  {
    var next := Insert(order, at, slug);
    InsertMembers(order, at, slug);
    forall i | 0 <= i < |next|
      ensures (TargetOf(p, next[i]).Some? ==> TargetOf(p, next[i]).value in next) && ChainEnds(p, next[i])
    {
      if i == at {
        ChainEndsByTarget(p, slug);
        if TargetOf(p, slug).Some? {
          var t := IndexOf(order, TargetOf(p, slug).value);
          assert ChainEnds(p, order[t]);
          assert TargetOf(p, slug).value in Members(next);
        }
      } else {
        InsertedAt(order, at, slug, i);
        var j := Was(at, i);
        assert TargetOf(p, order[j]).Some? ==> TargetOf(p, order[j]).value in Members(next);
      }
    }
  }

  lemma UniqueIndex(order: seq<string>, i: nat)
    requires NoRepeats(order) && i < |order|
    ensures IndexOf(order, order[i]) == i
  {
  }

  lemma NewRowSided(p: Placements, order: seq<string>, slug: string, at: nat, j: nat)
    requires NoRepeats(order) && slug in p && slug !in order && at <= |order| && Spot(p, order, slug, at)
    requires j <= |order| && TargetOf(p, slug) == Some(Insert(order, at, slug)[j])
    ensures if GoesAbove(p, slug) then at < j else j < at
  {
    InsertedAt(order, at, slug, j);
    UniqueIndex(order, Was(at, j));
  }

  lemma InsertKeepsSided(p: Placements, order: seq<string>, slug: string, at: nat)
    requires NoRepeats(order) && Closed(p, order) && Sided(p, order)
    requires slug in p && slug !in order && at <= |order| && Spot(p, order, slug, at)
    ensures Sided(p, Insert(order, at, slug))
  {
    var next := Insert(order, at, slug);
    forall i, j | 0 <= i < |next| && 0 <= j < |next| && TargetOf(p, next[i]) == Some(next[j])
      ensures if GoesAbove(p, next[i]) then i < j else j < i
    {
      if i == at {
        NewRowSided(p, order, slug, at, j);
      } else {
        InsertedAt(order, at, slug, i);
        NoneFollowsUnplaced(p, order, next[i], slug);
        InsertedAt(order, at, slug, j);
      }
    }
  }

  /** Nobody follows the new row, itself included. */
  lemma NewRowUnfollowed(p: Placements, order: seq<string>, slug: string, at: nat, k: nat)
    requires Closed(p, order) && slug !in order && at <= |order| && k <= |order|
    requires TargetOf(p, slug).Some? ==> TargetOf(p, slug).value in order
    ensures !Follows(p, Insert(order, at, slug)[k], slug)
  {
    if k == at {
      FollowsByTarget(p, slug, slug);
      if TargetOf(p, slug).Some? {
        NoneFollowsUnplaced(p, order, TargetOf(p, slug).value, slug);
      }
    } else {
      InsertedAt(order, at, slug, k);
      NoneFollowsUnplaced(p, order, order[Was(at, k)], slug);
    }
  }

  /** The new row joins the block of everything it follows. */
  lemma NewRowJoins(p: Placements, order: seq<string>, slug: string, at: nat, i: nat)
    requires AllAfter(p) && Blocks(p, order) && slug in p && at <= |order| && Spot(p, order, slug, at)
    requires NoRepeats(order) && i < |order| && Follows(p, slug, order[i])
    ensures i < at && forall j :: i < j < at ==> Follows(p, order[j], order[i])
  {
    FollowsByTarget(p, slug, order[i]);
    var t := TargetOf(p, slug).value;
    var a := IndexOf(order, t);
    UniqueIndex(order, i);
    forall j | i < j < at
      ensures Follows(p, order[j], order[i])
    {
      if j > a && t != order[i] {
        FollowsTransitively(p, order[j], t, order[i]);
      }
    }
  }

  lemma NoneBelowSpot(p: Placements, order: seq<string>, t: string, at: nat, k: nat)
    requires AllAfter(p) && Blocks(p, order) && AfterSpot(p, order, t, at) && at <= k < |order|
    ensures !Follows(p, order[k], t)
  {
    if Follows(p, order[k], order[IndexOf(order, t)]) {
      BlockReaches(p, order, IndexOf(order, t), at, k);
    }
  }

  lemma BlockReaches(p: Placements, order: seq<string>, i: nat, j: nat, k: nat)
    requires Blocks(p, order) && i < j <= k < |order| && Follows(p, order[k], order[i])
    ensures Follows(p, order[j], order[i])
  {
  }

  /** A block the new row lands inside is one it belongs to. */
  lemma NewRowBelongs(p: Placements, order: seq<string>, slug: string, at: nat, i: nat, k: nat)
    requires AllAfter(p) && Blocks(p, order) && slug in p && at <= |order| && Spot(p, order, slug, at)
    requires i < at <= k < |order| && Follows(p, order[k], order[i])
    ensures Follows(p, slug, order[i])
  {
    var t := TargetOf(p, slug).value;
    var a := IndexOf(order, t);
    NoneBelowSpot(p, order, t, at, k);
    if i > a {
      FollowsTransitively(p, order[k], order[i], t);
    }
    FollowsByTarget(p, slug, order[i]);
  }

  lemma InsertKeepsBlocks(p: Placements, order: seq<string>, slug: string, at: nat)
    requires AllAfter(p) && NoRepeats(order) && Closed(p, order) && Blocks(p, order)
    requires slug in p && slug !in order && at <= |order| && Spot(p, order, slug, at)
    ensures Blocks(p, Insert(order, at, slug))
  {
    var next := Insert(order, at, slug);
    forall i, k | 0 <= i < |next| && 0 <= k < |next| && Follows(p, next[k], next[i])
      ensures i < k && forall j :: i < j < k ==> Follows(p, next[j], next[i])
    {
      BlockInto(p, order, slug, at, i, k);
    }
  }

  lemma BlockInto(p: Placements, order: seq<string>, slug: string, at: nat, i: nat, k: nat)
    requires AllAfter(p) && NoRepeats(order) && Closed(p, order) && Blocks(p, order)
    requires slug in p && slug !in order && at <= |order| && Spot(p, order, slug, at)
    requires i <= |order| && k <= |order|
    requires Follows(p, Insert(order, at, slug)[k], Insert(order, at, slug)[i])
    ensures i < k
    ensures forall j :: i < j < k ==> Follows(p, Insert(order, at, slug)[j], Insert(order, at, slug)[i])
  {
    hide Follows;
    NewRowUnfollowed(p, order, slug, at, k);
    var next := Insert(order, at, slug);
    InsertedAt(order, at, slug, i);
    var w := Was(at, i);
    if k == at {
      NewRowJoins(p, order, slug, at, w);
    } else {
      InsertedAt(order, at, slug, k);
      if w < at <= Was(at, k) {
        NewRowBelongs(p, order, slug, at, w, Was(at, k));
      }
    }
    forall j | i < j < k
      ensures Follows(p, next[j], next[i])
    {
      if j != at {
        InsertedAt(order, at, slug, j);
      }
    }
  }

  /** A row put where it belongs keeps the order good. */
  lemma InsertKeepsGood(p: Placements, order: seq<string>, slug: string, at: nat)
    requires Good(p, order) && slug in p && slug !in order && at <= |order| && Spot(p, order, slug, at)
    ensures Good(p, Insert(order, at, slug))
  {
    InsertNoRepeats(order, at, slug);
    InsertKeepsClosed(p, order, slug, at);
    InsertKeepsSided(p, order, slug, at);
    if AllAfter(p) {
      InsertKeepsBlocks(p, order, slug, at);
    }
  }

  // ----- rows that share a target -----

  function Rank(declared: seq<string>, x: string): int {
    if x in declared then IndexOf(declared, x) else -1
  }

  /** Which of two rows sharing a target is placed first: the one declared earlier, except that one declared behind the
      target comes before one declared ahead of it, which has to wait for the next sweep. */
  predicate Earlier(declared: seq<string>, target: string, x: string, y: string) {
    var a, b, t := Rank(declared, x), Rank(declared, y), Rank(declared, target);
    if (a > t) == (b > t) then a < b else a > t
  }

  /** Two rows on one side of the same target; on the lower side, only while no row asks to be above another. */
  ghost predicate Siblings(p: Placements, x: string, y: string) {
    && TargetOf(p, x).Some? && TargetOf(p, x) == TargetOf(p, y)
    && GoesAbove(p, x) == GoesAbove(p, y) && (GoesAbove(p, x) || AllAfter(p))
  }

  /** Siblings stand in the order they were placed in. */
  ghost predicate InTurn(p: Placements, declared: seq<string>, order: seq<string>) {
    forall i, j :: 0 <= i < j < |order| && Siblings(p, order[i], order[j]) ==>
      Earlier(declared, TargetOf(p, order[i]).value, order[i], order[j])
  }

  /** What is placed comes before what still waits for the same target. */
  ghost predicate Awaits(p: Placements, declared: seq<string>, order: seq<string>, pending: seq<string>) {
    forall u, r :: u in order && r in pending && TargetOf(p, u).Some? && TargetOf(p, u) == TargetOf(p, r) ==>
      Earlier(declared, TargetOf(p, u).value, u, r)
  }

  /** A row that still waits though its target has a place is declared ahead of it. */
  ghost predicate Late(p: Placements, declared: seq<string>, order: seq<string>, pending: seq<string>) {
    forall r :: r in pending && TargetOf(p, r).Some? && TargetOf(p, r).value in order ==>
      Rank(declared, r) < Rank(declared, TargetOf(p, r).value)
  }

  /** The same in the middle of a sweep, of which `done` has been visited. */
  ghost predicate Overdue(p: Placements, declared: seq<string>, order: seq<string>, done: seq<string>,
                          rest: seq<string>)
  {
    forall r :: r in rest && TargetOf(p, r).Some? && TargetOf(p, r).value in order ==>
      var t := TargetOf(p, r).value;
      if r in done then Rank(declared, r) < Rank(declared, t) && t in done
      else Rank(declared, r) < Rank(declared, t) || t in done
  }

  lemma {:induction false} IndexOfPrefix(xs: seq<string>, ys: seq<string>, x: string)
    requires x in xs
    ensures x in xs + ys && IndexOf(xs + ys, x) == IndexOf(xs, x)
    decreases |xs|
  {
    var all := xs + ys;
    assert all[0] == xs[0];
    if xs[0] != x {
      assert all[1..] == xs[1..] + ys;
      IndexOfPrefix(xs[1..], ys, x);
    }
  }

  lemma LastRank(xs: seq<string>)
    requires |xs| > 0 && NoRepeats(xs)
    ensures Rank(xs, xs[|xs| - 1]) == |xs| - 1
    ensures forall x :: x in xs[..|xs| - 1] ==> Rank(xs, x) == Rank(xs[..|xs| - 1], x) < |xs| - 1
  {
    var init := xs[..|xs| - 1];
    UniqueIndex(xs, |xs| - 1);
    forall x | x in init
      ensures Rank(xs, x) == Rank(init, x) < |xs| - 1
    {
      IndexOfPrefix(init, [xs[|xs| - 1]], x);
      assert init + [xs[|xs| - 1]] == xs;
    }
  }

  /** Rows left of the declared ones keep their order. */
  lemma {:induction false} NotInRanked(xs: seq<string>, gone: set<string>, i: nat, j: nat)
    requires NoRepeats(xs) && i < j < |NotIn(xs, gone)|
    ensures Rank(xs, NotIn(xs, gone)[i]) < Rank(xs, NotIn(xs, gone)[j])
    decreases |xs|
  {
    hide Rank;
    var init, rest := xs[..|xs| - 1], NotIn(xs[..|xs| - 1], gone);
    LastRank(xs);
    assert rest[i] in init;
    if j < |rest| {
      assert rest[j] in init;
      NotInRanked(init, gone, i, j);
    }
  }

  /** A row put at its spot stands below every sibling placed before it. */
  lemma BelowSiblings(p: Placements, order: seq<string>, slug: string, at: nat, k: nat)
    requires Good(p, order) && slug in p && at <= |order| && Spot(p, order, slug, at)
    requires k < |order| && Siblings(p, order[k], slug)
    ensures k < at
  {
    var t := TargetOf(p, slug).value;
    if GoesAbove(p, slug) {
      assert TargetOf(p, order[k]) == Some(order[IndexOf(order, t)]);
    } else if k >= at {
      NoneBelowSpot(p, order, t, at, k);
      FollowsByTarget(p, order[k], t);
    }
  }

  lemma InsertInTurn(p: Placements, declared: seq<string>, order: seq<string>, pending: seq<string>, slug: string,
                     at: nat)
    requires Good(p, order) && slug in p && slug !in order && at <= |order| && Spot(p, order, slug, at)
    requires InTurn(p, declared, order) && Awaits(p, declared, order, pending) && slug in pending
    ensures InTurn(p, declared, Insert(order, at, slug))
  {
    hide Good;
    hide Spot;
    hide Earlier;
    var next := Insert(order, at, slug);
    forall i, j | 0 <= i < j < |next| && Siblings(p, next[i], next[j])
      ensures Earlier(declared, TargetOf(p, next[i]).value, next[i], next[j])
    {
      if i == at {
        InsertedAt(order, at, slug, j);
        BelowSiblings(p, order, slug, at, Was(at, j));
        assert false;
      } else {
        InsertedAt(order, at, slug, i);
        if j != at {
          InsertedAt(order, at, slug, j);
        }
      }
    }
  }

  /** A row still waiting when another of its target is placed comes after it. */
  lemma StillLater(p: Placements, declared: seq<string>, order: seq<string>, done: seq<string>, rest: seq<string>,
                   slug: string, r: string)
    requires Overdue(p, declared, order, done, rest) && slug in rest && r in rest && r != slug && slug !in done
    requires TargetOf(p, slug).Some? && TargetOf(p, slug) == TargetOf(p, r) && TargetOf(p, slug).value in order
    requires forall x :: x in done ==> Rank(declared, x) < Rank(declared, slug)
    requires r !in done ==> Rank(declared, slug) < Rank(declared, r)
    ensures Earlier(declared, TargetOf(p, slug).value, slug, r)
  {
    hide Rank;
    hide TargetOf;
  }

  /** Nothing waits for a row that has just been placed while another already stands there. */
  lemma TakenAwaits(p: Placements, declared: seq<string>, order: seq<string>, done: seq<string>, rest: seq<string>,
                    slug: string, next: seq<string>)
    requires Good(p, order) && Awaits(p, declared, order, rest) && Overdue(p, declared, order, done, rest)
    requires slug in rest && slug !in done && slug !in order && Members(next) == Members(order) + {slug}
    requires TargetOf(p, slug).Some? ==> TargetOf(p, slug).value in order
    requires forall x :: x in done ==> Rank(declared, x) < Rank(declared, slug)
    requires forall r :: r in rest && r !in done && r != slug ==> Rank(declared, slug) < Rank(declared, r)
    ensures Awaits(p, declared, next, NotIn(rest, {slug}))
    ensures Overdue(p, declared, next, done + [slug], NotIn(rest, {slug}))
  {
    hide Good;
    hide Rank;
    hide Earlier;
    hide TargetOf;
    var less, later := NotIn(rest, {slug}), done + [slug];
    forall u, r | u in next && r in less && TargetOf(p, u).Some? && TargetOf(p, u) == TargetOf(p, r)
      ensures Earlier(declared, TargetOf(p, u).value, u, r)
    {
      assert u in Members(next);
      if u == slug {
        StillLater(p, declared, order, done, rest, slug, r);
      }
    }
    forall r | r in less && TargetOf(p, r).Some? && TargetOf(p, r).value in next
      ensures var t := TargetOf(p, r).value;
              if r in later then Rank(declared, r) < Rank(declared, t) && t in later
              else Rank(declared, r) < Rank(declared, t) || t in later
    {
      assert TargetOf(p, r).value in Members(next);
      assert r in later <==> r in done;
    }
  }

  lemma BlockedOverdue(p: Placements, declared: seq<string>, order: seq<string>, done: seq<string>, rest: seq<string>,
                       slug: string)
    requires Overdue(p, declared, order, done, rest)
    requires TargetOf(p, slug).Some? && TargetOf(p, slug).value !in order
    ensures Overdue(p, declared, order, done + [slug], rest)
  {
    hide Rank;
    hide TargetOf;
    forall r | r in rest && TargetOf(p, r).Some? && TargetOf(p, r).value in order
      ensures var t, later := TargetOf(p, r).value, done + [slug];
              if r in later then Rank(declared, r) < Rank(declared, t) && t in later
              else Rank(declared, r) < Rank(declared, t) || t in later
    {
      assert r in done + [slug] <==> r in done;
    }
  }

  // ----- the build -----

  method FindSpot(p: Placements, order: seq<string>, target: string) returns (at: nat)
    requires target in order
    ensures AfterSpot(p, order, target, at)
  {
    at := IndexOf(order, target) + 1;
    while at < |order|
      invariant IndexOf(order, target) < at <= |order|
      invariant forall j :: IndexOf(order, target) < j < at ==> Follows(p, order[j], target) && !GoesAbove(p, order[j])
    {
      var below := FollowsChain(p, order[at], target);
      if !below || GoesAbove(p, order[at]) {
        return;
      }
      at := at + 1;
    }
  }

  /** Places a row whose target, if any, has a place. */
  method PlaceRow(p: Placements, order: seq<string>, slug: string) returns (next: seq<string>, ghost spot: nat)
    requires Good(p, order) && slug in p && slug !in order
    requires TargetOf(p, slug).Some? ==> TargetOf(p, slug).value in order
    ensures spot <= |order| && Spot(p, order, slug, spot) && next == Insert(order, spot, slug)
    ensures Good(p, next) && Members(next) == Members(order) + {slug}
    ensures multiset(next) == multiset(order) + multiset{slug}
    ensures Roots(p, next) == Roots(p, order) + (if TargetOf(p, slug).None? then [slug] else [])
  {
    hide Good;
    hide Roots;
    var target := TargetOf(p, slug);
    var at := |order|;
    if target.Some? {
      if GoesAbove(p, slug) {
        at := IndexOf(order, target.value);
      } else {
        at := FindSpot(p, order, target.value);
      }
    }
    InsertKeepsGood(p, order, slug, at);
    InsertMembers(order, at, slug);
    InsertRoots(p, order, at, slug);
    next, spot := Insert(order, at, slug), at;
  }

  /** Placed rows and rows still to place share out the declared ones. */
  ghost predicate Shared(p: Placements, declared: seq<string>, order: seq<string>, pending: seq<string>) {
    && Good(p, order) && Members(order) <= Members(declared)
    && pending == NotIn(declared, Members(order))
  }

  lemma TakeStep(p: Placements, declared: seq<string>, order: seq<string>, pending: seq<string>, slug: string,
                 next: seq<string>)
    requires Shared(p, declared, order, pending) && slug in pending
    requires Good(p, next) && Members(next) == Members(order) + {slug}
    ensures Shared(p, declared, next, NotIn(pending, {slug})) && |NotIn(pending, {slug})| < |pending|
  {
    hide Good;
    NotInTwice(declared, Members(order), slug);
    NotInShorter(pending, slug);
  }

  /** Rows that all point at each other have chains that never end. */
  lemma {:induction false} LoopNeverEnds(p: Placements, loop: set<string>, slug: string, n: nat)
    requires forall x :: x in loop ==> TargetOf(p, x).Some? && TargetOf(p, x).value in loop
    requires slug in loop
    ensures Up(p, slug, n).Some? && Up(p, slug, n).value in loop
  {
    if n > 0 {
      LoopNeverEnds(p, loop, slug, n - 1);
    }
  }

  ghost predicate Blocked(p: Placements, order: seq<string>, slug: string) {
    TargetOf(p, slug).Some? && TargetOf(p, slug).value !in order
  }

  lemma StuckIsLooped(p: Placements, declared: seq<string>, order: seq<string>, pending: seq<string>)
    requires Shared(p, declared, order, pending) && p.Keys == Members(declared)
    requires forall x :: x in pending ==> Blocked(p, order, x)
    ensures forall x :: x in pending ==> !ChainEnds(p, x)
  {
    forall x | x in pending
      ensures !ChainEnds(p, x)
    {
      forall n: nat
        ensures Up(p, x, n).Some?
      {
        LoopNeverEnds(p, Members(pending), x, n);
      }
    }
  }

  lemma RootsSnoc(p: Placements, xs: seq<string>, x: string)
    ensures Roots(p, xs + [x]) == Roots(p, xs) + (if TargetOf(p, x).None? then [x] else [])
  {
    assert (xs + [x])[..|xs|] == xs;
  }

  lemma {:induction false} NoRoots(p: Placements, xs: seq<string>)
    requires forall x :: x in xs ==> TargetOf(p, x).Some?
    ensures Roots(p, xs) == []
  {
    if |xs| > 0 {
      NoRoots(p, xs[..|xs| - 1]);
    }
  }

  /** A row passed over has a target. */
  ghost predicate RestTargeted(p: Placements, swept: seq<string>, i: nat, rest: seq<string>)
    requires i <= |swept|
  {
    forall x :: x in rest ==> x in swept[i..] || TargetOf(p, x).Some?
  }

  lemma RestStaysTargeted(p: Placements, swept: seq<string>, i: nat, rest: seq<string>)
    requires i < |swept| && RestTargeted(p, swept, i, rest)
    ensures RestTargeted(p, swept, i + 1, NotIn(rest, {swept[i]}))
  {
    assert swept[i..] == [swept[i]] + swept[i + 1..];
  }

  /** What one sweep over the rows still to place has done after `i` of them. */
  ghost predicate Swept(p: Placements, declared: seq<string>, before: seq<string>, swept: seq<string>, i: nat,
                        order: seq<string>, rest: seq<string>, progress: bool)
  {
    && i <= |swept| && Shared(p, declared, order, rest)
    && (forall j :: i <= j < |swept| ==> swept[j] !in order && swept[j] in declared)
    && RestTargeted(p, swept, i, rest)
    && Roots(p, order) == Roots(p, before) + Roots(p, swept[..i])
    && (if progress then |rest| < |swept|
        else rest == swept && order == before && forall j :: 0 <= j < i ==> Blocked(p, before, swept[j]))
  }

  lemma SweepBegins(p: Placements, declared: seq<string>, order: seq<string>, pending: seq<string>)
    requires Shared(p, declared, order, pending)
    ensures Swept(p, declared, order, pending, 0, order, pending, false)
  {
    assert pending[0..] == pending;
    forall j | 0 <= j < |pending|
      ensures pending[j] !in order && pending[j] in declared
    {
      assert pending[j] in pending;
      assert pending[j] !in Members(order);
    }
    assert Roots(p, pending[..0]) == [];
    assert Roots(p, order) + [] == Roots(p, order);
  }

  lemma SweepPasses(p: Placements, declared: seq<string>, before: seq<string>, swept: seq<string>, i: nat,
                    order: seq<string>, rest: seq<string>, progress: bool)
    requires Swept(p, declared, before, swept, i, order, rest, progress) && i < |swept|
    requires Blocked(p, order, swept[i])
    ensures Swept(p, declared, before, swept, i + 1, order, rest, progress)
  {
    hide Shared;
    hide Roots;
    hide TargetOf;
    hide RestTargeted;
    RootsSnoc(p, swept[..i], swept[i]);
    assert swept[..i + 1] == swept[..i] + [swept[i]];
    assert Roots(p, swept[..i]) + [] == Roots(p, swept[..i]);
    RestPasses(p, swept, i, rest);
  }

  lemma RestPasses(p: Placements, swept: seq<string>, i: nat, rest: seq<string>)
    requires i < |swept| && RestTargeted(p, swept, i, rest) && TargetOf(p, swept[i]).Some?
    ensures RestTargeted(p, swept, i + 1, rest)
  {
    hide TargetOf;
    assert swept[i..] == [swept[i]] + swept[i + 1..];
  }

  lemma SweepTakes(p: Placements, declared: seq<string>, before: seq<string>, swept: seq<string>, i: nat,
                   order: seq<string>, rest: seq<string>, progress: bool, next: seq<string>)
    requires Swept(p, declared, before, swept, i, order, rest, progress) && i < |swept| && NoRepeats(swept)
    requires Good(p, next) && Members(next) == Members(order) + {swept[i]}
    requires Roots(p, next) == Roots(p, order) + (if TargetOf(p, swept[i]).None? then [swept[i]] else [])
    ensures Swept(p, declared, before, swept, i + 1, next, NotIn(rest, {swept[i]}), true)
  {
    hide Good;
    hide Roots;
    hide TargetOf;
    hide RestTargeted;
    var slug := swept[i];
    StillPending(p, declared, order, rest, slug);
    TakeStep(p, declared, order, rest, slug, next);
    hide Shared;
    TakenRoots(p, before, swept, i, order, next);
    LaterStillOut(order, next, swept, i);
    RestStaysTargeted(p, swept, i, rest);
    assert |rest| <= |swept|;
  }

  lemma StillPending(p: Placements, declared: seq<string>, order: seq<string>, rest: seq<string>, slug: string)
    requires Shared(p, declared, order, rest) && slug in declared && slug !in order
    ensures slug in rest
  {
    assert slug !in Members(order);
  }

  lemma LaterStillOut(order: seq<string>, next: seq<string>, swept: seq<string>, i: nat)
    requires i < |swept| && NoRepeats(swept) && Members(next) == Members(order) + {swept[i]}
    requires forall j :: i <= j < |swept| ==> swept[j] !in order
    ensures forall j :: i + 1 <= j < |swept| ==> swept[j] !in next
  {
    forall j | i + 1 <= j < |swept|
      ensures swept[j] !in next
    {
      assert swept[j] !in Members(order) + {swept[i]};
    }
  }

  lemma TakenRoots(p: Placements, before: seq<string>, swept: seq<string>, i: nat, order: seq<string>,
                   next: seq<string>)
    requires i < |swept| && Roots(p, order) == Roots(p, before) + Roots(p, swept[..i])
    requires Roots(p, next) == Roots(p, order) + (if TargetOf(p, swept[i]).None? then [swept[i]] else [])
    ensures Roots(p, next) == Roots(p, before) + Roots(p, swept[..i + 1])
  {
    hide Roots;
    RootsSnoc(p, swept[..i], swept[i]);
    assert swept[..i + 1] == swept[..i] + [swept[i]];
  }

  /** Whose turn it is between sweeps. */
  ghost predicate Turns(p: Placements, declared: seq<string>, order: seq<string>, pending: seq<string>) {
    InTurn(p, declared, order) && Awaits(p, declared, order, pending) && Late(p, declared, order, pending)
  }

  /** Whose turn it is after `i` of the rows of a sweep. */
  ghost predicate Turning(p: Placements, declared: seq<string>, order: seq<string>, swept: seq<string>, i: nat,
                          rest: seq<string>)
  {
    && i <= |swept| && InTurn(p, declared, order) && Awaits(p, declared, order, rest)
    && Overdue(p, declared, order, swept[..i], rest) && (forall r :: r in rest ==> r in swept)
  }

  lemma TurnsBegin(p: Placements, declared: seq<string>, order: seq<string>, pending: seq<string>)
    requires Turns(p, declared, order, pending)
    ensures Turning(p, declared, order, pending, 0, pending)
  {
    hide Rank;
    hide TargetOf;
    hide Earlier;
    assert pending[..0] == [];
  }

  lemma TurnsEnd(p: Placements, declared: seq<string>, order: seq<string>, swept: seq<string>, rest: seq<string>)
    requires Turning(p, declared, order, swept, |swept|, rest)
    ensures Turns(p, declared, order, rest)
  {
    hide Rank;
    hide TargetOf;
    hide Earlier;
    assert swept[..|swept|] == swept;
  }

  lemma TurnPasses(p: Placements, declared: seq<string>, order: seq<string>, swept: seq<string>, i: nat,
                   rest: seq<string>)
    requires Turning(p, declared, order, swept, i, rest) && i < |swept| && Blocked(p, order, swept[i])
    ensures Turning(p, declared, order, swept, i + 1, rest)
  {
    hide Rank;
    hide TargetOf;
    hide Earlier;
    BlockedOverdue(p, declared, order, swept[..i], rest, swept[i]);
    assert swept[..i + 1] == swept[..i] + [swept[i]];
  }

  /** Of the rows of a sweep, those before the one at hand are declared before it, and those after it after. */
  lemma SweptRanked(p: Placements, declared: seq<string>, before: seq<string>, swept: seq<string>, i: nat)
    requires Shared(p, declared, before, swept) && NoRepeats(declared) && i < |swept|
    ensures swept[i] !in swept[..i]
    ensures forall x :: x in swept[..i] ==> Rank(declared, x) < Rank(declared, swept[i])
    ensures forall x :: x in swept && x !in swept[..i] && x != swept[i] ==>
              Rank(declared, swept[i]) < Rank(declared, x)
  {
    hide Rank;
    hide Good;
    NotInNoRepeats(declared, Members(before));
    forall x | x in swept[..i]
      ensures Rank(declared, x) < Rank(declared, swept[i])
    {
      var a :| 0 <= a < i && swept[a] == x;
      NotInRanked(declared, Members(before), a, i);
    }
    forall x | x in swept && x !in swept[..i] && x != swept[i]
      ensures Rank(declared, swept[i]) < Rank(declared, x)
    {
      assert swept == swept[..i] + [swept[i]] + swept[i + 1..];
      var b :| 0 <= b < |swept| - i - 1 && swept[i + 1..][b] == x;
      NotInRanked(declared, Members(before), i, i + 1 + b);
    }
  }

  lemma TurnTakes(p: Placements, declared: seq<string>, before: seq<string>, swept: seq<string>, i: nat,
                  order: seq<string>, rest: seq<string>, at: nat)
    requires Turning(p, declared, order, swept, i, rest) && i < |swept|
    requires Shared(p, declared, before, swept) && Shared(p, declared, order, rest) && NoRepeats(declared)
    requires swept[i] in p && swept[i] in declared && swept[i] !in order
    requires at <= |order| && Spot(p, order, swept[i], at)
    ensures Turning(p, declared, Insert(order, at, swept[i]), swept, i + 1, NotIn(rest, {swept[i]}))
  {
    hide Rank;
    hide TargetOf;
    hide Earlier;
    hide Good;
    hide InTurn;
    hide Awaits;
    hide Overdue;
    hide Spot;
    hide NotIn;
    var slug := swept[i];
    SweptRanked(p, declared, before, swept, i);
    StillPending(p, declared, order, rest, slug);
    InsertMembers(order, at, slug);
    SpotTargeted(p, order, slug, at);
    InsertInTurn(p, declared, order, rest, slug, at);
    TakenAwaits(p, declared, order, swept[..i], rest, slug, Insert(order, at, slug));
    assert swept[..i + 1] == swept[..i] + [slug];
  }

  lemma SpotTargeted(p: Placements, order: seq<string>, slug: string, at: nat)
    requires slug in p && Spot(p, order, slug, at)
    ensures TargetOf(p, slug).Some? ==> TargetOf(p, slug).value in order
  {
  }

  /** One pass over the rows still to place. */
  method Sweep(p: Placements, declared: seq<string>, before: seq<string>, pending: seq<string>)
    returns (order: seq<string>, rest: seq<string>, progress: bool)
    requires Shared(p, declared, before, pending) && NoRepeats(pending) && p.Keys == Members(declared)
    requires NoRepeats(declared) && Turns(p, declared, before, pending)
    ensures Swept(p, declared, before, pending, |pending|, order, rest, progress)
    ensures Turns(p, declared, order, rest)
  {
    hide Swept;
    hide Turning;
    order, rest, progress := before, pending, false;
    SweepBegins(p, declared, before, pending);
    TurnsBegin(p, declared, before, pending);
    for i := 0 to |pending|
      invariant Swept(p, declared, before, pending, i, order, rest, progress)
      invariant Turning(p, declared, order, pending, i, rest)
    {
      SweepKnows(p, declared, before, pending, i, order, rest, progress);
      var slug := pending[i];
      var target := TargetOf(p, slug);
      if target.Some? && target.value !in order {
        SweepPasses(p, declared, before, pending, i, order, rest, progress);
        TurnPasses(p, declared, order, pending, i, rest);
        continue;
      }
      var next, spot := PlaceRow(p, order, slug);
      TurnTakes(p, declared, before, pending, i, order, rest, spot);
      SweepTakes(p, declared, before, pending, i, order, rest, progress, next);
      order, rest, progress := next, NotIn(rest, {slug}), true;
    }
    TurnsEnd(p, declared, order, pending, rest);
  }

  lemma SweepKnows(p: Placements, declared: seq<string>, before: seq<string>, swept: seq<string>, i: nat,
                   order: seq<string>, rest: seq<string>, progress: bool)
    requires Swept(p, declared, before, swept, i, order, rest, progress) && i < |swept|
    ensures swept[i] !in order && swept[i] in declared && Good(p, order) && Shared(p, declared, order, rest)
  {
  }

  // ----- the whole shelf -----

  lemma {:induction false} EachOnce(xs: seq<string>, x: string)
    requires NoRepeats(xs)
    ensures multiset(xs)[x] == if x in xs then 1 else 0
  {
    if |xs| > 0 {
      EachOnce(xs[..|xs| - 1], x);
      assert xs == xs[..|xs| - 1] + [xs[|xs| - 1]];
    }
  }

  lemma SharedIsAll(p: Placements, declared: seq<string>, order: seq<string>, pending: seq<string>)
    requires Shared(p, declared, order, pending) && NoRepeats(declared)
    ensures multiset(order + pending) == multiset(declared)
  {
    NotInNoRepeats(declared, Members(order));
    forall x
      ensures multiset(order + pending)[x] == multiset(declared)[x]
    {
      EachOnce(order, x);
      EachOnce(pending, x);
      EachOnce(declared, x);
      assert x in order <==> x in Members(order);
      assert x in declared <==> x in Members(declared);
    }
  }

  /** What the finished shelf is: the rows whose chain ends, placed, and then the rest in declared order. */
  ghost predicate Shelved(p: Placements, declared: seq<string>, placed: seq<string>, looped: seq<string>) {
    && multiset(placed + looped) == multiset(declared)
    && looped == NotIn(declared, Members(placed))
    && (forall x :: x in declared ==> (x in placed <==> ChainEnds(p, x)))
    && Closed(p, placed) && Sided(p, placed) && Roots(p, placed) == Roots(p, declared)
    && (AllAfter(p) ==> Blocks(p, placed)) && InTurn(p, declared, placed)
  }

  /** Of two siblings, the one declared earlier stands lower if and only if it is declared ahead of their target and
      the other behind it. */
  lemma SiblingsFlip(p: Placements, declared: seq<string>, placed: seq<string>, i: nat, j: nat)
    requires InTurn(p, declared, placed) && i < |placed| && j < |placed| && Siblings(p, placed[i], placed[j])
    requires Rank(declared, placed[i]) < Rank(declared, placed[j])
    ensures var t := Rank(declared, TargetOf(p, placed[i]).value);
            j < i <==> Rank(declared, placed[i]) <= t < Rank(declared, placed[j])
  {
    hide Rank;
    hide TargetOf;
  }

  lemma DoneIsShelved(p: Placements, declared: seq<string>, order: seq<string>, pending: seq<string>)
    requires Shared(p, declared, order, pending) && NoRepeats(declared) && p.Keys == Members(declared)
    requires forall x :: x in pending ==> Blocked(p, order, x)
    requires Roots(p, order) + Roots(p, pending) == Roots(p, declared) && InTurn(p, declared, order)
    ensures Shelved(p, declared, order, pending)
  {
    hide InTurn;
    SharedIsAll(p, declared, order, pending);
    StuckIsLooped(p, declared, order, pending);
    NoRoots(p, pending);
    forall x | x in declared
      ensures x in order <==> ChainEnds(p, x)
    {
      if x in order {
        PlacedEnds(p, order, x);
      } else {
        StillPending(p, declared, order, pending, x);
      }
    }
  }

  lemma PlacedEnds(p: Placements, order: seq<string>, x: string)
    requires Closed(p, order) && x in order
    ensures ChainEnds(p, x)
  {
  }

  lemma PendingDistinct(p: Placements, declared: seq<string>, order: seq<string>, pending: seq<string>)
    requires Shared(p, declared, order, pending) && NoRepeats(declared)
    ensures NoRepeats(pending)
  {
    NotInNoRepeats(declared, Members(order));
  }

  /** The shelf, and the rows placed relative to each other in a loop, which keep the declared order at its end. */
  method BuildOrder(p: Placements, declared: seq<string>) returns (order: seq<string>, looped: seq<string>)
    requires NoRepeats(declared) && p.Keys == Members(declared)
    ensures |looped| <= |order| && order[|order| - |looped|..] == looped
    ensures Shelved(p, declared, order[..|order| - |looped|], looped)
  {
    hide Shared;
    hide Shelved;
    hide Swept;
    hide NoRepeats;
    hide Roots;
    hide Blocked;
    hide InTurn;
    hide Awaits;
    hide Late;
    order, looped := [], [];
    var pending := declared;
    StartShared(p, declared);
    StartTurns(p, declared);
    while |pending| > 0
      invariant Shared(p, declared, order, pending) && Turns(p, declared, order, pending)
      invariant Roots(p, order) + Roots(p, pending) == Roots(p, declared)
      decreases |pending|
    {
      PendingDistinct(p, declared, order, pending);
      var next, rest, progress := Sweep(p, declared, order, pending);
      SweptAll(p, declared, order, pending, next, rest, progress);
      if !progress {
        DoneIsShelved(p, declared, order, pending);
        looped := pending;
        assert (order + looped)[..|order|] == order;
        order := order + looped;
        return;
      }
      order, pending := next, rest;
    }
    DoneIsShelved(p, declared, order, pending);
    assert order[..|order|] == order;
  }

  lemma {:induction false} NoneGone(xs: seq<string>)
    ensures NotIn(xs, {}) == xs
  {
    if |xs| > 0 {
      NoneGone(xs[..|xs| - 1]);
    }
  }

  lemma StartShared(p: Placements, declared: seq<string>)
    ensures Shared(p, declared, [], declared) && Roots(p, []) + Roots(p, declared) == Roots(p, declared)
  {
    NoneGone(declared);
    assert Members([]) == {};
  }

  lemma StartTurns(p: Placements, declared: seq<string>)
    ensures Turns(p, declared, [], declared)
  {
  }

  lemma SweptAll(p: Placements, declared: seq<string>, before: seq<string>, pending: seq<string>,
                 order: seq<string>, rest: seq<string>, progress: bool)
    requires Swept(p, declared, before, pending, |pending|, order, rest, progress)
    ensures Shared(p, declared, order, rest) && Roots(p, order) + Roots(p, rest) == Roots(p, before) + Roots(p, pending)
    ensures progress ==> |rest| < |pending|
    ensures !progress ==> forall x :: x in pending ==> Blocked(p, before, x)
  {
    hide Shared;
    hide Roots;
    hide Blocked;
    hide TargetOf;
    assert pending[..|pending|] == pending && pending[|pending|..] == [];
    NoRoots(p, rest);
    assert Roots(p, order) + [] == Roots(p, order);
  }
}
