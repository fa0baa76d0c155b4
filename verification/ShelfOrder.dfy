/** The order of one library's shelf: rows placed before or after other rows, over any graph of such wishes. */
module ShelfOrder {
  import opened Options

  /** Where one row asks to sit: by a landmark of its own, next to another row, or neither. */
  datatype Placement = Placement(title: string, row: string, before: bool)

  type Placements = map<string, Placement>

  /** The row this one is placed against, if that is another row placed here. */
  function TargetOf(p: Placements, slug: string): (t: Option<string>)
    ensures t.Some? ==> slug in p && t.value in p && t.value != slug
  {
    if slug !in p then None
    else
      var target := p[slug].row;
      if target != "" && target != slug && target in p then Some(target) else None
  }

  /** The row `n` targets up from this one, each named by the one below it, placed here, and another row. */
  ghost function Up(p: Placements, slug: string, n: nat): Option<string> {
    if n == 0 then Some(slug)
    else
      var below := Up(p, slug, n - 1);
      if below.None? || below.value !in p then None
      else
        var t := p[below.value].row;
        if t == "" || t == below.value || t !in p then None else Some(t)
  }

  /** Somewhere up this row's chain of targets is `ancestor`. */
  ghost predicate Follows(p: Placements, slug: string, ancestor: string) {
    exists n: nat :: n > 0 && Up(p, slug, n) == Some(ancestor)
  }

  ghost predicate ChainEnds(p: Placements, slug: string) {
    exists n: nat :: Up(p, slug, n).None?
  }

  // ----- chains -----

  lemma {:induction false} UpStep(p: Placements, slug: string, n: nat)
    requires TargetOf(p, slug).Some?
    ensures Up(p, slug, n + 1) == Up(p, TargetOf(p, slug).value, n)
  {
    if n > 0 {
      UpStep(p, slug, n - 1);
    }
  }

  lemma {:induction false} UpAdds(p: Placements, slug: string, m: nat, n: nat)
    requires Up(p, slug, m).Some?
    ensures Up(p, slug, m + n) == Up(p, Up(p, slug, m).value, n)
  {
    if n > 0 {
      UpAdds(p, slug, m, n - 1);
    }
  }

  lemma UpOne(p: Placements, slug: string)
    ensures Up(p, slug, 1) == TargetOf(p, slug)
  {
    assert Up(p, slug, 0) == Some(slug);
  }

  lemma OneFewer(all: set<string>, seen: set<string>, x: string)
    requires x in all && x !in seen
    ensures |all - (seen + {x})| < |all - seen|
  {
    assert all - (seen + {x}) == (all - seen) - {x};
  }

  lemma UpIsPlaced(p: Placements, slug: string, n: nat)
    requires n > 0 && Up(p, slug, n).Some?
    ensures Up(p, slug, n).value in p.Keys
  {
  }

  lemma UpMore(p: Placements, slug: string, n: nat)
    requires Up(p, slug, n).Some?
    ensures Up(p, slug, n + 1) == TargetOf(p, Up(p, slug, n).value)
  {
  }

  /** A row follows its target, and whatever its target follows. */
  lemma FollowsByTarget(p: Placements, slug: string, ancestor: string)
    ensures Follows(p, slug, ancestor) <==>
            TargetOf(p, slug).Some? && (TargetOf(p, slug).value == ancestor
                                        || Follows(p, TargetOf(p, slug).value, ancestor))
  {
    UpOne(p, slug);
    var t := TargetOf(p, slug);
    if t.Some? {
      if Follows(p, slug, ancestor) {
        var n: nat :| n > 0 && Up(p, slug, n) == Some(ancestor);
        UpStep(p, slug, n - 1);
      }
      if Follows(p, t.value, ancestor) {
        var n: nat :| n > 0 && Up(p, t.value, n) == Some(ancestor);
        UpStep(p, slug, n);
      }
    } else if Follows(p, slug, ancestor) {
      var n: nat :| n > 0 && Up(p, slug, n) == Some(ancestor);
      NothingAbove(p, slug, n);
    }
  }

  lemma {:induction false} NothingAbove(p: Placements, slug: string, n: nat)
    requires TargetOf(p, slug).None? && n > 0
    ensures Up(p, slug, n).None?
  {
    UpOne(p, slug);
    if n > 1 {
      NothingAbove(p, slug, n - 1);
    }
  }

  lemma FollowsTransitively(p: Placements, a: string, b: string, c: string)
    requires Follows(p, a, b) && Follows(p, b, c)
    ensures Follows(p, a, c)
  {
    var m: nat :| m > 0 && Up(p, a, m) == Some(b);
    var n: nat :| n > 0 && Up(p, b, n) == Some(c);
    UpAdds(p, a, m, n);
    assert m + n > 0;
  }

  lemma ChainEndsByTarget(p: Placements, slug: string)
    ensures ChainEnds(p, slug) <==> TargetOf(p, slug).None? || ChainEnds(p, TargetOf(p, slug).value)
  {
    UpOne(p, slug);
    var t := TargetOf(p, slug);
    if t.Some? {
      if ChainEnds(p, slug) {
        var n: nat :| Up(p, slug, n).None?;
        UpStep(p, slug, n - 1);
      }
      if ChainEnds(p, t.value) {
        var n: nat :| Up(p, t.value, n).None?;
        UpStep(p, slug, n);
      }
    }
  }

  // ----- walking a chain -----

  ghost predicate Passed(p: Placements, slug: string, x: string, from: nat, n: nat) {
    exists i: nat :: from <= i < n && Up(p, slug, i) == Some(x)
  }

  /** The rows from `from` up to, not including, `n` targets up. */
  ghost predicate Seen(p: Placements, slug: string, seen: set<string>, from: nat, n: nat) {
    && from <= n
    && (forall x :: x in seen ==> Passed(p, slug, x, from, n))
    && (forall i: nat :: from <= i < n ==> Up(p, slug, i).Some? && Up(p, slug, i).value in seen)
  }

  /** A chain back at a row it has seen sees nothing new. */
  lemma {:induction false} RoundAndRound(p: Placements, slug: string, seen: set<string>, from: nat, n: nat, m: nat)
    requires Seen(p, slug, seen, from, n) && Up(p, slug, n).Some? && Up(p, slug, n).value in seen && m >= from
    ensures Up(p, slug, m).Some? && Up(p, slug, m).value in seen
  {
    if m > n {
      RoundAndRound(p, slug, seen, from, n, m - 1);
      var x := Up(p, slug, m - 1).value;
      assert Passed(p, slug, x, from, n);
      var i: nat :| from <= i < n && Up(p, slug, i) == Some(x);
      assert Up(p, slug, i + 1) == Up(p, slug, m);
    }
  }

  lemma SeenOneMore(p: Placements, slug: string, seen: set<string>, from: nat, n: nat)
    requires Seen(p, slug, seen, from, n) && Up(p, slug, n).Some?
    ensures Seen(p, slug, seen + {Up(p, slug, n).value}, from, n + 1)
  {
    hide Up;
    var more := seen + {Up(p, slug, n).value};
    forall x | x in more
      ensures Passed(p, slug, x, from, n + 1)
    {
      if x in seen {
        assert Passed(p, slug, x, from, n);
      }
    }
  }

  lemma NothingSeen(p: Placements, slug: string, from: nat)
    ensures Seen(p, slug, {}, from, from)
  {
  }

  /** Once a chain has ended or come back round, all of it has been seen. */
  lemma SeenAll(p: Placements, slug: string, seen: set<string>, from: nat, n: nat, m: nat)
    requires Seen(p, slug, seen, from, n) && (Up(p, slug, n).None? || Up(p, slug, n).value in seen)
    requires m >= from && Up(p, slug, m).Some?
    ensures Up(p, slug, m).value in seen
  {
    if Up(p, slug, n).Some? {
      RoundAndRound(p, slug, seen, from, n, m);
    } else {
      EndedBefore(p, slug, n, m);
    }
  }

  lemma ReachedIn(p: Placements, slug: string, ancestor: string, n: nat)
    requires n > 0 && Up(p, slug, n) == Some(ancestor)
    ensures Follows(p, slug, ancestor)
  {
  }

  lemma NeverReached(p: Placements, slug: string, ancestor: string, seen: set<string>, n: nat)
    requires Seen(p, slug, seen, 1, n) && (Up(p, slug, n).None? || Up(p, slug, n).value in seen)
    requires ancestor !in seen
    ensures !Follows(p, slug, ancestor)
  {
    if m: nat :| m > 0 && Up(p, slug, m) == Some(ancestor) {
      SeenAll(p, slug, seen, 1, n, m);
    }
  }

  method FollowsChain(p: Placements, slug: string, ancestor: string) returns (found: bool)
    ensures found <==> Follows(p, slug, ancestor)
  {
    hide Up;
    hide Seen;
    hide Follows;
    var seen: set<string> := {};
    var current := TargetOf(p, slug);
    UpOne(p, slug);
    NothingSeen(p, slug, 1);
    ghost var n: nat := 1;
    while current.Some? && current.value !in seen
      invariant n > 0 && current == Up(p, slug, n) && Seen(p, slug, seen, 1, n)
      invariant ancestor !in seen && seen <= p.Keys
      decreases |p.Keys - seen|
    {
      if current.value == ancestor {
        ReachedIn(p, slug, ancestor, n);
        return true;
      }
      SeenOneMore(p, slug, seen, 1, n);
      UpMore(p, slug, n);
      UpIsPlaced(p, slug, n);
      OneFewer(p.Keys, seen, current.value);
      seen := seen + {current.value};
      current := TargetOf(p, current.value);
      n := n + 1;
    }
    NeverReached(p, slug, ancestor, seen, n);
    found := false;
  }

  lemma {:induction false} EndedBefore(p: Placements, slug: string, n: nat, m: nat)
    requires Up(p, slug, n).None? && Up(p, slug, m).Some?
    ensures m < n
    decreases m
  {
    if m > 0 && m >= n {
      if m == n {
      } else {
        EndedBefore(p, slug, n, m - 1);
      }
    }
  }

  // ----- the landmark a row's block is placed by -----

  datatype Marker = Top | After(title: string) | Before(title: string)

  ghost predicate Untitled(p: Placements, slug: string, n: nat) {
    Up(p, slug, n).Some? ==> Up(p, slug, n).value in p && p[Up(p, slug, n).value].title == ""
  }

  /** The row `n` targets up names this landmark, to sit above it or below, and nearer rows name none. */
  ghost predicate NearestNames(p: Placements, slug: string, n: nat, title: string, before: bool) {
    && Up(p, slug, n).Some? && Up(p, slug, n).value in p && title != ""
    && p[Up(p, slug, n).value].title == title && p[Up(p, slug, n).value].before == before
    && forall i: nat :: i < n ==> Untitled(p, slug, i)
  }

  ghost predicate Names(p: Placements, slug: string, title: string, before: bool) {
    exists n: nat :: NearestNames(p, slug, n, title, before)
  }

  lemma NotNearer(p: Placements, slug: string, n: nat, title: string, before: bool, m: nat)
    requires NearestNames(p, slug, n, title, before) && m < n
    ensures forall other, otherBefore :: !NearestNames(p, slug, m, other, otherBefore)
  {
    hide Up;
    assert Untitled(p, slug, m);
  }

  lemma NearestIsOne(p: Placements, slug: string, n: nat, title: string, before: bool, m: nat, other: string,
                     otherBefore: bool)
    requires NearestNames(p, slug, n, title, before) && NearestNames(p, slug, m, other, otherBefore)
    ensures title == other && before == otherBefore
  {
    hide Up;
    hide Untitled;
    if m < n {
      NotNearer(p, slug, n, title, before, m);
    } else if n < m {
      NotNearer(p, slug, m, other, otherBefore, n);
    }
  }

  lemma NearestDecides(p: Placements, slug: string, n: nat, title: string, before: bool)
    requires NearestNames(p, slug, n, title, before)
    ensures forall other, otherBefore :: Names(p, slug, other, otherBefore) <==> other == title && otherBefore == before
    ensures !Untitled(p, slug, n)
  {
    hide Up;
    assert Names(p, slug, title, before);
    forall other, otherBefore | Names(p, slug, other, otherBefore)
      ensures other == title && otherBefore == before
    {
      hide NearestNames;
      var m: nat :| NearestNames(p, slug, m, other, otherBefore);
      NearestIsOne(p, slug, n, title, before, m, other, otherBefore);
    }
  }

  lemma {:induction false} UpPlaced(p: Placements, slug: string, n: nat)
    requires slug in p && Up(p, slug, n).Some?
    ensures Up(p, slug, n).value in p
  {
    if n > 0 {
      UpPlaced(p, slug, n - 1);
    }
  }

  /** A row's own landmark, or the nearest one up its chain, on the side that row asks for; the top of the shelf if the
      chain names none. */
  method MarkerFor(p: Placements, slug: string) returns (marker: Marker)
    requires slug in p
    ensures forall title :: marker == After(title) <==> Names(p, slug, title, false)
    ensures forall title :: marker == Before(title) <==> Names(p, slug, title, true)
    ensures marker == Top <==> forall n: nat :: Untitled(p, slug, n)
  {
    hide Seen;
    hide NearestNames;
    hide Names;
    hide Untitled;
    var seen: set<string> := {};
    var current := Some(slug);
    NothingSeen(p, slug, 0);
    ghost var n: nat := 0;
    while current.Some? && current.value !in seen
      invariant current == Up(p, slug, n) && Seen(p, slug, seen, 0, n)
      invariant seen <= p.Keys && forall x :: x in seen ==> p[x].title == ""
      invariant forall i: nat :: i < n ==> Untitled(p, slug, i)
      decreases |p.Keys - seen|
    {
      UpPlaced(p, slug, n);
      var entry := p[current.value];
      if entry.title != "" {
        IsNearest(p, slug, n);
        NearestDecides(p, slug, n, entry.title, entry.before);
        return if entry.before then Before(entry.title) else After(entry.title);
      }
      IsUntitled(p, slug, n);
      SeenOneMore(p, slug, seen, 0, n);
      UpMore(p, slug, n);
      assert p.Keys - (seen + {current.value}) == p.Keys - seen - {current.value};
      seen := seen + {current.value};
      current := TargetOf(p, current.value);
      n := n + 1;
    }
    AllUntitled(p, slug, seen, n);
    marker := Top;
  }

  lemma IsNearest(p: Placements, slug: string, n: nat)
    requires Up(p, slug, n).Some? && Up(p, slug, n).value in p && p[Up(p, slug, n).value].title != ""
    requires forall i: nat :: i < n ==> Untitled(p, slug, i)
    ensures var entry := p[Up(p, slug, n).value];
            NearestNames(p, slug, n, entry.title, entry.before)
  {
    hide Untitled;
  }

  lemma IsUntitled(p: Placements, slug: string, n: nat)
    requires Up(p, slug, n).Some? && Up(p, slug, n).value in p && p[Up(p, slug, n).value].title == ""
    ensures Untitled(p, slug, n)
  {
  }

  lemma SeenUntitled(p: Placements, slug: string, seen: set<string>, n: nat, m: nat)
    requires Seen(p, slug, seen, 0, n) && (Up(p, slug, n).None? || Up(p, slug, n).value in seen)
    requires seen <= p.Keys && forall x :: x in seen ==> p[x].title == ""
    ensures Untitled(p, slug, m)
  {
    hide Up;
    hide Seen;
    if Up(p, slug, m).Some? {
      SeenAll(p, slug, seen, 0, n, m);
    }
  }

  lemma NoneNames(p: Placements, slug: string, title: string, before: bool)
    requires forall m: nat :: Untitled(p, slug, m)
    ensures !Names(p, slug, title, before)
  {
    hide Up;
    if m: nat :| NearestNames(p, slug, m, title, before) {
      NearestDecides(p, slug, m, title, before);
    }
  }

  /** A walk that ended without a landmark has seen every row of the chain. */
  lemma AllUntitled(p: Placements, slug: string, seen: set<string>, n: nat)
    requires Seen(p, slug, seen, 0, n) && (Up(p, slug, n).None? || Up(p, slug, n).value in seen)
    requires seen <= p.Keys && forall x :: x in seen ==> p[x].title == ""
    ensures forall m: nat :: Untitled(p, slug, m)
    ensures forall title, before :: !Names(p, slug, title, before)
  {
    hide *;
    forall m: nat
      ensures Untitled(p, slug, m)
    {
      SeenUntitled(p, slug, seen, n, m);
    }
    forall title, before
      ensures !Names(p, slug, title, before)
    {
      NoneNames(p, slug, title, before);
    }
  }
}
