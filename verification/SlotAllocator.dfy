/** The allocator itself: queues drained round by round, with ownership of a contested title moving as rows fill. */
module SlotAllocator {
  import opened Multiples
  import opened RequestAlloc

  // ----- who owns a contested title -----

  /** The rows offering each title, in run order. */
  type OfferedBy = map<Key, seq<nat>>

  ghost predicate Sorted(rs: seq<nat>) {
    forall i, j :: 0 <= i < j < |rs| ==> rs[i] <= rs[j]
  }

  ghost predicate OfferedInOrder(rows: seq<Row>, offered: OfferedBy) {
    && (forall key :: key in offered ==> |offered[key]| > 0 && Sorted(offered[key]))
    && (forall key, r :: key in offered && r in offered[key] ==> Offers(rows, r, key))
    && (forall key, r :: Offers(rows, r, key) ==> key in offered && r in offered[key])
  }

  predicate RoomAt(rows: seq<Row>, taken: seq<nat>, r: nat) {
    r < |taken| && Room(rows, r, taken[r])
  }

  /** The earliest row offering the title that has room under its own cap; with none, the last to offer it. */
  function Owner(rows: seq<Row>, taken: seq<nat>, offers: seq<nat>): nat
    requires |offers| > 0
  {
    if |offers| == 1 || RoomAt(rows, taken, offers[0]) then offers[0] else Owner(rows, taken, offers[1..])
  }

  lemma {:induction false} OwnerIsEarliest(rows: seq<Row>, taken: seq<nat>, offers: seq<nat>, r: nat)
    requires |offers| > 0 && Sorted(offers) && r in offers && RoomAt(rows, taken, r)
    ensures RoomAt(rows, taken, Owner(rows, taken, offers)) && Owner(rows, taken, offers) <= r
    ensures Owner(rows, taken, offers) in offers
    ensures forall q :: q in offers && q < Owner(rows, taken, offers) ==> !RoomAt(rows, taken, q)
  {
    if !RoomAt(rows, taken, offers[0]) {
      assert offers == [offers[0]] + offers[1..];
      OwnerIsEarliest(rows, taken, offers[1..], r);
    }
  }

  // ----- the books -----

  /** The queue is the row's list, in order, less some claimed titles. */
  ghost predicate Remains(titles: seq<Title>, queue: seq<Title>, claimed: set<Key>) {
    if |titles| == 0 then |queue| == 0
    else
      || (|queue| > 0 && queue[0] == titles[0] && Remains(titles[1..], queue[1..], claimed))
      || (KeyOf(titles[0]) in claimed && Remains(titles[1..], queue, claimed))
  }

  /** So it holds only the row's titles, and every one nobody has claimed. */
  ghost predicate QueueKeeps(titles: seq<Title>, queue: seq<Title>, claimed: set<Key>) {
    && Remains(titles, queue, claimed)
    && (forall t :: t in queue ==> t in titles)
    && (forall t :: t in titles && KeyOf(t) !in claimed ==> t in queue)
  }

  ghost predicate Tallies(rows: seq<Row>, claims: seq<Claim>, taken: seq<nat>) {
    |taken| == |rows| && forall r :: 0 <= r < |rows| ==> taken[r] == Taken(claims, r)
  }

  ghost predicate Queues(rows: seq<Row>, queues: seq<seq<Title>>, claimed: set<Key>) {
    |queues| == |rows| && forall r :: 0 <= r < |rows| ==> QueueKeeps(rows[r].titles, queues[r], claimed)
  }

  ghost predicate Kept(rows: seq<Row>, budget: nat, claims: seq<Claim>) {
    Feasible(rows, budget, claims) && EarlierRowsFull(rows, claims) && BestFirst(rows, claims)
  }

  lemma {:induction false} RemainsAll(titles: seq<Title>)
    ensures Remains(titles, titles, {})
  {
    if |titles| > 0 {
      RemainsAll(titles[1..]);
    }
  }

  lemma {:induction false} RemainsPop(titles: seq<Title>, queue: seq<Title>, claimed: set<Key>, i: nat)
    requires Remains(titles, queue, claimed) && i < |queue| && KeyOf(queue[i]) in claimed
    ensures Remains(titles, queue[..i] + queue[i + 1..], claimed)
    decreases |titles|
  {
    var rest := queue[..i] + queue[i + 1..];
    if queue[0] == titles[0] && Remains(titles[1..], queue[1..], claimed) {
      if i == 0 {
        assert rest == queue[1..];
      } else {
        RemainsPop(titles[1..], queue[1..], claimed, i - 1);
        assert rest[1..] == queue[1..][..i - 1] + queue[1..][i..];
      }
    } else {
      RemainsPop(titles[1..], queue, claimed, i);
    }
  }

  lemma {:induction false} RemainsMore(titles: seq<Title>, queue: seq<Title>, claimed: set<Key>, key: Key)
    requires Remains(titles, queue, claimed)
    ensures Remains(titles, queue, claimed + {key})
  {
    if |titles| > 0 {
      if |queue| > 0 && queue[0] == titles[0] && Remains(titles[1..], queue[1..], claimed) {
        RemainsMore(titles[1..], queue[1..], claimed, key);
      } else {
        RemainsMore(titles[1..], queue, claimed, key);
      }
    }
  }

  /** Where a queued title stands in its row's list: all the titles before it are claimed or queued before it. */
  lemma {:induction false} PlaceInList(titles: seq<Title>, queue: seq<Title>, claimed: set<Key>, i: nat)
    returns (p: nat)
    requires Remains(titles, queue, claimed) && i < |queue|
    ensures p < |titles| && titles[p] == queue[i]
    ensures forall q :: 0 <= q < p ==> KeyOf(titles[q]) in claimed || titles[q] in queue[..i]
    decreases |titles|
  {
    if queue[0] == titles[0] && Remains(titles[1..], queue[1..], claimed) {
      p := 0;
      if i > 0 {
        p := PlaceInList(titles[1..], queue[1..], claimed, i - 1);
        p := p + 1;
        assert forall q :: 1 <= q < p ==> titles[q] == titles[1..][q - 1];
        assert queue[..i] == [queue[0]] + queue[1..][..i - 1];
      }
    } else {
      p := PlaceInList(titles[1..], queue, claimed, i);
      p := p + 1;
      assert forall q :: 1 <= q < p ==> titles[q] == titles[1..][q - 1];
    }
  }

  /** Whether row `r`, with room, may claim this title. */
  predicate Owns(rows: seq<Row>, offered: OfferedBy, taken: seq<nat>, claimed: set<Key>, r: nat, t: Title) {
    KeyOf(t) !in claimed && KeyOf(t) in offered && |offered[KeyOf(t)]| > 0
    && Owner(rows, taken, offered[KeyOf(t)]) == r
  }

  lemma TitleOffered(rows: seq<Row>, r: nat, t: Title)
    requires r < |rows| && t in rows[r].titles
    ensures Offers(rows, r, KeyOf(t))
  {
    var j :| 0 <= j < |rows[r].titles| && rows[r].titles[j] == t;
  }

  /** A title its row owns may be claimed; one it does not own, an earlier row offers. */
  lemma OwnsMeans(rows: seq<Row>, offered: OfferedBy, claims: seq<Claim>, taken: seq<nat>, claimed: set<Key>,
                  r: nat, t: Title)
    requires KeyOf(t) !in claimed && OfferedInOrder(rows, offered) && Tallies(rows, claims, taken)
    requires r < |rows| && t in rows[r].titles && HasRoom(rows, claims, r)
    ensures Owns(rows, offered, taken, claimed, r, t) ==>
              forall q :: 0 <= q < r && Offers(rows, q, KeyOf(t)) ==> !HasRoom(rows, claims, q)
    ensures !Owns(rows, offered, taken, claimed, r, t) ==> HeldEarlier(rows, claims, r, KeyOf(t))
  {
    TitleOffered(rows, r, t);
    OwnerIsEarliest(rows, taken, offered[KeyOf(t)], r);
    var owner := Owner(rows, taken, offered[KeyOf(t)]);
    assert Offers(rows, owner, KeyOf(t));
  }

  lemma PopKeeps(titles: seq<Title>, queue: seq<Title>, claimed: set<Key>, i: nat)
    requires QueueKeeps(titles, queue, claimed) && i < |queue| && KeyOf(queue[i]) in claimed
    ensures QueueKeeps(titles, queue[..i] + queue[i + 1..], claimed)
  {
    var rest := queue[..i] + queue[i + 1..];
    RemainsPop(titles, queue, claimed, i);
    forall t | t in titles && KeyOf(t) !in claimed
      ensures t in rest
    {
      var j :| 0 <= j < |queue| && queue[j] == t;
      assert rest[if j < i then j else j - 1] == t;
    }
  }

  lemma QueuesGrowClaimed(rows: seq<Row>, queues: seq<seq<Title>>, claimed: set<Key>, key: Key)
    requires Queues(rows, queues, claimed)
    ensures Queues(rows, queues, claimed + {key})
  {
    forall r | 0 <= r < |rows|
      ensures QueueKeeps(rows[r].titles, queues[r], claimed + {key})
    {
      RemainsMore(rows[r].titles, queues[r], claimed, key);
    }
  }

  lemma TalliesSnoc(rows: seq<Row>, claims: seq<Claim>, taken: seq<nat>, c: Claim)
    requires Tallies(rows, claims, taken) && c.row < |rows|
    ensures Tallies(rows, claims + [c], taken[c.row := taken[c.row] + 1])
  {
    forall r | 0 <= r < |rows|
      ensures taken[c.row := taken[c.row] + 1][r] == Taken(claims + [c], r)
    {
      TakenSnoc(claims, c, r);
    }
  }

  ghost predicate Books(rows: seq<Row>, budget: nat, queues: seq<seq<Title>>, taken: seq<nat>, claimed: set<Key>,
                        claims: seq<Claim>)
  {
    && Kept(rows, budget, claims) && |queues| == |rows|
    && Tallies(rows, claims, taken) && Queues(rows, queues, claimed) && claimed == KeysOf(claims)
  }

  /** Claiming the title at `i` of row `r`'s queue keeps the books. */
  lemma TakeKeeps(rows: seq<Row>, budget: nat, queues: seq<seq<Title>>, taken: seq<nat>, claimed: set<Key>,
                  claims: seq<Claim>, r: nat, i: nat)
    requires Books(rows, budget, queues, taken, claimed, claims) && r < |rows| && i < |queues[r]|
    requires |claims| < budget && RoomAt(rows, taken, r) && KeyOf(queues[r][i]) !in claimed
    requires queues[r][i] in rows[r].titles && Preferred(rows, claims, Claim(r, queues[r][i]))
    requires forall q :: 0 <= q < r && Offers(rows, q, KeyOf(queues[r][i])) ==> !HasRoom(rows, claims, q)
    ensures var title := queues[r][i];
            Books(rows, budget, queues[r := queues[r][..i] + queues[r][i + 1..]], taken[r := taken[r] + 1],
                  claimed + {KeyOf(title)}, claims + [Claim(r, title)])
  {
    hide QueueKeeps;
    hide Feasible;
    hide EarlierRowsFull;
    hide BestFirst;
    hide Preferred;
    var title := queues[r][i];
    ClaimKeeps(rows, budget, claims, Claim(r, title));
    ClaimKeepsBestFirst(rows, claims, Claim(r, title));
    TalliesSnoc(rows, claims, taken, Claim(r, title));
    KeysSnoc(claims, Claim(r, title));
    QueuesGrowClaimed(rows, queues, claimed, KeyOf(title));
    PopKeeps(rows[r].titles, queues[r], claimed + {KeyOf(title)}, i);
  }

  // ----- shares of a round -----

  /** `after` adds to `before` claims of row `r` alone. */
  ghost predicate MoreFor(r: nat, before: seq<Claim>, after: seq<Claim>) {
    && before <= after
    && forall i :: |before| <= i < |after| ==> after[i].row == r
  }

  /** Over these claims the row gained what it was allowed, or fewer and could use no more. */
  ghost predicate Served(rows: seq<Row>, before: seq<Claim>, after: seq<Claim>, r: nat, allowance: nat) {
    && Taken(after, r) <= Taken(before, r) + allowance
    && (Taken(after, r) == Taken(before, r) + allowance || Spent(rows, after, r))
  }

  ghost predicate Ascending(rs: seq<nat>) {
    forall i, j :: 0 <= i < j < |rs| ==> rs[i] < rs[j]
  }

  function Allowance(share: nat, extra: nat, position: nat): nat {
    share + (if position < extra then 1 else 0)
  }

  /** The first `position` live rows have been served, and no other row has gained anything. */
  ghost predicate RoundSoFar(rows: seq<Row>, before: seq<Claim>, now: seq<Claim>, live: seq<nat>, position: nat,
                             share: nat, extra: nat)
    requires position <= |live|
  {
    && before <= now
    && (forall i :: 0 <= i < position ==> Served(rows, before, now, live[i], Allowance(share, extra, i)))
    && (forall r: nat :: r !in live[..position] ==> Taken(now, r) == Taken(before, r))
  }

  /** The served rows took everything given them, unless one of them ran out. */
  ghost predicate UsedUp(rows: seq<Row>, before: seq<Claim>, now: seq<Claim>, live: seq<nat>, given: nat) {
    |now| == |before| + given || exists r :: r in live && RanOut(rows, before, now, r)
  }

  /** What the first `position` rows of a round are allowed between them. */
  function Given(share: nat, extra: nat, position: nat): nat {
    share * position + (if position < extra then position else extra)
  }

  lemma GivenStep(share: nat, extra: nat, position: nat)
    ensures Given(share, extra, position + 1) ==
            Given(share, extra, position) + Allowance(share, extra, position)
  {
    assert share * (position + 1) == share * position + share;
  }

  lemma GivenWithin(share: nat, extra: nat, position: nat, n: nat)
    requires position <= n && extra < n
    ensures Given(share, extra, position) <= Given(share, extra, n) == share * n + extra
  {
    if position < n {
      OneMoreTimes(share, position, n);
    }
  }

  lemma GivenFull(share: nat, extra: nat, position: nat, n: nat)
    requires position < n && extra < n && Given(share, extra, position) >= share * n + extra
    ensures share == 0 && extra <= position
  {
    OneMoreTimes(share, position, n);
  }

  lemma {:induction false} TakenMore(before: seq<Claim>, after: seq<Claim>, r: nat)
    requires before <= after
    ensures Taken(before, r) <= Taken(after, r)
    ensures MoreFor(r, before, after) ==> Taken(after, r) == Taken(before, r) + |after| - |before|
    decreases |after|
  {
    if |before| < |after| {
      TakenMore(before, after[..|after| - 1], r);
    } else {
      assert before == after;
    }
  }

  lemma {:induction false} SpentExtends(rows: seq<Row>, before: seq<Claim>, after: seq<Claim>, r: nat)
    requires before <= after && Spent(rows, before, r)
    ensures Spent(rows, after, r)
    decreases |after|
  {
    if |before| < |after| {
      var init, c := after[..|after| - 1], after[|after| - 1];
      SpentExtends(rows, before, init, r);
      SpentStays(rows, init, c, r);
      assert after == init + [c];
    } else {
      assert before == after;
    }
  }

  lemma {:induction false} OthersSame(before: seq<Claim>, after: seq<Claim>, r: nat, other: nat)
    requires MoreFor(r, before, after) && other != r
    ensures Taken(after, other) == Taken(before, other)
    decreases |after|
  {
    if |before| < |after| {
      OthersSame(before, after[..|after| - 1], r, other);
    } else {
      assert before == after;
    }
  }

  lemma StuckIsSpent(rows: seq<Row>, claims: seq<Claim>, r: nat)
    requires Stuck(rows, claims, r)
    ensures Spent(rows, claims, r)
  {
    if ShutOut(rows, claims, r) {
      ShutOutIsSpent(rows, claims, r);
    }
  }

  lemma RanOutExtends(rows: seq<Row>, before: seq<Claim>, start: seq<Claim>, now: seq<Claim>, r: nat)
    requires RanOut(rows, before, start, r) && start <= now
    ensures RanOut(rows, before, now, r)
  {
    hide Stuck;
    var m :| |before| < m <= |start| && Stuck(rows, start[..m], r);
    assert now[..m] == start[..m];
  }

  lemma ServedExtends(rows: seq<Row>, before: seq<Claim>, start: seq<Claim>, now: seq<Claim>, r: nat, other: nat,
                      allowance: nat)
    requires MoreFor(r, start, now) && other != r && Served(rows, before, start, other, allowance)
    ensures Served(rows, before, now, other, allowance)
  {
    hide Spent;
    OthersSame(start, now, r, other);
    if Spent(rows, start, other) {
      SpentExtends(rows, start, now, other);
    }
  }

  lemma ServedOne(rows: seq<Row>, before: seq<Claim>, start: seq<Claim>, now: seq<Claim>, r: nat, allowance: nat)
    requires MoreFor(r, start, now) && Taken(start, r) == Taken(before, r)
    requires |now| <= |start| + allowance
    requires |now| == |start| + allowance || Stuck(rows, now, r)
    ensures Served(rows, before, now, r, allowance)
  {
    hide Spent;
    hide Stuck;
    TakenMore(start, now, r);
    if |now| != |start| + allowance {
      StuckIsSpent(rows, now, r);
    }
  }

  /** Serving the next live row extends the round. */
  lemma OneServed(rows: seq<Row>, before: seq<Claim>, start: seq<Claim>, now: seq<Claim>, live: seq<nat>,
                  position: nat, share: nat, extra: nat)
    requires position < |live| && Ascending(live) && RoundSoFar(rows, before, start, live, position, share, extra)
    requires MoreFor(live[position], start, now) && |now| <= |start| + Allowance(share, extra, position)
    requires |now| == |start| + Allowance(share, extra, position) || Stuck(rows, now, live[position])
    ensures RoundSoFar(rows, before, now, live, position + 1, share, extra)
  {
    hide Served;
    hide Stuck;
    hide Allowance;
    var r := live[position];
    forall i | 0 <= i < position + 1
      ensures Served(rows, before, now, live[i], Allowance(share, extra, i))
    {
      if i < position {
        ServedExtends(rows, before, start, now, r, live[i], Allowance(share, extra, i));
      } else {
        assert r !in live[..position];
        ServedOne(rows, before, start, now, r, Allowance(share, extra, i));
      }
    }
    forall other: nat | other !in live[..position + 1]
      ensures Taken(now, other) == Taken(before, other)
    {
      assert live[..position + 1][position] == r && live[..position + 1] == live[..position] + [r];
      OthersSame(start, now, r, other);
    }
  }

  /** Rows behind the last one with anything due need no serving. */
  lemma {:induction false} NothingDue(rows: seq<Row>, before: seq<Claim>, now: seq<Claim>, live: seq<nat>,
                                      position: nat, share: nat, extra: nat)
    requires position <= |live| && Ascending(live) && share == 0 && extra <= position
    requires RoundSoFar(rows, before, now, live, position, share, extra)
    ensures RoundSoFar(rows, before, now, live, |live|, share, extra)
    decreases |live| - position
  {
    hide RoundSoFar;
    if position < |live| {
      OneServed(rows, before, now, now, live, position, share, extra);
      NothingDue(rows, before, now, live, position + 1, share, extra);
    }
  }

  lemma NoneServed(rows: seq<Row>, before: seq<Claim>, live: seq<nat>, share: nat, extra: nat)
    ensures RoundSoFar(rows, before, before, live, 0, share, extra) && UsedUp(rows, before, before, live, 0)
  {
  }

  lemma RoundExtends(rows: seq<Row>, before: seq<Claim>, now: seq<Claim>, live: seq<nat>, position: nat, share: nat,
                     extra: nat)
    requires position <= |live| && RoundSoFar(rows, before, now, live, position, share, extra)
    ensures before <= now
  {
  }

  lemma AllUsed(rows: seq<Row>, before: seq<Claim>, now: seq<Claim>, live: seq<nat>, given: int)
    requires |now| == |before| + given && given >= 0
    ensures UsedUp(rows, before, now, live, given)
  {
  }

  lemma NowUsedUp(rows: seq<Row>, before: seq<Claim>, start: seq<Claim>, now: seq<Claim>, live: seq<nat>, r: nat,
                  given: nat, allowance: nat)
    requires before <= start <= now && |now| > |before| && UsedUp(rows, before, start, live, given)
    requires r in live && !Stuck(rows, before, r)
    requires |now| == |start| + allowance || Stuck(rows, now, r)
    ensures UsedUp(rows, before, now, live, given + allowance)
  {
    hide Stuck;
    if q :| q in live && RanOut(rows, before, start, q) {
      RanOutExtends(rows, before, start, now, q);
    } else if Stuck(rows, now, r) {
      assert now[..|now|] == now;
    }
  }

  lemma GainServed(rows: seq<Row>, before: seq<Claim>, after: seq<Claim>, live: seq<nat>, share: nat, extra: nat,
                   q: nat) returns (i: nat)
    requires RoundSoFar(rows, before, after, live, |live|, share, extra) && !Spent(rows, after, q)
    requires forall r: nat :: r < |rows| && r !in live ==> Spent(rows, before, r)
    requires q < |rows|
    ensures i < |live| && live[i] == q && Gain(before, after, q) == Allowance(share, extra, i)
  {
    hide Spent;
    hide Allowance;
    if q !in live {
      SpentExtends(rows, before, after, q);
    }
    i :| 0 <= i < |live| && live[i] == q;
    assert Served(rows, before, after, live[i], Allowance(share, extra, i));
  }

  lemma GainAtMost(rows: seq<Row>, before: seq<Claim>, after: seq<Claim>, live: seq<nat>, share: nat, extra: nat,
                   q: nat, i: nat, r: nat)
    requires RoundSoFar(rows, before, after, live, |live|, share, extra) && Ascending(live)
    requires i < |live| && live[i] == q
    ensures Gain(before, after, r) <= Allowance(share, extra, i) + (if r < q then 1 else 0)
  {
    hide Spent;
    if r in live {
      var j: nat :| j < |live| && live[j] == r;
      assert Served(rows, before, after, live[j], Allowance(share, extra, j));
      assert r < q || i <= j;
    } else {
      assert live[..|live|] == live;
    }
  }

  /** A whole round is even. */
  lemma RoundIsEven(rows: seq<Row>, budget: nat, before: seq<Claim>, after: seq<Claim>, live: seq<nat>, share: nat,
                    extra: nat)
    requires RoundSoFar(rows, before, after, live, |live|, share, extra) && Ascending(live)
    requires forall r: nat :: r < |rows| && r !in live ==> Spent(rows, before, r)
    requires forall r: nat :: r in live ==> r < |rows|
    requires |before| <= budget && UsedUp(rows, before, after, live, budget - |before|)
    ensures EvenRound(rows, budget, before, after)
  {
    hide Spent;
    hide RanOut;
    hide Allowance;
    hide Gain;
    forall q: nat, r: nat | q < |rows| && r < |rows| && !Spent(rows, after, q)
      ensures Gain(before, after, r) <= Gain(before, after, q) + (if r < q then 1 else 0)
    {
      var i := GainServed(rows, before, after, live, share, extra, q);
      GainAtMost(rows, before, after, live, share, extra, q, i, r);
    }
    assert before <= after;
  }

  /** Earlier rows lead after every round. */
  lemma {:induction false} RoundsLead(rows: seq<Row>, budget: nat, claims: seq<Claim>)
    requires ByRounds(rows, budget, claims)
    ensures EarlierLead(rows, claims)
    decreases |claims|
  {
    hide Spent;
    hide RanOut;
    if |claims| > 0 {
      var n: nat :| n < |claims| && ByRounds(rows, budget, claims[..n]) && EvenRound(rows, budget, claims[..n], claims);
      RoundsLead(rows, budget, claims[..n]);
      forall q, r | 0 <= q < r < |rows| && !Spent(rows, claims, q)
        ensures Taken(claims, q) >= Taken(claims, r)
      {
        if Spent(rows, claims[..n], q) {
          SpentExtends(rows, claims[..n], claims, q);
        }
        assert Gain(claims[..n], claims, r) <= Gain(claims[..n], claims, q);
      }
    }
  }

  lemma OneMoreRound(rows: seq<Row>, budget: nat, before: seq<Claim>, after: seq<Claim>)
    requires ByRounds(rows, budget, before) && EvenRound(rows, budget, before, after) && |before| < |after|
    ensures ByRounds(rows, budget, after)
  {
    hide EvenRound;
    assert before <= after by {
      EvenRoundExtends(rows, budget, before, after);
    }
    assert after[..|before|] == before;
  }

  lemma EvenRoundExtends(rows: seq<Row>, budget: nat, before: seq<Claim>, after: seq<Claim>)
    requires EvenRound(rows, budget, before, after)
    ensures before <= after
  {
  }

  class Slots {
    const rows: seq<Row>
    const budget: nat
    const offered: OfferedBy
    var queues: seq<seq<Title>>
    var taken: seq<nat>
    var claimed: set<Key>
    var claims: seq<Claim>

    ghost predicate Valid()
      reads this
    {
      OfferedInOrder(rows, offered) && Books(rows, budget, queues, taken, claimed, claims)
    }

    constructor (rows: seq<Row>, budget: nat, offered: OfferedBy)
      requires OfferedInOrder(rows, offered)
      ensures Valid() && claims == [] && this.rows == rows && this.budget == budget
    {
      this.rows, this.budget, this.offered := rows, budget, offered;
      queues := seq(|rows|, r requires 0 <= r < |rows| => rows[r].titles);
      taken := seq(|rows|, r requires 0 <= r < |rows| => 0);
      claimed, claims := {}, [];
      new;
      forall r | 0 <= r < |rows|
        ensures QueueKeeps(rows[r].titles, queues[r], {})
      {
        RemainsAll(rows[r].titles);
      }
    }

    predicate CanTake(r: nat)
      reads this
    {
      && r < |queues| && RoomAt(rows, taken, r)
      && exists j :: 0 <= j < |queues[r]| && Owns(rows, offered, taken, claimed, r, queues[r][j])
    }

    lemma PassedIsPreferred(r: nat, i: nat)
      requires Valid() && r < |rows| && i < |queues[r]| && Passed(r, i)
      ensures Preferred(rows, claims, Claim(r, queues[r][i]))
    {
      var titles, queue := rows[r].titles, queues[r];
      var p := PlaceInList(titles, queue, claimed, i);
      forall q | 0 <= q < p
        ensures KeyOf(titles[q]) in KeysOf(claims) || HeldEarlier(rows, claims, r, KeyOf(titles[q]))
      {
        if titles[q] in queue[..i] {
          var j :| 0 <= j < i && queue[j] == titles[q];
        }
      }
      assert Exhausted(rows, claims, r, p);
    }

    lemma OwnedIsMine(r: nat, t: Title)
      requires Valid() && r < |rows| && t in rows[r].titles && RoomAt(rows, taken, r)
      requires Owns(rows, offered, taken, claimed, r, t)
      ensures KeyOf(t) !in claimed && r < |taken|
      ensures forall q :: 0 <= q < r && Offers(rows, q, KeyOf(t)) ==> !HasRoom(rows, claims, q)
    {
      OwnsMeans(rows, offered, claims, taken, claimed, r, t);
    }

    lemma QueuedTitle(r: nat, i: nat)
      requires Valid() && r < |rows| && i < |queues[r]|
      ensures queues[r][i] in rows[r].titles
    {
      assert queues[r][i] in queues[r];
    }

    /** Claims the title at `i` of row `r`'s queue. */
    method Take(r: nat, i: nat)
      requires Valid() && r < |rows| && i < |queues[r]| && |claims| < budget && RoomAt(rows, taken, r)
      requires Owns(rows, offered, taken, claimed, r, queues[r][i]) && Passed(r, i)
      modifies this`queues, this`taken, this`claimed, this`claims
      ensures Valid() && claims == old(claims) + [Claim(r, old(queues[r][i]))]
      ensures queues == old(queues)[r := old(queues[r])[..i] + old(queues[r])[i + 1..]]
    {
      hide Books;
      hide Owner;
      hide Owns;
      hide RoomAt;
      hide OfferedInOrder;
      hide RequestAlloc.Preferred;
      hide RequestAlloc.HasRoom;
      hide RequestAlloc.Offers;
      QueuedTitle(r, i);
      PassedIsPreferred(r, i);
      var title := queues[r][i];
      OwnedIsMine(r, title);
      TakeKeeps(rows, budget, queues, taken, claimed, claims, r, i);
      queues := queues[r := queues[r][..i] + queues[r][i + 1..]];
      claimed := claimed + {KeyOf(title)};
      claims := claims + [Claim(r, title)];
      taken := taken[r := taken[r] + 1];
    }

    /** Drops a title someone already claimed. */
    method Discard(r: nat, i: nat)
      requires Valid() && r < |rows| && i < |queues[r]| && KeyOf(queues[r][i]) in claimed && Passed(r, i)
      modifies this`queues
      ensures Valid() && queues == old(queues)[r := old(queues[r])[..i] + old(queues[r])[i + 1..]] && Passed(r, i)
      ensures old(TakeableFrom(r, i)) ==> TakeableFrom(r, i)
    {
      hide Remains;
      ghost var was := queues[r];
      PopKeeps(rows[r].titles, queues[r], claimed, i);
      queues := queues[r := queues[r][..i] + queues[r][i + 1..]];
      DiscardKeepsTakeable(r, was, i);
    }

    /** Everything up to `index` in row `r`'s queue belongs to an earlier row with room. */
    ghost predicate Passed(r: nat, index: nat)
      reads this
    {
      r < |queues| && index <= |queues[r]|
      && forall j :: 0 <= j < index ==> HeldEarlier(rows, claims, r, KeyOf(queues[r][j]))
    }

    ghost predicate TakeableFrom(r: nat, index: nat)
      reads this
    {
      r < |queues| && exists j :: index <= j < |queues[r]| && Owns(rows, offered, taken, claimed, r, queues[r][j])
    }

    lemma PassedAll(r: nat)
      requires Valid() && r < |rows| && Passed(r, |queues[r]|)
      ensures ShutOut(rows, claims, r)
    {
      forall t | t in rows[r].titles && KeyOf(t) !in claimed
        ensures HeldEarlier(rows, claims, r, KeyOf(t))
      {
        assert t in queues[r];
      }
      NoneUnheld(r);
    }

    lemma DiscardKeepsTakeable(r: nat, was: seq<Title>, i: nat)
      requires r < |queues| && i < |was| && queues[r] == was[..i] + was[i + 1..] && KeyOf(was[i]) in claimed
      ensures (exists j :: i <= j < |was| && Owns(rows, offered, taken, claimed, r, was[j])) ==> TakeableFrom(r, i)
    {
      if j :| i <= j < |was| && Owns(rows, offered, taken, claimed, r, was[j]) {
        assert queues[r][j - 1] == was[j];
      }
    }

    lemma StillPassed(r: nat, was: seq<Title>, i: nat, before: seq<Claim>, c: Claim)
      requires r < |queues| && i < |was| && queues[r] == was[..i] + was[i + 1..]
      requires claims == before + [c] && c.row == r
      requires forall j :: 0 <= j < i ==> HeldEarlier(rows, before, r, KeyOf(was[j]))
      ensures Passed(r, i)
    {
      forall j | 0 <= j < i
        ensures HeldEarlier(rows, claims, r, KeyOf(queues[r][j]))
      {
        HeldStays(rows, before, c, r, KeyOf(was[j]));
      }
    }

    /** A title the row does not own is passed by: an earlier row offers it. */
    lemma PassBy(r: nat, i: nat)
      requires Valid() && r < |rows| && i < |queues[r]| && RoomAt(rows, taken, r) && Passed(r, i)
      requires KeyOf(queues[r][i]) !in claimed && !Owns(rows, offered, taken, claimed, r, queues[r][i])
      ensures Passed(r, i + 1) && (TakeableFrom(r, i) ==> TakeableFrom(r, i + 1))
    {
      QueuedTitle(r, i);
      OwnsMeans(rows, offered, claims, taken, claimed, r, queues[r][i]);
    }

    /** Looks at the title at `index` of row `r`'s queue: drops it, passes it by, or claims it. */
    method DrainOne(r: nat, index: nat) returns (next: nat, took: bool)
      requires Valid() && r < |rows| && index < |queues[r]| && |claims| < budget
      requires RoomAt(rows, taken, r) && Passed(r, index)
      modifies this`queues, this`taken, this`claimed, this`claims
      ensures Valid() && Passed(r, next)
      ensures |queues[r]| - next < old(|queues[r]|) - index
      ensures took ==> |claims| == |old(claims)| + 1 && MoreFor(r, old(claims), claims)
      ensures !took ==> claims == old(claims) && taken == old(taken)
      ensures !took && old(TakeableFrom(r, index)) ==> TakeableFrom(r, next)
    {
      hide RequestAlloc.EarlierRowsFull;
      hide RequestAlloc.Feasible;
      hide Owns;
      hide OfferedInOrder;
      hide Queues;
      hide Tallies;
      hide Owner;
      hide HeldEarlier;
      var title := queues[r][index];
      next, took := index, false;
      if KeyOf(title) in claimed {
        Discard(r, index);
        return;
      }
      if !Owns(rows, offered, taken, claimed, r, title) {
        PassBy(r, index);
        next := index + 1;
        return;
      }
      ghost var was, before := queues[r], claims;
      Take(r, index);
      StillPassed(r, was, index, before, Claim(r, title));
      took := true;
    }

    /** Takes up to `most` titles for one row, skipping for now any an earlier row owns. */
    method Drain(r: nat, most: nat)
      requires Valid() && r < |rows| && most > 0
      modifies this`queues, this`taken, this`claimed, this`claims
      ensures Valid() && MoreFor(r, old(claims), claims) && |claims| <= |old(claims)| + most
      ensures old(CanTake(r)) && |old(claims)| < budget ==> |claims| > |old(claims)|
      ensures |claims| == |old(claims)| + most || |claims| >= budget || Stuck(rows, claims, r)
    {
      hide RequestAlloc.EarlierRowsFull;
      hide RequestAlloc.Feasible;
      hide Queues;
      hide Owns;
      hide OfferedInOrder;
      var allowance: nat, index: nat := most, 0;
      ghost var could := CanTake(r) && |claims| < budget;
      while allowance > 0 && index < |queues[r]| && |claims| < budget
        invariant Valid() && MoreFor(r, old(claims), claims) && |claims| + allowance == |old(claims)| + most
        invariant Passed(r, index)
        invariant could && claims == old(claims) ==> RoomAt(rows, taken, r) && TakeableFrom(r, index)
        decreases |queues[r]| - index
      {
        if !RoomAt(rows, taken, r) {
          return;
        }
        var took;
        index, took := DrainOne(r, index);
        if took {
          allowance := allowance - 1;
        }
      }
      if index == |queues[r]| {
        PassedAll(r);
      }
    }

    // ----- one round -----

    /** The rows that still have room and an unclaimed title of their own. */
    method FindLive() returns (live: seq<nat>)
      requires Valid()
      ensures forall r: nat :: r in live <==> r < |rows| && CanTake(r)
      ensures |live| <= |rows| && Ascending(live)
    {
      hide CanTake;
      hide Valid;
      live := [];
      for r := 0 to |rows|
        invariant forall q: nat :: q in live <==> q < r && CanTake(q)
        invariant |live| <= r && Ascending(live)
      {
        assert forall i :: 0 <= i < |live| ==> live[i] in live;
        if CanTake(r) {
          live := live + [r];
        }
      }
    }

    lemma NotLiveIsSpent(r: nat)
      requires Valid() && r < |rows| && !CanTake(r)
      ensures Spent(rows, claims, r)
    {
      if HasRoom(rows, claims, r) {
        forall t | t in rows[r].titles && KeyOf(t) !in claimed
          ensures HeldEarlier(rows, claims, r, KeyOf(t))
        {
          var j :| 0 <= j < |queues[r]| && queues[r][j] == t;
          assert !Owns(rows, offered, taken, claimed, r, t);
          OwnsMeans(rows, offered, claims, taken, claimed, r, t);
        }
        NoneUnheld(r);
        ShutOutIsSpent(rows, claims, r);
      }
    }

    lemma LiveNotStuck(r: nat)
      requires Valid() && r < |rows| && CanTake(r)
      ensures !Stuck(rows, claims, r)
    {
      var j :| 0 <= j < |queues[r]| && Owns(rows, offered, taken, claimed, r, queues[r][j]);
      QueuedTitle(r, j);
      TitleOffered(rows, r, queues[r][j]);
      OwnedIsMine(r, queues[r][j]);
    }

    lemma NoneUnheld(r: nat)
      requires Valid() && r < |rows|
      requires forall t :: t in rows[r].titles && KeyOf(t) !in claimed ==> HeldEarlier(rows, claims, r, KeyOf(t))
      ensures ShutOut(rows, claims, r)
    {
      forall key | Offers(rows, r, key) && key !in claimed
        ensures HeldEarlier(rows, claims, r, key)
      {
        var j :| 0 <= j < |rows[r].titles| && KeyOf(rows[r].titles[j]) == key;
        assert rows[r].titles[j] in rows[r].titles;
      }
    }

    /** An unclaimed title offered by a row with room makes some row live. */
    lemma OwnerIsLive(r: nat, key: Key) returns (o: nat)
      requires Valid() && HasRoom(rows, claims, r) && Offers(rows, r, key) && key !in claimed
      ensures o < |rows| && CanTake(o)
    {
      OwnerIsEarliest(rows, taken, offered[key], r);
      o := Owner(rows, taken, offered[key]);
      assert Offers(rows, o, key);
      var j :| 0 <= j < |rows[o].titles| && KeyOf(rows[o].titles[j]) == key;
      assert rows[o].titles[j] in queues[o];
      var i :| 0 <= i < |queues[o]| && queues[o][i] == rows[o].titles[j];
      assert Owns(rows, offered, taken, claimed, o, queues[o][i]);
    }

    /** With no row live, nothing that could be claimed was left. */
    lemma NoneLiveIsMaximal()
      requires Valid() && forall r: nat :: r < |rows| ==> !CanTake(r)
      ensures Maximal(rows, claims)
    {
      forall r, key | HasRoom(rows, claims, r) && Offers(rows, r, key)
        ensures key in KeysOf(claims)
      {
        if key !in claimed {
          var o := OwnerIsLive(r, key);
        }
      }
    }

    /** One live row's turn in a round. */
    method Serve(live: seq<nat>, position: nat, share: nat, extra: nat, ghost before: seq<Claim>)
      requires Valid() && extra < |live| && position < |live| && live[position] < |rows| && Ascending(live)
      requires RoundSoFar(rows, before, claims, live, position, share, extra)
      requires UsedUp(rows, before, claims, live, Given(share, extra, position))
      requires |claims| <= |before| + Given(share, extra, position)
      requires budget == |before| + Given(share, extra, |live|) && |before| < budget
      requires !Stuck(rows, before, live[position])
      requires position == 0 ==> CanTake(live[0])
      requires position > 0 ==> |claims| > |before|
      modifies this`queues, this`taken, this`claimed, this`claims
      ensures Valid() && RoundSoFar(rows, before, claims, live, position + 1, share, extra)
      ensures UsedUp(rows, before, claims, live, Given(share, extra, position + 1))
      ensures |before| < |claims| <= |before| + Given(share, extra, position + 1)
    {
      hide CanTake;
      hide RoundSoFar;
      hide UsedUp;
      hide Books;
      hide Stuck;
      hide OfferedInOrder;
      hide Queues;
      hide Tallies;
      hide RequestAlloc.Feasible;
      hide RequestAlloc.EarlierRowsFull;
      var allowance := share + (if position < extra then 1 else 0);
      GivenStep(share, extra, position);
      GivenWithin(share, extra, position + 1, |live|);
      ghost var start := claims;
      RoundExtends(rows, before, start, live, position, share, extra);
      if allowance > 0 {
        Drain(live[position], allowance);
      }
      OneServed(rows, before, start, claims, live, position, share, extra);
      NowUsedUp(rows, before, start, claims, live, live[position], Given(share, extra, position), allowance);
    }

    /** Splits what is left of the budget evenly between the live rows, the remainder going to the earlier ones. */
    method Round(live: seq<nat>, share: nat, extra: nat)
      requires Valid() && extra < |live| && |claims| < budget == |claims| + Given(share, extra, |live|)
      requires Ascending(live) && forall r: nat :: r in live ==> r < |rows| && CanTake(r)
      modifies this`queues, this`taken, this`claimed, this`claims
      ensures Valid() && |claims| > |old(claims)|
      ensures RoundSoFar(rows, old(claims), claims, live, |live|, share, extra)
      ensures UsedUp(rows, old(claims), claims, live, budget - |old(claims)|)
    {
      hide CanTake;
      hide RoundSoFar;
      hide UsedUp;
      hide Stuck;
      hide OfferedInOrder;
      hide Queues;
      hide Tallies;
      hide RequestAlloc.Feasible;
      hide RequestAlloc.EarlierRowsFull;
      ghost var before := claims;
      NoneServed(rows, before, live, share, extra);
      forall r: nat | r in live
        ensures !Stuck(rows, before, r)
      {
        LiveNotStuck(r);
      }
      for position := 0 to |live|
        invariant Valid() && RoundSoFar(rows, before, claims, live, position, share, extra)
        invariant UsedUp(rows, before, claims, live, Given(share, extra, position))
        invariant |claims| <= |before| + Given(share, extra, position)
        invariant position > 0 ==> |claims| > |before|
        invariant position == 0 ==> CanTake(live[0]) && claims == before
      {
        assert live[position] in live;
        Serve(live, position, share, extra, before);
        if |claims| >= budget {
          GivenWithin(share, extra, position + 1, |live|);
          if position + 1 < |live| {
            GivenFull(share, extra, position + 1, |live|);
            NothingDue(rows, before, claims, live, position + 1, share, extra);
          }
          AllUsed(rows, before, claims, live, budget - |before|);
          break;
        }
      }
    }
  }

  // ----- the whole allocation -----

  /** `offered` for the rows before `done`, and the first `upTo` titles of row `done`. */
  ghost predicate OfferedSoFar(rows: seq<Row>, offered: OfferedBy, done: nat, upTo: nat)
    requires done <= |rows|
  {
    && (forall key :: key in offered ==> |offered[key]| > 0 && Sorted(offered[key]))
    && (forall key, r: nat :: key in offered && r in offered[key] ==> Offers(rows, r, key) && r <= done && r < |rows|)
    && (forall key, r: nat :: Offers(rows, r, key) && r < done ==> key in offered && r in offered[key])
    && (done < |rows| && upTo <= |rows[done].titles| ==>
          forall j :: 0 <= j < upTo ==> KeyOf(rows[done].titles[j]) in offered
                                        && done in offered[KeyOf(rows[done].titles[j])])
  }

  lemma OfferOne(rows: seq<Row>, offered: OfferedBy, r: nat, j: nat)
    requires r < |rows| && j < |rows[r].titles| && OfferedSoFar(rows, offered, r, j)
    ensures var key := KeyOf(rows[r].titles[j]);
            OfferedSoFar(rows, offered[key := (if key in offered then offered[key] else []) + [r]], r, j + 1)
  {
    TitleOffered(rows, r, rows[r].titles[j]);
    var key := KeyOf(rows[r].titles[j]);
    var was := if key in offered then offered[key] else [];
    assert (was + [r])[|was|] == r;
    forall i | 0 <= i < |was|
      ensures was[i] <= r
    {
      assert was[i] in was;
    }
    forall q | q in was
      ensures q in was + [r]
    {
    }
    var next := offered[key := was + [r]];
    forall i | 0 <= i < j + 1
      ensures KeyOf(rows[r].titles[i]) in next && r in next[KeyOf(rows[r].titles[i])]
    {
    }
    forall k, q: nat | k in next && q in next[k]
      ensures Offers(rows, q, k) && q <= r && q < |rows|
    {
      assert k != key || q in was || q == r;
    }
  }

  lemma NextRow(rows: seq<Row>, offered: OfferedBy, r: nat)
    requires r < |rows| && OfferedSoFar(rows, offered, r, |rows[r].titles|)
    ensures OfferedSoFar(rows, offered, r + 1, 0)
  {
  }

  method BuildOffers(rows: seq<Row>) returns (offered: OfferedBy)
    ensures OfferedInOrder(rows, offered)
  {
    offered := map[];
    for r := 0 to |rows|
      invariant OfferedSoFar(rows, offered, r, 0)
    {
      for j := 0 to |rows[r].titles|
        invariant OfferedSoFar(rows, offered, r, j)
      {
        var key := KeyOf(rows[r].titles[j]);
        OfferOne(rows, offered, r, j);
        offered := offered[key := (if key in offered then offered[key] else []) + [r]];
      }
      NextRow(rows, offered, r);
    }
  }

  lemma SmallerShare(n: nat, m: nat, total: nat)
    requires 0 < m <= n
    ensures total / n <= total / m
  {
    var q := total / n;
    if m < n {
      OneMoreTimes(q, m, n);
    }
    assert q * m <= total;
    if q > total / m {
      OneMoreTimes(m, total / m, q);
    }
  }

  lemma EvenExtends(rows: seq<Row>, before: seq<Claim>, after: seq<Claim>, quota: nat)
    requires before <= after && EvenlySplit(rows, before, quota)
    ensures EvenlySplit(rows, after, quota)
  {
    forall r | 0 <= r < |rows|
      ensures Taken(after, r) >= quota || Spent(rows, after, r)
    {
      TakenMore(before, after, r);
      if Spent(rows, before, r) {
        SpentExtends(rows, before, after, r);
      }
    }
  }

  /** After the first round every row has had its even share, or could not use it. */
  lemma FirstRoundSplitsEvenly(rows: seq<Row>, live: seq<nat>, after: seq<Claim>, share: nat, extra: nat, quota: nat)
    requires RoundSoFar(rows, [], after, live, |live|, share, extra)
    requires forall r: nat :: r < |rows| && r !in live ==> Spent(rows, [], r)
    requires quota <= share
    ensures EvenlySplit(rows, after, quota)
  {
    forall r | 0 <= r < |rows|
      ensures Taken(after, r) >= quota || Spent(rows, after, r)
    {
      if r in live {
        var i :| 0 <= i < |live| && live[i] == r;
        assert Served(rows, [], after, live[i], Allowance(share, extra, i));
      } else {
        SpentExtends(rows, [], after, r);
      }
    }
  }

  /** One turn of the allocator's loop: false when nothing is left that anyone can take. */
  method RunRound(slots: Slots) returns (more: bool)
    requires slots.Valid() && |slots.claims| < slots.budget
    requires slots.claims == [] || EvenlySplit(slots.rows, slots.claims, Quota(slots.rows, slots.budget))
    requires ByRounds(slots.rows, slots.budget, slots.claims)
    modifies slots`queues, slots`taken, slots`claimed, slots`claims
    ensures slots.Valid() && EvenlySplit(slots.rows, slots.claims, Quota(slots.rows, slots.budget))
    ensures ByRounds(slots.rows, slots.budget, slots.claims)
    ensures more ==> |slots.claims| > |old(slots.claims)|
    ensures !more ==> slots.claims == old(slots.claims) && Maximal(slots.rows, slots.claims)
  {
    hide Spent;
    hide RequestAlloc.Maximal;
    hide RoundSoFar;
    hide UsedUp;
    hide RequestAlloc.EvenRound;
    hide RequestAlloc.ByRounds;
    hide RequestAlloc.EvenlySplit;
    hide OfferedInOrder;
    hide Queues;
    hide Tallies;
    hide Kept;
    ghost var rows, before := slots.rows, slots.claims;
    var live := slots.FindLive();
    more := |live| > 0;
    forall r: nat | r < |rows| && r !in live
      ensures Spent(rows, before, r)
    {
      slots.NotLiveIsSpent(r);
    }
    if more {
      SmallerShare(|rows|, |live|, slots.budget);
      var remaining: nat := slots.budget - |slots.claims|;
      var share, extra := remaining / |live|, remaining % |live|;
      slots.Round(live, share, extra);
      RoundIsEven(rows, slots.budget, before, slots.claims, live, share, extra);
      OneMoreRound(rows, slots.budget, before, slots.claims);
      if before == [] {
        FirstRoundSplitsEvenly(rows, live, slots.claims, share, extra, Quota(rows, slots.budget));
      } else {
        RoundExtends(rows, before, slots.claims, live, |live|, share, extra);
        EvenExtends(rows, before, slots.claims, Quota(rows, slots.budget));
      }
    } else {
      slots.NoneLiveIsMaximal();
      AllSpentIsEven(rows, before, Quota(rows, slots.budget));
    }
  }

  lemma AllSpentIsEven(rows: seq<Row>, claims: seq<Claim>, quota: nat)
    requires forall r: nat :: r < |rows| ==> Spent(rows, claims, r)
    ensures EvenlySplit(rows, claims, quota)
  {
  }

  /** Claims at most `cap` titles: feasibly, in run order, evenly, and leaving no slot idle that a row could use. */
  method Allocate(rows: seq<Row>, cap: int) returns (claims: seq<Claim>)
    ensures Allocated(rows, if cap < 0 then 0 else cap, claims)
  {
    var budget := if cap < 0 then 0 else cap;
    if |rows| == 0 || budget == 0 {
      return [];
    }
    var offered := BuildOffers(rows);
    var slots := new Slots(rows, budget, offered);
    var more := true;
    while |slots.claims| < budget && more
      invariant slots.Valid() && slots.rows == rows && slots.budget == budget
      invariant slots.claims == [] || EvenlySplit(rows, slots.claims, Quota(rows, budget))
      invariant ByRounds(rows, budget, slots.claims)
      invariant more || (Maximal(rows, slots.claims) && EvenlySplit(rows, slots.claims, Quota(rows, budget)))
      decreases budget - |slots.claims|, more
    {
      more := RunRound(slots);
    }
    claims := slots.claims;
    RoundsLead(rows, budget, claims);
  }
}
