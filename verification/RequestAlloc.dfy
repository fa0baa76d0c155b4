/** Dividing a run's request slots between the rows that want titles: an even split, redistributed round by round.
    A row is named by its place in run order. */
module RequestAlloc {
  import opened Options

  datatype MediaType = Movie | Show

  datatype Title = Title(tmdbId: int, media: MediaType, name: string)

  /** A title counts once however many rows offer it: movie 550 and show 550 are different titles. */
  datatype Key = Key(tmdbId: int, media: MediaType)

  function KeyOf(t: Title): Key {
    Key(t.tmdbId, t.media)
  }

  /** Titles are told apart by id and media type together, and by nothing else. */
  lemma KeyTells(s: Title, t: Title)
    ensures KeyOf(s) == KeyOf(t) <==> s.tmdbId == t.tmdbId && s.media == t.media
  {
  }

  /** A row's qualifying titles, best first, and its own cap. */
  datatype Row = Row(titles: seq<Title>, cap: Option<int>)

  datatype Claim = Claim(row: nat, title: Title)

  // ----- what an allocation must be -----

  predicate Offers(rows: seq<Row>, r: nat, key: Key) {
    r < |rows| && exists j :: 0 <= j < |rows[r].titles| && KeyOf(rows[r].titles[j]) == key
  }

  function Taken(claims: seq<Claim>, r: nat): nat {
    if |claims| == 0 then 0
    else Taken(claims[..|claims| - 1], r) + (if claims[|claims| - 1].row == r then 1 else 0)
  }

  predicate Room(rows: seq<Row>, r: nat, taken: nat) {
    r < |rows| && (rows[r].cap.None? || taken < rows[r].cap.value)
  }

  predicate HasRoom(rows: seq<Row>, claims: seq<Claim>, r: nat) {
    Room(rows, r, Taken(claims, r))
  }

  function KeysOf(claims: seq<Claim>): set<Key> {
    set c | c in claims :: KeyOf(c.title)
  }

  ghost predicate DistinctKeys(claims: seq<Claim>) {
    forall i, j :: 0 <= i < j < |claims| ==> KeyOf(claims[i].title) != KeyOf(claims[j].title)
  }

  ghost predicate FromOwnList(rows: seq<Row>, claims: seq<Claim>) {
    forall i :: 0 <= i < |claims| ==> claims[i].row < |rows| && claims[i].title in rows[claims[i].row].titles
  }

  ghost predicate WithinCaps(rows: seq<Row>, claims: seq<Claim>) {
    forall r :: 0 <= r < |rows| && rows[r].cap.Some? ==>
      Taken(claims, r) <= if rows[r].cap.value < 0 then 0 else rows[r].cap.value
  }

  /** Distinct titles, each from its row's own list, within every row's cap and the run's. */
  ghost predicate Feasible(rows: seq<Row>, budget: nat, claims: seq<Claim>) {
    DistinctKeys(claims) && FromOwnList(rows, claims) && WithinCaps(rows, claims) && |claims| <= budget
  }

  /** A title went to a later row only because every earlier one offering it was full by then. */
  ghost predicate EarlierRowsFull(rows: seq<Row>, claims: seq<Claim>) {
    forall i, r :: 0 <= i < |claims| && 0 <= r < claims[i].row && Offers(rows, r, KeyOf(claims[i].title)) ==>
      !HasRoom(rows, claims[..i], r)
  }

  /** An earlier row offers the title, and has room to take it yet. */
  ghost predicate HeldEarlier(rows: seq<Row>, claims: seq<Claim>, r: nat, key: Key) {
    exists q :: 0 <= q < r && Offers(rows, q, key) && HasRoom(rows, claims, q)
  }

  /** A row reached past its better titles only when they were claimed, or an earlier row with room offered them. */
  ghost predicate Preferred(rows: seq<Row>, before: seq<Claim>, c: Claim) {
    && c.row < |rows|
    && exists p :: 0 <= p < |rows[c.row].titles| && rows[c.row].titles[p] == c.title
         && Exhausted(rows, before, c.row, p)
  }

  ghost predicate Exhausted(rows: seq<Row>, before: seq<Claim>, r: nat, p: nat)
    requires r < |rows| && p <= |rows[r].titles|
  {
    forall q :: 0 <= q < p ==>
      KeyOf(rows[r].titles[q]) in KeysOf(before) || HeldEarlier(rows, before, r, KeyOf(rows[r].titles[q]))
  }

  ghost predicate BestFirst(rows: seq<Row>, claims: seq<Claim>) {
    forall i :: 0 <= i < |claims| ==> Preferred(rows, claims[..i], claims[i])
  }

  /** No row with room offers a title nobody claimed. */
  ghost predicate Maximal(rows: seq<Row>, claims: seq<Claim>) {
    forall r, key :: HasRoom(rows, claims, r) && Offers(rows, r, key) ==> key in KeysOf(claims)
  }

  /** Everything the row offers is claimed, or an earlier row with room offers it too. */
  ghost predicate ShutOut(rows: seq<Row>, claims: seq<Claim>, r: nat) {
    forall key :: Offers(rows, r, key) ==> key in KeysOf(claims) || HeldEarlier(rows, claims, r, key)
  }

  /** The row is full, or there came a point at which it could take nothing. */
  ghost predicate Spent(rows: seq<Row>, claims: seq<Claim>, r: nat) {
    !HasRoom(rows, claims, r) || exists m :: 0 <= m <= |claims| && ShutOut(rows, claims[..m], r)
  }

  /** Every row has its even share, unless it could not use it. */
  ghost predicate EvenlySplit(rows: seq<Row>, claims: seq<Claim>, quota: nat) {
    forall r :: 0 <= r < |rows| ==> Taken(claims, r) >= quota || Spent(rows, claims, r)
  }

  /** Of two rows the earlier has no fewer, unless it was spent. */
  ghost predicate EarlierLead(rows: seq<Row>, claims: seq<Claim>) {
    forall q, r :: 0 <= q < r < |rows| ==> Spent(rows, claims, q) || Taken(claims, q) >= Taken(claims, r)
  }

  /** The row can take nothing as things stand. */
  ghost predicate Stuck(rows: seq<Row>, claims: seq<Claim>, r: nat) {
    !HasRoom(rows, claims, r) || ShutOut(rows, claims, r)
  }

  ghost function Gain(before: seq<Claim>, after: seq<Claim>, r: nat): int {
    Taken(after, r) - Taken(before, r)
  }

  /** A row that could take something was left able to take nothing. */
  ghost predicate RanOut(rows: seq<Row>, before: seq<Claim>, after: seq<Claim>, r: nat) {
    !Stuck(rows, before, r) && exists m :: |before| < m <= |after| && Stuck(rows, after[..m], r)
  }

  /** No row gains more than an earlier row that is not spent, nor more than one over a later one; and what is left of
      the budget goes, unless some row runs out. */
  ghost predicate EvenRound(rows: seq<Row>, budget: nat, before: seq<Claim>, after: seq<Claim>) {
    && before <= after
    && (forall q, r :: 0 <= q < |rows| && 0 <= r < |rows| && !Spent(rows, after, q) ==>
          Gain(before, after, r) <= Gain(before, after, q) + (if r < q then 1 else 0))
    && (|after| == budget || exists r :: 0 <= r < |rows| && RanOut(rows, before, after, r))
  }

  /** The claims were made in even rounds, each dividing what the ones before it left. */
  ghost predicate ByRounds(rows: seq<Row>, budget: nat, claims: seq<Claim>)
    decreases |claims|
  {
    |claims| == 0 ||
    exists n: nat :: n < |claims| && ByRounds(rows, budget, claims[..n])
                     && EvenRound(rows, budget, claims[..n], claims)
  }

  function Quota(rows: seq<Row>, budget: nat): nat {
    if |rows| == 0 then 0 else budget / |rows|
  }

  /** What the allocator promises: titles claimed feasibly, in run order, best first, evenly and round by round, the
      earlier rows leading, and with no slot idle that a row could use. */
  ghost predicate Allocated(rows: seq<Row>, budget: nat, claims: seq<Claim>) {
    && Feasible(rows, budget, claims) && EarlierRowsFull(rows, claims) && BestFirst(rows, claims)
    && (|claims| == budget || Maximal(rows, claims))
    && EvenlySplit(rows, claims, Quota(rows, budget)) && EarlierLead(rows, claims) && ByRounds(rows, budget, claims)
  }

  // ----- one more claim -----

  lemma TakenSnoc(claims: seq<Claim>, c: Claim, r: nat)
    ensures Taken(claims + [c], r) == Taken(claims, r) + (if c.row == r then 1 else 0)
  {
    assert (claims + [c])[..|claims|] == claims;
  }

  lemma KeysSnoc(claims: seq<Claim>, c: Claim)
    ensures KeysOf(claims + [c]) == KeysOf(claims) + {KeyOf(c.title)}
  {
    assert c in claims + [c];
    forall d | d in claims
      ensures d in claims + [c]
    {
    }
  }

  lemma SpentStays(rows: seq<Row>, claims: seq<Claim>, c: Claim, r: nat)
    requires Spent(rows, claims, r)
    ensures Spent(rows, claims + [c], r)
  {
    TakenSnoc(claims, c, r);
    if m :| 0 <= m <= |claims| && ShutOut(rows, claims[..m], r) {
      assert (claims + [c])[..m] == claims[..m];
    }
  }

  lemma ShutOutIsSpent(rows: seq<Row>, claims: seq<Claim>, r: nat)
    requires ShutOut(rows, claims, r)
    ensures Spent(rows, claims, r)
  {
    assert claims[..|claims|] == claims;
  }

  /** A title an earlier row holds is still held when a later row takes another. */
  lemma HeldStays(rows: seq<Row>, claims: seq<Claim>, c: Claim, r: nat, key: Key)
    requires HeldEarlier(rows, claims, r, key) && c.row >= r
    ensures HeldEarlier(rows, claims + [c], r, key)
  {
    var q :| 0 <= q < r && Offers(rows, q, key) && HasRoom(rows, claims, q);
    TakenSnoc(claims, c, q);
  }

  /** A claim of the earliest row with room keeps an allocation feasible, and keeps run order. */
  lemma ClaimKeeps(rows: seq<Row>, budget: nat, claims: seq<Claim>, c: Claim)
    requires Feasible(rows, budget, claims) && EarlierRowsFull(rows, claims) && |claims| < budget
    requires HasRoom(rows, claims, c.row) && c.title in rows[c.row].titles && KeyOf(c.title) !in KeysOf(claims)
    requires forall q :: 0 <= q < c.row && Offers(rows, q, KeyOf(c.title)) ==> !HasRoom(rows, claims, q)
    ensures Feasible(rows, budget, claims + [c]) && EarlierRowsFull(rows, claims + [c])
  {
    ClaimKeepsFeasible(rows, budget, claims, c);
    var after := claims + [c];
    forall i, r | 0 <= i < |after| && 0 <= r < after[i].row && Offers(rows, r, KeyOf(after[i].title))
      ensures !HasRoom(rows, after[..i], r)
    {
      assert after[..i] == if i < |claims| then claims[..i] else claims;
    }
  }

  lemma ClaimKeepsBestFirst(rows: seq<Row>, claims: seq<Claim>, c: Claim)
    requires BestFirst(rows, claims) && Preferred(rows, claims, c)
    ensures BestFirst(rows, claims + [c])
  {
    forall i | 0 <= i < |claims + [c]|
      ensures Preferred(rows, (claims + [c])[..i], (claims + [c])[i])
    {
      assert (claims + [c])[..i] == claims[..i];
      assert claims[..|claims|] == claims;
    }
  }

  lemma ClaimKeepsFeasible(rows: seq<Row>, budget: nat, claims: seq<Claim>, c: Claim)
    requires Feasible(rows, budget, claims) && |claims| < budget
    requires HasRoom(rows, claims, c.row) && c.title in rows[c.row].titles && KeyOf(c.title) !in KeysOf(claims)
    ensures Feasible(rows, budget, claims + [c])
  {
    var after := claims + [c];
    forall i | 0 <= i < |claims|
      ensures KeyOf(claims[i].title) in KeysOf(claims)
    {
      assert claims[i] in claims;
    }
    forall r | 0 <= r < |rows| && rows[r].cap.Some?
      ensures Taken(after, r) <= if rows[r].cap.value < 0 then 0 else rows[r].cap.value
    {
      TakenSnoc(claims, c, r);
    }
  }

  // ----- at least half of anything feasible -----

  function RowsOf(claims: seq<Claim>): (rs: seq<nat>)
    ensures |rs| == |claims| && forall i :: 0 <= i < |claims| ==> rs[i] == claims[i].row
  {
    seq(|claims|, i requires 0 <= i < |claims| => claims[i].row)
  }

  lemma {:induction false} TakenIsCount(claims: seq<Claim>, r: nat)
    ensures multiset(RowsOf(claims))[r] == Taken(claims, r)
  {
    if |claims| > 0 {
      var init := claims[..|claims| - 1];
      TakenIsCount(init, r);
      assert RowsOf(claims) == RowsOf(init) + [claims[|claims| - 1].row];
    }
  }

  lemma FewerPerRow(a: seq<Claim>, b: seq<Claim>)
    requires forall r: nat :: Taken(a, r) <= Taken(b, r)
    ensures |a| <= |b|
  {
    var ma, mb := multiset(RowsOf(a)), multiset(RowsOf(b));
    forall r: nat
      ensures ma[r] <= mb[r]
    {
      TakenIsCount(a, r);
      TakenIsCount(b, r);
    }
    assert mb == ma + (mb - ma);
    assert |ma| == |RowsOf(a)| && |mb| == |RowsOf(b)|;
  }

  /** The claims of `other` whose title was, or was not, claimed here. */
  function Split(other: seq<Claim>, keys: set<Key>, within: bool): (part: seq<Claim>)
    ensures forall c :: c in part ==> c in other && (KeyOf(c.title) in keys <==> within)
  {
    if |other| == 0 then []
    else
      var c := other[|other| - 1];
      Split(other[..|other| - 1], keys, within) + (if (KeyOf(c.title) in keys) == within then [c] else [])
  }

  lemma {:induction false} SplitSizes(other: seq<Claim>, keys: set<Key>)
    ensures |Split(other, keys, true)| + |Split(other, keys, false)| == |other|
  {
    if |other| > 0 {
      SplitSizes(other[..|other| - 1], keys);
    }
  }

  lemma {:induction false} SplitTaken(other: seq<Claim>, keys: set<Key>, r: nat)
    ensures Taken(Split(other, keys, false), r) <= Taken(other, r)
  {
    if |other| > 0 {
      var init, c := other[..|other| - 1], other[|other| - 1];
      SplitTaken(init, keys, r);
      if KeyOf(c.title) !in keys {
        TakenSnoc(Split(init, keys, false), c, r);
      } else {
        assert Split(init, keys, false) + [] == Split(init, keys, false);
      }
    }
  }

  lemma {:induction false} TakenHasClaim(claims: seq<Claim>, r: nat) returns (c: Claim)
    requires Taken(claims, r) > 0
    ensures c in claims && c.row == r
  {
    c := claims[|claims| - 1];
    if c.row != r {
      c := TakenHasClaim(claims[..|claims| - 1], r);
    }
  }

  lemma {:induction false} DistinctFit(other: seq<Claim>, keys: set<Key>)
    requires DistinctKeys(other)
    ensures |Split(other, keys, true)| <= |keys|
    decreases |other|
  {
    if |other| > 0 {
      var init, c := other[..|other| - 1], other[|other| - 1];
      if KeyOf(c.title) in keys {
        var rest := keys - {KeyOf(c.title)};
        DistinctFit(init, rest);
        SplitIgnores(init, keys, KeyOf(c.title));
        assert |rest| == |keys| - 1;
      } else {
        DistinctFit(init, keys);
      }
    }
  }

  lemma {:induction false} SplitIgnores(other: seq<Claim>, keys: set<Key>, key: Key)
    requires forall i :: 0 <= i < |other| ==> KeyOf(other[i].title) != key
    ensures Split(other, keys - {key}, true) == Split(other, keys, true)
  {
    if |other| > 0 {
      SplitIgnores(other[..|other| - 1], keys, key);
    }
  }

  lemma {:induction false} KeysAtMost(claims: seq<Claim>)
    ensures |KeysOf(claims)| <= |claims|
  {
    if |claims| > 0 {
      var init, c := claims[..|claims| - 1], claims[|claims| - 1];
      KeysAtMost(init);
      KeysSnoc(init, c);
      assert claims == init + [c];
    }
  }

  /** No feasible allocation holds more than twice as many titles as one that stopped at the ceiling or with nothing
      left to claim. */
  lemma AtLeastHalfOfAny(rows: seq<Row>, budget: nat, claims: seq<Claim>, other: seq<Claim>)
    requires Feasible(rows, budget, claims) && Feasible(rows, budget, other)
    requires |claims| == budget || Maximal(rows, claims)
    ensures |other| <= 2 * |claims|
  {
    if |claims| < budget {
      var keys := KeysOf(claims);
      var unclaimed := Split(other, keys, false);
      forall r: nat
        ensures Taken(unclaimed, r) <= Taken(claims, r)
      {
        SplitTaken(other, keys, r);
        if Taken(unclaimed, r) > 0 {
          var c := TakenHasClaim(unclaimed, r);
          UnclaimedRowIsFull(rows, budget, claims, other, c);
        }
      }
      FewerPerRow(unclaimed, claims);
      DistinctFit(other, keys);
      KeysAtMost(claims);
      SplitSizes(other, keys);
    }
  }

  lemma UnclaimedRowIsFull(rows: seq<Row>, budget: nat, claims: seq<Claim>, other: seq<Claim>, c: Claim)
    requires Feasible(rows, budget, other) && Maximal(rows, claims)
    requires c in other && KeyOf(c.title) !in KeysOf(claims)
    ensures Taken(other, c.row) <= Taken(claims, c.row)
  {
    var i :| 0 <= i < |other| && other[i] == c;
    var j :| 0 <= j < |rows[c.row].titles| && rows[c.row].titles[j] == c.title;
    assert Offers(rows, c.row, KeyOf(c.title));
  }

  /** Two rows that want one title, of which the first could do with another. */
  function Contested(a: Title, b: Title): seq<Row> {
    [Row([a, b], Some(1)), Row([a], None)]
  }

  lemma ContestedOffers(a: Title, b: Title)
    requires KeyOf(a) != KeyOf(b)
    ensures forall r: nat, key :: Offers(Contested(a, b), r, key) <==>
              (r == 0 && (key == KeyOf(a) || key == KeyOf(b))) || (r == 1 && key == KeyOf(a))
  {
    var rows := Contested(a, b);
    assert rows[0].titles[0] == a && rows[0].titles[1] == b && rows[1].titles[0] == a;
  }

  /** The allocator's first claim is the better title of the first row. */
  lemma ContestedFirst(a: Title, b: Title, claims: seq<Claim>)
    requires KeyOf(a) != KeyOf(b) && |claims| > 0
    requires FromOwnList(Contested(a, b), claims) && EarlierRowsFull(Contested(a, b), claims)
    requires BestFirst(Contested(a, b), claims)
    ensures claims[0] == Claim(0, a)
  {
    var rows := Contested(a, b);
    ContestedOffers(a, b);
    assert claims[..0] == [] && Preferred(rows, claims[..0], claims[0]);
    assert HasRoom(rows, claims[..0], 0) && Offers(rows, 0, KeyOf(a)) && KeyOf(rows[0].titles[0]) !in KeysOf([]);
    if claims[0].row == 0 {
      var p :| 0 <= p < |rows[0].titles| && rows[0].titles[p] == claims[0].title && Exhausted(rows, [], 0, p);
      if p == 1 {
        assert false;
      }
    } else {
      assert false;
    }
  }

  lemma ContestedNotNone(a: Title, b: Title)
    requires KeyOf(a) != KeyOf(b)
    ensures !Maximal(Contested(a, b), [])
  {
    ContestedOffers(a, b);
    assert Offers(Contested(a, b), 0, KeyOf(a)) && HasRoom(Contested(a, b), [], 0) && KeyOf(a) !in KeysOf([]);
  }

  lemma ContestedNotTwo(a: Title, b: Title, c: Claim)
    requires KeyOf(a) != KeyOf(b)
    ensures !Feasible(Contested(a, b), 2, [Claim(0, a), c])
  {
    var rows, claims := Contested(a, b), [Claim(0, a), c];
    assert claims == [] + [Claim(0, a)] + [c];
    TakenSnoc([], Claim(0, a), 0);
    TakenSnoc([] + [Claim(0, a)], c, 0);
    if c.row == 0 {
      assert Taken(claims, 0) == 2 && rows[0].cap == Some(1);
    } else if c.row == 1 && c.title == a {
      assert KeyOf(claims[0].title) == KeyOf(claims[1].title);
    } else {
      assert claims[1] == c && (c.row == 1 ==> c.title !in rows[c.row].titles);
    }
  }

  lemma ContestedOnce(a: Title, b: Title, claims: seq<Claim>)
    requires KeyOf(a) != KeyOf(b) && Allocated(Contested(a, b), 2, claims)
    ensures claims == [Claim(0, a)]
  {
    hide EvenlySplit;
    hide BestFirst;
    hide EarlierRowsFull;
    hide Maximal;
    hide Contested;
    if |claims| == 0 {
      assert claims == [];
      ContestedNotNone(a, b);
    } else {
      ContestedFirst(a, b, claims);
      if |claims| == 2 {
        assert claims == [Claim(0, a), claims[1]];
        ContestedNotTwo(a, b, claims[1]);
      }
    }
  }

  lemma OtherFeasible(a: Title, b: Title)
    requires KeyOf(a) != KeyOf(b)
    ensures Feasible(Contested(a, b), 2, [Claim(0, b), Claim(1, a)])
  {
    var rows, other := Contested(a, b), [Claim(0, b), Claim(1, a)];
    assert other == [] + [Claim(0, b)] + [Claim(1, a)];
    forall r: nat
      ensures Taken(other, r) == (if r == 0 || r == 1 then 1 else 0)
    {
      TakenSnoc([], Claim(0, b), r);
      TakenSnoc([] + [Claim(0, b)], Claim(1, a), r);
    }
    assert rows[0].titles[1] == b && rows[1].titles[0] == a;
  }

  /** Half is all that can be promised: everything the allocator may do where two rows want one title is to give it to
      the first, though both could have had a title. */
  lemma HalfIsTight(a: Title, b: Title) returns (other: seq<Claim>)
    requires KeyOf(a) != KeyOf(b)
    ensures Feasible(Contested(a, b), 2, other)
    ensures forall claims :: Allocated(Contested(a, b), 2, claims) ==> |claims| == 1 && |other| == 2 * |claims|
  {
    other := [Claim(0, b), Claim(1, a)];
    OtherFeasible(a, b);
    forall claims | Allocated(Contested(a, b), 2, claims)
      ensures |claims| == 1
    {
      ContestedOnce(a, b, claims);
    }
  }
}
