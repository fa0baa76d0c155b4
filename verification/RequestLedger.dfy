/** Who asked for what: reads of several sources folded into one copy per person and row, and tags traced to people. */
module RequestLedger {
  import opened Options
  import opened RequestAlloc

  const OVERSEERR := "overseerr"
  const TAG := "tag"

  /** The title one person asked for. */
  datatype Asked = Asked(media: MediaType, tmdbId: int, person: int)

  /** When it was asked for, and what has arrived. */
  datatype Dates = Dates(requestedAt: Option<int>, landedAt: Option<int>, onDisk: bool, seasonsLanded: bool)

  /** The empty pattern holds in every row of the person; any other only in the rows that use it. */
  datatype RequestedTitle = RequestedTitle(asked: Asked, dates: Dates, foundIn: seq<string>, title: string,
                                           pattern: string)

  predicate ByOverseerr(t: RequestedTitle) {
    OVERSEERR in t.foundIn
  }

  /** Proof from the request list itself holds in every row. */
  predicate Sourced(t: RequestedTitle) {
    ByOverseerr(t) ==> t.pattern == ""
  }

  // ----- one title found twice -----

  /** Each source once, in order of first mention. */
  function Distinct(names: seq<string>): (once: seq<string>)
    ensures forall n :: n in once <==> n in names
    ensures forall i, j :: 0 <= i < j < |once| ==> once[i] != once[j]
  {
    if |names| == 0 then []
    else
      var last := names[|names| - 1];
      var init := Distinct(names[..|names| - 1]);
      if last in init then init else init + [last]
  }

  /** More mentions add sources behind those there are. */
  lemma {:induction false} DistinctGrows(names: seq<string>, more: seq<string>)
    ensures Distinct(names) <= Distinct(names + more)
  {
    if |more| > 0 {
      DistinctGrows(names, more[..|more| - 1]);
      assert (names + more)[..|names + more| - 1] == names + more[..|more| - 1];
    } else {
      assert names + more == names;
    }
  }

  /** `m` is the copy kept of two: its own name unless it has none, its own sources first. */
  ghost predicate KeptOver(m: RequestedTitle, kept: RequestedTitle, other: RequestedTitle) {
    && m.dates == kept.dates && m.pattern == kept.pattern
    && (kept.title != "" ==> m.title == kept.title) && (kept.title == "" ==> m.title == other.title)
    && Distinct(kept.foundIn) <= m.foundIn
    && forall n :: n in m.foundIn <==> n in kept.foundIn || n in other.foundIn
  }

  function MergeTitles(prev: RequestedTitle, t: RequestedTitle): RequestedTitle {
    if ByOverseerr(prev) || (!ByOverseerr(t) && prev.pattern == "") then
      prev.(foundIn := Distinct(prev.foundIn + t.foundIn), title := if prev.title != "" then prev.title else t.title)
    else
      t.(foundIn := Distinct(t.foundIn + prev.foundIn), title := if t.title != "" then t.title else prev.title)
  }

  /** The merged copy is of the same title, holds wherever either did, keeps the dates of an Overseerr copy, and is
      otherwise the better-proven of the two: the Overseerr one, else the one for every row, the earlier if both are. */
  lemma MergedTitle(prev: RequestedTitle, t: RequestedTitle)
    requires prev.asked == t.asked && Sourced(prev) && Sourced(t)
    requires prev.pattern == t.pattern || prev.pattern == "" || t.pattern == ""
    ensures var m := MergeTitles(prev, t);
            && m.asked == t.asked && Sourced(m)
            && m.pattern == (if prev.pattern == "" then "" else t.pattern)
            && (ByOverseerr(m) <==> ByOverseerr(prev) || ByOverseerr(t))
            && (ByOverseerr(prev) ==> m.dates == prev.dates)
            && (ByOverseerr(t) && !ByOverseerr(prev) ==> m.dates == t.dates)
            && (if ByOverseerr(prev) then KeptOver(m, prev, t)
                else if ByOverseerr(t) then KeptOver(m, t, prev)
                else if prev.pattern == "" then KeptOver(m, prev, t) else KeptOver(m, t, prev))
  {
    DistinctGrows(prev.foundIn, t.foundIn);
    DistinctGrows(t.foundIn, prev.foundIn);
  }

  // ----- the fold -----

  /** The copies of one person's title, by pattern. */
  type Copies = map<string, RequestedTitle>

  /** One copy valid for all rows, or copies for distinct patterns, each under its own. */
  ghost predicate GoodCopies(asked: Asked, copies: Copies) {
    && (forall p :: p in copies ==> copies[p].pattern == p && copies[p].asked == asked && Sourced(copies[p]))
    && ("" in copies ==> copies.Keys == {""})
  }

  predicate HoldsFor(pattern: string, row: string) {
    pattern == "" || pattern == row
  }

  ghost predicate Sees(copies: Copies, row: string) {
    exists p :: p in copies && HoldsFor(p, row)
  }

  ghost predicate Requested(copies: Copies) {
    exists p :: p in copies && ByOverseerr(copies[p])
  }

  /** A row sees a title at most once. */
  lemma SeenOnce(asked: Asked, copies: Copies, row: string, p: string, q: string)
    requires GoodCopies(asked, copies) && p in copies && q in copies && HoldsFor(p, row) && HoldsFor(q, row)
    ensures p == q
  {
  }

  /** The fold of one more read: what rows see, whether a request backs it, and whose dates it carries. */
  ghost predicate OneMore(before: Copies, after: Copies, t: RequestedTitle) {
    && (forall row :: Sees(after, row) <==> Sees(before, row) || HoldsFor(t.pattern, row))
    && (Requested(after) <==> Requested(before) || ByOverseerr(t))
    && (Requested(before) ==> "" in before && "" in after && after[""].dates == before[""].dates)
    && (ByOverseerr(t) && !Requested(before) ==> "" in after && after[""].dates == t.dates)
  }

  /** The copies after one more read, but where one for every row takes in several at once, whose order is open. */
  ghost predicate FoldedIn(before: Copies, after: Copies, t: RequestedTitle) {
    if t.pattern != "" && "" !in before then
      after == before[t.pattern := if t.pattern in before then MergeTitles(before[t.pattern], t) else t]
    else
      && after.Keys == {""}
      && (before == map[] ==> after[""] == t)
      && forall p :: before.Keys == {p} ==> after[""] == MergeTitles(before[p], t)
  }

  /** Part way through absorbing copies: `t` so far, and the copies still to absorb. */
  ghost predicate Absorbing(before: Copies, pending: set<string>, first: RequestedTitle, t: RequestedTitle) {
    && pending <= before.Keys && t.asked == first.asked && Sourced(t)
    && (t.pattern == "" || (t == first && pending == before.Keys))
    && (ByOverseerr(t) <==> ByOverseerr(first) || exists p :: p in before.Keys - pending && ByOverseerr(before[p]))
    && ((exists p :: p in before.Keys - pending && ByOverseerr(before[p])) ==>
          "" in before && t.dates == before[""].dates)
    && (ByOverseerr(first) && (forall p :: p in before.Keys - pending ==> !ByOverseerr(before[p])) ==>
          t.dates == first.dates)
  }

  function CopiesOf(merged: map<Asked, Copies>, asked: Asked): Copies {
    if asked in merged then merged[asked] else map[]
  }

  class Ledger {
    var merged: map<Asked, Copies>

    ghost predicate Valid()
      reads this
    {
      forall asked :: asked in merged ==> GoodCopies(asked, merged[asked])
    }

    constructor ()
      ensures Valid() && merged == map[]
    {
      merged := map[];
    }

    method Add(t: RequestedTitle)
      requires Valid() && Sourced(t)
      modifies this
      ensures Valid() && merged.Keys == old(merged).Keys + {t.asked}
      ensures forall asked :: asked in old(merged) && asked != t.asked ==> merged[asked] == old(merged)[asked]
      ensures OneMore(CopiesOf(old(merged), t.asked), merged[t.asked], t)
      ensures FoldedIn(CopiesOf(old(merged), t.asked), merged[t.asked], t)
    {
      var copies := CopiesOf(merged, t.asked);
      if "" in copies || t.pattern == "" {
        var whole := Absorb(copies, t);
        copies := map["" := whole];
      } else {
        AddScoped(copies, t);
        copies := copies[t.pattern := if t.pattern in copies then MergeTitles(copies[t.pattern], t) else t];
      }
      merged := merged[t.asked := copies];
    }
  }

  /** Proof for every row takes in the copies scoped to one pattern. */
  method Absorb(copies: Copies, first: RequestedTitle) returns (t: RequestedTitle)
    requires GoodCopies(first.asked, copies) && Sourced(first) && ("" in copies || first.pattern == "")
    ensures GoodCopies(first.asked, map["" := t]) && OneMore(copies, map["" := t], first)
    ensures copies == map[] ==> t == first
    ensures forall p :: copies.Keys == {p} ==> t == MergeTitles(copies[p], first)
  {
    t := first;
    var pending := copies.Keys;
    while pending != {}
      invariant Absorbing(copies, pending, first, t)
      invariant pending == copies.Keys ==> t == first
      invariant forall p :: copies.Keys == {p} && pending == {} ==> t == MergeTitles(copies[p], first)
      decreases |pending|
    {
      var p :| p in pending;
      AbsorbOne(copies, pending, first, t, p);
      t := MergeTitles(copies[p], t);
      pending := pending - {p};
    }
    Absorbed(copies, first, t);
  }

  lemma AbsorbOne(copies: Copies, pending: set<string>, first: RequestedTitle, t: RequestedTitle, p: string)
    requires GoodCopies(first.asked, copies) && Sourced(first) && ("" in copies || first.pattern == "")
    requires Absorbing(copies, pending, first, t) && p in pending
    ensures Absorbing(copies, pending - {p}, first, MergeTitles(copies[p], t))
  {
    MergedTitle(copies[p], t);
    assert copies.Keys - (pending - {p}) == (copies.Keys - pending) + {p};
  }

  lemma Absorbed(copies: Copies, first: RequestedTitle, t: RequestedTitle)
    requires GoodCopies(first.asked, copies) && Sourced(first) && ("" in copies || first.pattern == "")
    requires Absorbing(copies, {}, first, t)
    ensures GoodCopies(first.asked, map["" := t]) && OneMore(copies, map["" := t], first)
  {
    var after: Copies := map["" := t];
    assert copies.Keys - {} == copies.Keys;
    assert "" in after && HoldsFor("", "");
    forall row
      ensures Sees(after, row) && (Sees(copies, row) || HoldsFor(first.pattern, row))
    {
      assert "" in after && HoldsFor("", row);
    }
    assert ByOverseerr(t) ==> Requested(after) by {
      assert "" in after;
    }
  }

  lemma AddScoped(copies: Copies, t: RequestedTitle)
    requires GoodCopies(t.asked, copies) && Sourced(t) && "" !in copies && t.pattern != ""
    ensures var copy := if t.pattern in copies then MergeTitles(copies[t.pattern], t) else t;
            GoodCopies(t.asked, copies[t.pattern := copy]) && OneMore(copies, copies[t.pattern := copy], t)
  {
    if t.pattern in copies {
      MergedTitle(copies[t.pattern], t);
    }
    var copy := if t.pattern in copies then MergeTitles(copies[t.pattern], t) else t;
    var after := copies[t.pattern := copy];
    forall row
      ensures Sees(after, row) <==> Sees(copies, row) || HoldsFor(t.pattern, row)
    {
      if p :| p in copies && HoldsFor(p, row) {
        assert p in after;
      }
      assert t.pattern in after;
    }
  }

  // ----- a whole fold of reads -----

  /** A row sees a title exactly when some read proves it for that row. */
  ghost predicate SeesWhatWasRead(merged: map<Asked, Copies>, found: seq<RequestedTitle>) {
    forall asked, row ::
      Sees(CopiesOf(merged, asked), row) <==>
      exists i :: 0 <= i < |found| && found[i].asked == asked && HoldsFor(found[i].pattern, row)
  }

  /** Once a request is on record its dates stay, whatever tags are read after it. */
  ghost predicate KeepsFirstRequest(merged: map<Asked, Copies>, found: seq<RequestedTitle>) {
    && (forall asked :: Requested(CopiesOf(merged, asked)) <==>
          exists i :: 0 <= i < |found| && found[i].asked == asked && ByOverseerr(found[i]))
    && forall i :: 0 <= i < |found| && FirstRequest(found, i) ==>
         var copies := CopiesOf(merged, found[i].asked);
         "" in copies && copies[""].dates == found[i].dates
  }

  predicate FirstRequest(found: seq<RequestedTitle>, i: nat)
    requires i < |found|
  {
    ByOverseerr(found[i]) && forall j :: 0 <= j < i && found[j].asked == found[i].asked ==> !ByOverseerr(found[j])
  }

  lemma SeesOneMore(before: map<Asked, Copies>, after: map<Asked, Copies>, found: seq<RequestedTitle>, n: nat)
    requires n < |found| && SeesWhatWasRead(before, found[..n])
    requires OneMore(CopiesOf(before, found[n].asked), CopiesOf(after, found[n].asked), found[n])
    requires forall asked :: asked != found[n].asked ==> CopiesOf(after, asked) == CopiesOf(before, asked)
    ensures SeesWhatWasRead(after, found[..n + 1])
  {
    var was, now := found[..n], found[..n + 1];
    assert now == was + [found[n]];
    forall asked, row
      ensures Sees(CopiesOf(after, asked), row) <==>
              exists i :: 0 <= i < |now| && now[i].asked == asked && HoldsFor(now[i].pattern, row)
    {
      if i :| 0 <= i < |was| && was[i].asked == asked && HoldsFor(was[i].pattern, row) {
        assert now[i].asked == asked;
      }
      if asked == found[n].asked && HoldsFor(found[n].pattern, row) {
        assert now[n].asked == asked;
      }
    }
  }

  lemma KeepsOneMore(before: map<Asked, Copies>, after: map<Asked, Copies>, found: seq<RequestedTitle>, n: nat)
    requires n < |found| && KeepsFirstRequest(before, found[..n])
    requires OneMore(CopiesOf(before, found[n].asked), CopiesOf(after, found[n].asked), found[n])
    requires forall asked :: asked != found[n].asked ==> CopiesOf(after, asked) == CopiesOf(before, asked)
    ensures KeepsFirstRequest(after, found[..n + 1])
  {
    var was, now := found[..n], found[..n + 1];
    assert now == was + [found[n]];
    forall asked
      ensures Requested(CopiesOf(after, asked)) <==>
              exists i :: 0 <= i < |now| && now[i].asked == asked && ByOverseerr(now[i])
    {
      if i :| 0 <= i < |was| && was[i].asked == asked && ByOverseerr(was[i]) {
        assert now[i].asked == asked;
      }
      if asked == found[n].asked && ByOverseerr(found[n]) {
        assert now[n].asked == asked;
      }
    }
    forall i | 0 <= i < |now| && FirstRequest(now, i)
      ensures var copies := CopiesOf(after, now[i].asked); "" in copies && copies[""].dates == now[i].dates
    {
      if i < n {
        FirstStays(found, n, i);
        assert was[i].asked == now[i].asked && ByOverseerr(was[i]);
      } else {
        NoEarlierRequest(found, n);
      }
    }
  }

  lemma FirstStays(found: seq<RequestedTitle>, n: nat, i: nat)
    requires i < n < |found| && FirstRequest(found[..n + 1], i)
    ensures FirstRequest(found[..n], i)
  {
    forall j | 0 <= j < i && found[..n][j].asked == found[..n][i].asked
      ensures !ByOverseerr(found[..n][j])
    {
      assert found[..n + 1][j] == found[..n][j];
    }
  }

  lemma NoEarlierRequest(found: seq<RequestedTitle>, n: nat)
    requires n < |found| && FirstRequest(found[..n + 1], n)
    ensures !exists i :: 0 <= i < n && found[..n][i].asked == found[n].asked && ByOverseerr(found[..n][i])
  {
    forall i | 0 <= i < n && found[..n][i].asked == found[n].asked
      ensures !ByOverseerr(found[..n][i])
    {
      assert found[..n + 1][i] == found[..n][i];
    }
  }

  /** Every read folded in, one after another. */
  method Collect(found: seq<RequestedTitle>) returns (merged: map<Asked, Copies>)
    requires forall i :: 0 <= i < |found| ==> Sourced(found[i])
    ensures forall asked :: asked in merged ==> GoodCopies(asked, merged[asked])
    ensures SeesWhatWasRead(merged, found) && KeepsFirstRequest(merged, found)
  {
    hide SeesWhatWasRead;
    hide KeepsFirstRequest;
    hide OneMore;
    var ledger := new Ledger();
    NothingRead();
    assert found[..0] == [];
    for n := 0 to |found|
      invariant ledger.Valid() && fresh(ledger)
      invariant SeesWhatWasRead(ledger.merged, found[..n]) && KeepsFirstRequest(ledger.merged, found[..n])
    {
      ghost var before := ledger.merged;
      ledger.Add(found[n]);
      SeesOneMore(before, ledger.merged, found, n);
      KeepsOneMore(before, ledger.merged, found, n);
    }
    assert found[..|found|] == found;
    merged := ledger.merged;
  }

  lemma NothingRead()
    ensures SeesWhatWasRead(map[], []) && KeepsFirstRequest(map[], [])
  {
  }
}
