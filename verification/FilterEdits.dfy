/** The edits a filter's conditions go through: values taken out of a clause, clauses taken out of a filter, and
    the reading back of the result. */
module FilterEdits {
  import opened Options
  import opened FilterText
  import opened ShareFilter
  import opened FilterSemantics

  // ----- taking values out of a clause -----

  predicate GapCount(values: seq<string>, seps: seq<string>) {
    |seps| == if |values| == 0 then 0 else |values| - 1
  }

  /** The values `drop` spares, each but the first keeping the separator that stood before it. */
  function Survivors(values: seq<string>, seps: seq<string>, drop: string -> bool): (r: ValueList)
    requires GapCount(values, seps)
    ensures GapCount(r.values, r.seps)
  {
    if |values| == 0 then ValueList([], [])
    else
      var k := |values| - 1;
      var r := Survivors(values[..k], if k == 0 then [] else seps[..k - 1], drop);
      if drop(values[k]) then r
      else if |r.values| == 0 then ValueList([values[k]], [])
      else ValueList(r.values + [values[k]], r.seps + [seps[k - 1]])
  }

  /** `c` without the values `drop` names, or nothing once it is empty. */
  function WithoutValues(c: Condition, drop: string -> bool): Option<Condition> {
    var r := Survivors(c.values, PaddedSeps(c), drop);
    if |r.values| == 0 then None else Some(c.(values := r.values, valueSeps := r.seps))
  }

  lemma {:induction false} SurvivorsMembers(values: seq<string>, seps: seq<string>, drop: string -> bool)
    requires GapCount(values, seps)
    ensures forall v :: v in Survivors(values, seps, drop).values <==> v in values && !drop(v)
  {
    if |values| > 0 {
      var k := |values| - 1;
      SurvivorsMembers(values[..k], if k == 0 then [] else seps[..k - 1], drop);
      assert values == values[..k] + [values[k]];
    }
  }

  /** The survivors stood at these places: in order, each behind the separator that was in front of it, and none else
      is left. */
  ghost predicate StoodAt(values: seq<string>, seps: seq<string>, drop: string -> bool, r: ValueList, at: seq<nat>) {
    && GapCount(values, seps) && GapCount(r.values, r.seps) && |at| == |r.values|
    && (forall j :: 0 <= j < |at| ==> at[j] < |values| && r.values[j] == values[at[j]] && !drop(r.values[j]))
    && (forall j :: 0 < j < |at| ==> at[j - 1] < at[j] && r.seps[j - 1] == seps[at[j] - 1])
    && (forall i :: 0 <= i < |values| && !drop(values[i]) ==> i in at)
  }

  lemma GapsAgree(values: seq<string>, seps: seq<string>, drop: string -> bool, r: ValueList, at: seq<nat>)
    requires |values| > 0 && GapCount(values, seps)
    requires var k := |values| - 1; StoodAt(values[..k], if k == 0 then [] else seps[..k - 1], drop, r, at)
    ensures |at| == |r.values| && (|r.values| > 0 ==> |values| > 1) && GapCount(r.values, r.seps)
    ensures forall j :: 0 <= j < |at| ==> at[j] < |values| - 1 && r.values[j] == values[at[j]] && !drop(r.values[j])
    ensures forall j :: 0 < j < |at| ==> at[j - 1] < at[j] && r.seps[j - 1] == seps[at[j] - 1]
    ensures forall i :: 0 <= i < |values| - 1 && !drop(values[i]) ==> i in at
  {
    var k := |values| - 1;
    var gaps := if k == 0 then [] else seps[..k - 1];
    if |at| > 0 {
      assert at[0] < k;
    }
    forall j | 0 < j < |at|
      ensures at[j - 1] < at[j] && r.seps[j - 1] == seps[at[j] - 1]
    {
      assert gaps[at[j] - 1] == seps[at[j] - 1];
    }
    forall i | 0 <= i < k && !drop(values[i])
      ensures i in at
    {
      assert values[..k][i] == values[i];
    }
  }

  lemma StoodAtDropped(values: seq<string>, seps: seq<string>, drop: string -> bool, r: ValueList, at: seq<nat>)
    requires |values| > 0 && GapCount(values, seps) && drop(values[|values| - 1])
    requires var k := |values| - 1; StoodAt(values[..k], if k == 0 then [] else seps[..k - 1], drop, r, at)
    ensures StoodAt(values, seps, drop, r, at)
  {
    GapsAgree(values, seps, drop, r, at);
  }

  lemma StoodAtFirst(values: seq<string>, seps: seq<string>, drop: string -> bool, r: ValueList, at: seq<nat>)
    requires |values| > 0 && GapCount(values, seps) && !drop(values[|values| - 1]) && |r.values| == 0
    requires var k := |values| - 1; StoodAt(values[..k], if k == 0 then [] else seps[..k - 1], drop, r, at)
    ensures StoodAt(values, seps, drop, ValueList([values[|values| - 1]], []), [|values| - 1])
  {
    GapsAgree(values, seps, drop, r, at);
    var last: seq<nat> := [|values| - 1];
    assert last[0] == |values| - 1;
  }

  lemma StoodAtKept(values: seq<string>, seps: seq<string>, drop: string -> bool, r: ValueList, at: seq<nat>)
    requires |values| > 1 && GapCount(values, seps) && !drop(values[|values| - 1]) && |r.values| > 0
    requires StoodAt(values[..|values| - 1], seps[..|values| - 2], drop, r, at)
    ensures var k := |values| - 1;
            StoodAt(values, seps, drop, ValueList(r.values + [values[k]], r.seps + [seps[k - 1]]), at + [k])
  {
    hide StoodAt;
    var k := |values| - 1;
    GapsAgree(values, seps, drop, r, at);
    var more: seq<nat> := at + [k];
    forall i | 0 <= i < |values| && !drop(values[i])
      ensures i in more
    {
      assert i == k ==> more[|at|] == i;
      assert i in at ==> i in more;
    }
    StoodAtWhole(values, seps, drop, ValueList(r.values + [values[k]], r.seps + [seps[k - 1]]), more);
  }

  lemma StoodAtWhole(values: seq<string>, seps: seq<string>, drop: string -> bool, r: ValueList, at: seq<nat>)
    requires GapCount(values, seps) && GapCount(r.values, r.seps) && |at| == |r.values|
    requires forall j :: 0 <= j < |at| ==> at[j] < |values| && r.values[j] == values[at[j]] && !drop(r.values[j])
    requires forall j :: 0 < j < |at| ==> at[j - 1] < at[j] && r.seps[j - 1] == seps[at[j] - 1]
    requires forall i :: 0 <= i < |values| && !drop(values[i]) ==> i in at
    ensures StoodAt(values, seps, drop, r, at)
  {
  }

  lemma {:induction false} SurvivorPlaces(values: seq<string>, seps: seq<string>, drop: string -> bool)
    returns (at: seq<nat>)
    requires GapCount(values, seps)
    ensures StoodAt(values, seps, drop, Survivors(values, seps, drop), at)
  {
    if |values| == 0 {
      at := [];
    } else {
      hide StoodAt;
      var k := |values| - 1;
      var init, gaps := values[..k], if k == 0 then [] else seps[..k - 1];
      var before := SurvivorPlaces(init, gaps, drop);
      var r := Survivors(init, gaps, drop);
      if drop(values[k]) {
        StoodAtDropped(values, seps, drop, r, before);
        at := before;
      } else if |r.values| == 0 {
        StoodAtFirst(values, seps, drop, r, before);
        at := [k];
      } else {
        GapsAgree(values, seps, drop, r, before);
        StoodAtKept(values, seps, drop, r, before);
        at := before + [k];
      }
    }
  }

  lemma SurvivorsLast(values: seq<string>, seps: seq<string>, v: string, drop: string -> bool)
    requires GapCount(values + [v], seps)
    ensures GapCount(values, if |values| == 0 then [] else seps[..|values| - 1])
    ensures Survivors(values + [v], seps, drop) ==
            var r := Survivors(values, if |values| == 0 then [] else seps[..|values| - 1], drop);
            if drop(v) then r
            else if |r.values| == 0 then ValueList([v], [])
            else ValueList(r.values + [v], r.seps + [seps[|values| - 1]])
  {
    assert (values + [v])[..|values|] == values;
  }

  lemma {:induction false} SurvivorsAll(values: seq<string>, seps: seq<string>, drop: string -> bool)
    requires GapCount(values, seps) && forall v :: v in values ==> !drop(v)
    ensures Survivors(values, seps, drop) == ValueList(values, seps)
  {
    if |values| > 0 {
      var k := |values| - 1;
      SplitLast(values);
      SurvivorsAll(values[..k], if k == 0 then [] else seps[..k - 1], drop);
      SurvivorsLast(values[..k], seps, values[k], drop);
      if k > 0 {
        SplitLast(seps);
      }
    }
  }

  /** Separators and values that survive were there before. */
  lemma {:induction false} SurvivorsShape(values: seq<string>, seps: seq<string>, drop: string -> bool)
    requires CleanValues(values, seps)
    ensures CleanValues(Survivors(values, seps, drop).values, Survivors(values, seps, drop).seps)
  {
    if |values| > 0 {
      var k := |values| - 1;
      SurvivorsShape(values[..k], if k == 0 then [] else seps[..k - 1], drop);
    }
  }

  lemma SurvivorsSnoc(values: seq<string>, seps: seq<string>, v: string, sep: string, drop: string -> bool)
    requires |values| > 0 && GapCount(values, seps)
    ensures Survivors(values + [v], seps + [sep], drop) ==
            var r := Survivors(values, seps, drop);
            if drop(v) then r
            else if |r.values| == 0 then ValueList([v], [])
            else ValueList(r.values + [v], r.seps + [sep])
  {
    assert (values + [v])[..|values|] == values;
    assert (seps + [sep])[..|values| - 1] == seps;
  }

  /** Dropping more after dropping some is dropping more at once. */
  lemma {:induction false} SurvivorsCompose(values: seq<string>, seps: seq<string>, p: string -> bool,
                                            q: string -> bool)
    requires GapCount(values, seps) && forall v :: p(v) ==> q(v)
    ensures var r := Survivors(values, seps, p);
            Survivors(r.values, r.seps, q) == Survivors(values, seps, q)
  {
    if |values| > 0 {
      var k := |values| - 1;
      var vs, ss := values[..k], if k == 0 then [] else seps[..k - 1];
      SurvivorsCompose(vs, ss, p, q);
      var r := Survivors(vs, ss, p);
      if !p(values[k]) {
        if |r.values| > 0 {
          SurvivorsSnoc(r.values, r.seps, values[k], seps[k - 1], q);
        } else {
          assert [values[k]][..0] == [];
        }
      }
    }
  }

  /** Values appended to a clause and then dropped leave no trace. */
  lemma {:induction false} SurvivorsOfGrown(values: seq<string>, seps: seq<string>, more: seq<string>,
                                            moreSeps: seq<string>, drop: string -> bool)
    requires GapCount(values, seps) && GapCount(values + more, seps + moreSeps)
    requires forall v :: v in more ==> drop(v)
    ensures Survivors(values + more, seps + moreSeps, drop) == Survivors(values, seps, drop)
    decreases |more|
  {
    if |more| == 0 {
      assert values + more == values && seps + moreSeps == seps;
    } else {
      var k := |values| + |more| - 1;
      var grown, grownSeps := values + more, seps + moreSeps;
      var fewer := more[..|more| - 1];
      assert drop(more[|more| - 1]);
      assert grown[..k] == values + fewer;
      if k == 0 {
        assert values == [] && fewer == [];
      } else {
        var fewerSeps := moreSeps[..|moreSeps| - 1];
        assert grownSeps[..k - 1] == seps + fewerSeps;
        SurvivorsOfGrown(values, seps, fewer, fewerSeps, drop);
      }
    }
  }

  lemma HitByMember(n: Naming, c: Condition, item: Item)
    ensures Hit(n, c, item) <==> exists v :: v in c.values && n.norm(v) in Tags(item, c.field)
  {
    if v :| v in c.values && n.norm(v) in Tags(item, c.field) {
      var i :| 0 <= i < |c.values| && c.values[i] == v;
    }
  }

  // ----- following conditions through an edit -----

  /** The position in `edits` that the `k`-th kept element came from. */
  ghost function Origin<T>(edits: seq<Option<T>>, k: nat): (i: nat)
    requires k < |Collect(edits)|
    ensures i < |edits| && edits[i] == Some(Collect(edits)[k])
    decreases |edits|
  {
    var init := edits[..|edits| - 1];
    CollectLast(edits);
    if k == |Collect(init)| then |edits| - 1 else Origin(init, k)
  }

  lemma {:induction false} OriginMonotone<T>(edits: seq<Option<T>>, k: nat, m: nat)
    requires k < m < |Collect(edits)|
    ensures Origin(edits, k) < Origin(edits, m)
    decreases |edits|
  {
    var init := edits[..|edits| - 1];
    CollectLast(edits);
    if m < |Collect(init)| {
      OriginMonotone(init, k, m);
    }
  }

  lemma {:induction false} KeptHasPlace<T>(edits: seq<Option<T>>, i: nat) returns (k: nat)
    requires i < |edits| && edits[i].Some?
    ensures k < |Collect(edits)| && Origin(edits, k) == i && Collect(edits)[k] == edits[i].value
    decreases |edits|
  {
    var init := edits[..|edits| - 1];
    CollectLast(edits);
    if i == |edits| - 1 {
      k := |Collect(init)|;
    } else {
      k := KeptHasPlace(init, i);
    }
  }

  /** An edit that leaves separators alone. */
  ghost predicate KeepsSeps(cs: seq<Condition>, edits: seq<Option<Condition>>) {
    |edits| == |cs| && forall i :: 0 <= i < |cs| ==> edits[i].Some? ==> edits[i].value.sep == cs[i].sep
  }

  /** Taking clauses out never takes another out of its enforced position. */
  lemma EnforcedSurvives(cs: seq<Condition>, edits: seq<Option<Condition>>, k: nat)
    requires KeepsSeps(cs, edits) && k < |Collect(edits)|
    requires Enforced(cs, Origin(edits, k))
    ensures Enforced(Collect(edits), k)
  {
    var kept := Collect(edits);
    forall j | k <= j < |kept| && j > 0
      ensures kept[j].sep == '&'
    {
      if k < j {
        OriginMonotone(edits, k, j);
      }
      var i := Origin(edits, j);
      if i == 0 {
        OriginMonotone(edits, 0, j);
      }
      assert cs[i].sep == '&';
    }
  }

  function TermEdits(n: Naming, edits: seq<Option<Condition>>, item: Item): (ts: seq<Option<Term>>)
    ensures |ts| == |edits|
    ensures forall i :: 0 <= i < |ts| ==>
              ts[i] == match edits[i] case None => None case Some(c) => Some(ToTerm(n, c, item))
  {
    seq(|edits|, i requires 0 <= i < |edits| =>
      match edits[i] case None => None case Some(c) => Some(ToTerm(n, c, item)))
  }

  lemma {:induction false} TermsOfCollect(n: Naming, edits: seq<Option<Condition>>, item: Item)
    ensures Terms(n, Collect(edits), item) == Collect(TermEdits(n, edits, item))
  {
    if |edits| > 0 {
      var init := edits[..|edits| - 1];
      TermsOfCollect(n, init, item);
      assert TermEdits(n, edits, item)[..|edits| - 1] == TermEdits(n, init, item);
    }
  }

  /** A clause may go only where it is true of the item and its going regroups nothing. */
  ghost predicate SafeEdits(n: Naming, cs: seq<Condition>, edits: seq<Option<Condition>>, item: Item) {
    && KeepsSeps(cs, edits)
    && (forall i :: 0 <= i < |cs| ==> edits[i].Some? ==>
          (Holds(n, edits[i].value, item) <==> Holds(n, cs[i], item)))
    && (forall i :: 0 <= i < |cs| ==> edits[i].None? ==>
          Holds(n, cs[i], item) && (i == 0 || cs[i].sep != '&' || !PipeAfter(cs, i)))
  }

  /** Some `|` joins a condition behind position `i`. */
  predicate PipeAfter(cs: seq<Condition>, i: nat) {
    exists j :: i < j < |cs| && cs[j].sep != '&'
  }

  lemma SafeEditsNeverShowMore(g: Grouping, n: Naming, cs: seq<Condition>, edits: seq<Option<Condition>>, item: Item)
    requires SafeEdits(n, cs, edits, item)
    ensures Shows(g, n, Collect(edits), item) ==> Shows(g, n, cs, item)
  {
    var ts := Terms(n, cs, item);
    var es := TermEdits(n, edits, item);
    forall i | 0 <= i < |ts|
      ensures match es[i]
              case Some(t) => t.conj == ts[i].conj && (t.holds ==> ts[i].holds)
              case None => ts[i].holds && Droppable(ts, i)
    {
      assert ts[i] == ToTerm(n, cs[i], item);
      if edits[i].None? && i > 0 && cs[i].sep == '&' {
        assert !PipeAfter(cs, i);
      }
    }
    TermsOfCollect(n, edits, item);
    TightenNeverShowsMore(g, ts, es);
  }

  // ----- reading an edited filter back -----

  /** A lone blank value prints as nothing, so it reads back as no value at all. */
  function Blanked(c: Condition): Condition {
    if c.values == [""] then c.(values := [], valueSeps := []) else c
  }

  /** What an edited list reads back as: the first condition's separator is not written. */
  function ReadBack(cs: seq<Condition>): (ds: seq<Condition>)
    ensures |ds| == |cs|
    ensures forall i :: 0 <= i < |cs| ==> ds[i] == Blanked(cs[i]).(sep := if i == 0 then '|' else cs[i].sep)
  {
    seq(|cs|, i requires 0 <= i < |cs| => Blanked(cs[i]).(sep := if i == 0 then '|' else cs[i].sep))
  }

  lemma ReadBackSnoc(cs: seq<Condition>, c: Condition)
    ensures ReadBack(cs + [c]) == ReadBack(cs) + [Blanked(c).(sep := if |cs| == 0 then '|' else c.sep)]
  {
  }

  ghost predicate PrintableCondition(c: Condition) {
    Clean(Blanked(c)) && CleanValues(c.values, c.valueSeps)
  }

  ghost predicate Printable(cs: seq<Condition>) {
    && SepsIn(cs, CONDITION_SEPS)
    && NoAmpersand(cs)
    && forall i :: 0 <= i < |cs| ==> PrintableCondition(cs[i])
  }

  lemma {:induction false} JoinFirstSep(ps: seq<Piece>, qs: seq<Piece>)
    requires |ps| == |qs|
    requires forall i :: 0 <= i < |ps| ==> ps[i].text == qs[i].text
    requires forall i :: 1 <= i < |ps| ==> ps[i].sep == qs[i].sep
    ensures JoinPieces(ps) == JoinPieces(qs)
  {
    if |ps| > 0 {
      JoinFirstSep(ps[..|ps| - 1], qs[..|qs| - 1]);
    }
  }

  lemma BlankedText(c: Condition)
    ensures ConditionText(Blanked(c)) == ConditionText(c)
  {
  }

  lemma ReadBackText(cs: seq<Condition>)
    ensures Serialize(ReadBack(cs)) == Serialize(cs)
  {
    forall i | 0 <= i < |cs|
      ensures ConditionText(ReadBack(cs)[i]) == ConditionText(cs[i])
    {
      BlankedText(cs[i]);
    }
    JoinFirstSep(ToPieces(ReadBack(cs)), ToPieces(cs));
  }

  lemma CleanAnySep(c: Condition, sep: char)
    requires Clean(c)
    ensures Clean(c.(sep := sep))
  {
  }

  lemma ReadBackWellFormed(cs: seq<Condition>)
    requires Printable(cs)
    ensures WellFormed(ReadBack(cs))
  {
    var ds := ReadBack(cs);
    forall i | 0 <= i < |cs|
      ensures Clean(ds[i])
    {
      CleanAnySep(Blanked(cs[i]), ds[i].sep);
    }
    assert NoAmpersand(ds) by {
      forall i, j | 0 <= i < |ds| && 0 <= j < |ds[i].values|
        ensures Free(ds[i].values[j], AMPERSAND)
      {
        assert ds[i].values == cs[i].values;
      }
    }
  }

  lemma ParseOfPrinted(cs: seq<Condition>)
    requires Printable(cs)
    ensures ParseFilter(Serialize(cs)) == Ok(ReadBack(cs))
  {
    ReadBackText(cs);
    ReadBackWellFormed(cs);
    SerializeRoundTrip(ReadBack(cs));
  }

  /** A parsed filter without a raw `&` in a value is printable and reads back as itself. */
  lemma ParsedIsPrintable(cs: seq<Condition>)
    requires WellFormed(cs) && NoAmpersand(cs)
    ensures Printable(cs) && ReadBack(cs) == cs
  {
  }

  /** No tag of an item is blank. */
  ghost predicate NoBlankTag(n: Naming, item: Item) {
    forall field :: n.norm("") !in Tags(item, field)
  }

  lemma ReadBackShowsSame(g: Grouping, n: Naming, cs: seq<Condition>, item: Item)
    requires NoBlankTag(n, item)
    ensures Shows(g, n, ReadBack(cs), item) == Shows(g, n, cs, item)
  {
    var ds := ReadBack(cs);
    forall i | 0 <= i < |cs|
      ensures Holds(n, ds[i], item) == Holds(n, cs[i], item)
    {
      assert n.norm("") !in Tags(item, cs[i].field);
    }
    FirstSeparatorIrrelevant(Terms(n, ds, item), Terms(n, cs, item));
  }
}
