/** Merging Shortlist's hide labels into an account's share filter. Labels of ours that Plex ignores where they
    stand are lifted out and re-added, with the wanted ones, where Plex ANDs them with the whole filter. */
module FilterMerge {
  import opened Options
  import opened ShareFilter
  import opened FilterSemantics
  import opened FilterEdits

  // ----- labels of ours in a filter -----

  function Mine(n: Naming, values: seq<string>): (mine: seq<string>)
    ensures forall v :: v in mine <==> v in values && n.ours(v)
  {
    if |values| == 0 then []
    else Mine(n, values[..|values| - 1]) + (if n.ours(values[|values| - 1]) then [values[|values| - 1]] else [])
  }

  /** Our labels keep the order they stand in. */
  lemma {:induction false} MineConcat(n: Naming, a: seq<string>, b: seq<string>)
    ensures Mine(n, a + b) == Mine(n, a) + Mine(n, b)
  {
    if |b| == 0 {
      assert a + b == a;
    } else {
      MineConcat(n, a, b[..|b| - 1]);
      assert (a + b)[..|a + b| - 1] == a + b[..|b| - 1];
    }
  }

  /** A `label!=` clause holding a label of ours where Plex does not apply it. */
  predicate Unenforced(n: Naming, cs: seq<Condition>, i: nat)
    requires i < |cs|
  {
    !Enforced(cs, i) && IsExclude(cs[i]) && |Mine(n, cs[i].values)| > 0
  }

  /** What becomes of condition `i`: our labels leave a clause Plex ignores, and a clause of ours alone goes
      unless it is joined by `&` behind another. */
  function LiftEdit(n: Naming, cs: seq<Condition>, i: nat): Option<Condition>
    requires i < |cs|
  {
    if !Unenforced(n, cs, i) then Some(cs[i])
    else
      var rest := WithoutValues(cs[i], n.ours);
      if rest.Some? then rest
      else if i == 0 || cs[i].sep == '|' then None
      else Some(cs[i])
  }

  function LiftEdits(n: Naming, cs: seq<Condition>): (edits: seq<Option<Condition>>)
    ensures |edits| == |cs| && forall i :: 0 <= i < |cs| ==> edits[i] == LiftEdit(n, cs, i)
  {
    seq(|cs|, i requires 0 <= i < |cs| => LiftEdit(n, cs, i))
  }

  function Lifted(n: Naming, cs: seq<Condition>): seq<Condition> {
    Collect(LiftEdits(n, cs))
  }

  function CarriedUpTo(n: Naming, cs: seq<Condition>, k: nat): seq<string>
    requires k <= |cs|
  {
    if k == 0 then []
    else CarriedUpTo(n, cs, k - 1) + (if Unenforced(n, cs, k - 1) then Mine(n, cs[k - 1].values) else [])
  }

  /** Our labels found where Plex ignores them, in order. */
  function Carried(n: Naming, cs: seq<Condition>): seq<string> {
    CarriedUpTo(n, cs, |cs|)
  }

  predicate LiftChangesUpTo(n: Naming, cs: seq<Condition>, k: nat)
    requires k <= |cs|
  {
    exists i :: 0 <= i < k && LiftEdit(n, cs, i) != Some(cs[i])
  }

  predicate LiftChanges(n: Naming, cs: seq<Condition>) {
    LiftChangesUpTo(n, cs, |cs|)
  }

  lemma CollectNext<T>(edits: seq<Option<T>>, i: nat)
    requires i < |edits|
    ensures Collect(edits[..i + 1]) == Collect(edits[..i]) + (if edits[i].Some? then [edits[i].value] else [])
  {
    assert edits[..i + 1][..i] == edits[..i];
  }

  lemma LiftChangesNext(n: Naming, cs: seq<Condition>, i: nat)
    requires i < |cs|
    ensures LiftChangesUpTo(n, cs, i + 1) <==> LiftChangesUpTo(n, cs, i) || LiftEdit(n, cs, i) != Some(cs[i])
  {
  }

  method LiftUnenforcedLabels(n: Naming, cs: seq<Condition>)
    returns (kept: seq<Condition>, carried: seq<string>, changed: bool)
    ensures kept == Lifted(n, cs) && carried == Carried(n, cs) && changed == LiftChanges(n, cs)
  {
    var enforced := EnforcedPositions(cs);
    kept, carried, changed := [], [], false;
    ghost var edits := LiftEdits(n, cs);
    for i := 0 to |cs|
      invariant kept == Collect(edits[..i])
      invariant carried == CarriedUpTo(n, cs, i)
      invariant changed <==> LiftChangesUpTo(n, cs, i)
    {
      CollectNext(edits, i);
      LiftChangesNext(n, cs, i);
      var mine := Mine(n, cs[i].values);
      if enforced[i] || !IsExclude(cs[i]) || |mine| == 0 {
        kept := kept + [cs[i]];
      } else {
        carried := carried + mine;
        var remainder := WithoutValues(cs[i], n.ours);
        RemainderDiffers(n, cs[i]);
        if remainder.Some? {
          kept := kept + [remainder.value];
          changed := true;
        } else if i == 0 || cs[i].sep == '|' {
          changed := true;
        } else {
          kept := kept + [cs[i]];
        }
      }
    }
    assert edits[..|cs|] == edits;
  }

  lemma RemainderDiffers(n: Naming, c: Condition)
    requires |Mine(n, c.values)| > 0
    ensures WithoutValues(c, n.ours) != Some(c)
  {
    var v := Mine(n, c.values)[0];
    assert v in Mine(n, c.values);
    SurvivorsMembers(c.values, PaddedSeps(c), n.ours);
  }

  // ----- placing labels -----

  predicate IsTarget(cs: seq<Condition>, i: nat) {
    i < |cs| && Enforced(cs, i) && IsExclude(cs[i])
  }

  /** The first `label!=` clause at or after `i` in an enforced position, or `|cs|`. */
  function FirstTarget(cs: seq<Condition>, i: nat): (k: nat)
    requires i <= |cs|
    ensures i <= k <= |cs| && (k < |cs| ==> IsTarget(cs, k))
    ensures forall j :: i <= j < k ==> !IsTarget(cs, j)
    decreases |cs| - i
  {
    if i == |cs| || IsTarget(cs, i) then i else FirstTarget(cs, i + 1)
  }

  /** `c` with more values at its end, joined as its own values are, or by `valueSep` when it has one or none. */
  function Grow(c: Condition, more: seq<string>, valueSep: string): Condition
    requires |more| > 0
  {
    var existing := PaddedSeps(c);
    var fill := if |c.valueSeps| > 0 then c.valueSeps[|c.valueSeps| - 1] else valueSep;
    c.(values := c.values + more, valueSeps := existing + Fill(fill, |c.values| + |more| - 1 - |existing|))
  }

  function Place(cs: seq<Condition>, missing: seq<string>, valueSep: string): seq<Condition>
    requires |missing| > 0
  {
    var t := FirstTarget(cs, 0);
    if t < |cs| then cs[t := Grow(cs[t], missing, valueSep)]
    else cs + [Condition("label", IsNot, missing, '&', Fill(valueSep, |missing| - 1))]
  }

  /** The list of conditions a merge edits in place. */
  class ConditionList {
    var items: seq<Condition>

    constructor (cs: seq<Condition>)
      ensures items == cs
    {
      items := cs;
    }

    method PlaceExcludes(missing: seq<string>, valueSep: string)
      requires |missing| > 0
      modifies this
      ensures items == Place(old(items), missing, valueSep)
    {
      var enforced := EnforcedPositions(items);
      var target := 0;
      while target < |items| && !(enforced[target] && IsExclude(items[target]))
        invariant target <= |items|
        invariant FirstTarget(items, 0) == FirstTarget(items, target)
      {
        target := target + 1;
      }
      if target == |items| {
        items := items + [Condition("label", IsNot, missing, '&', Fill(valueSep, |missing| - 1))];
        return;
      }
      var cond := items[target];
      var existing := PaddedSeps(cond);
      var fill := if |cond.valueSeps| > 0 then cond.valueSeps[|cond.valueSeps| - 1] else valueSep;
      var grown := cond.values + missing;
      items := items[target := cond.(values := grown,
                                     valueSeps := existing + Fill(fill, |grown| - 1 - |existing|))];
    }
  }

  // ----- the merge -----

  function EncodedSepIn(seps: seq<string>): Option<string> {
    if |seps| == 0 then None
    else if seps[0] == "%2C" || seps[0] == "%2c" then Some(seps[0])
    else EncodedSepIn(seps[1..])
  }

  /** The value separator this filter already uses, so that an added label is encoded as the others are. */
  function HouseValueSep(cs: seq<Condition>): string {
    if |cs| == 0 then ","
    else
      var s := EncodedSepIn(cs[0].valueSeps);
      if s.Some? then s.value else HouseValueSep(cs[1..])
  }

  predicate LiteralAmpersand(cs: seq<Condition>) {
    exists i, j :: 0 <= i < |cs| && 0 <= j < |cs[i].values| && '&' in cs[i].values[j]
  }

  predicate Listed(n: Naming, lbl: string, labels: seq<string>) {
    exists i :: 0 <= i < |labels| && SameValue(n, lbl, labels[i])
  }

  /** `labels` without later repeats of the same label. */
  function Distinct(n: Naming, labels: seq<string>): (wanted: seq<string>)
    ensures forall l :: l in wanted ==> l in labels
  {
    if |labels| == 0 then []
    else
      var wanted := Distinct(n, labels[..|labels| - 1]);
      var l := labels[|labels| - 1];
      if Listed(n, l, wanted) then wanted else wanted + [l]
  }

  lemma ListedMore(n: Naming, lbl: string, labels: seq<string>, l: string)
    ensures Listed(n, lbl, labels + [l]) <==> Listed(n, lbl, labels) || SameValue(n, lbl, l)
  {
    var all := labels + [l];
    assert all[|labels|] == l;
    assert forall i :: 0 <= i < |labels| ==> all[i] == labels[i];
  }

  lemma {:induction false} DistinctLists(n: Naming, labels: seq<string>, i: nat)
    requires i < |labels|
    ensures Listed(n, labels[i], Distinct(n, labels))
  {
    var init, l := labels[..|labels| - 1], labels[|labels| - 1];
    if i < |labels| - 1 {
      DistinctLists(n, init, i);
    }
    ListedMore(n, labels[i], Distinct(n, init), l);
  }

  /** Whether Plex provably hides everything carrying `lbl` under this filter. */
  predicate EnforcesLabel(n: Naming, cs: seq<Condition>, lbl: string) {
    exists i :: 0 <= i < |cs| && IsTarget(cs, i) && Listed(n, lbl, cs[i].values)
  }

  function Missing(n: Naming, wanted: seq<string>, cs: seq<Condition>): (missing: seq<string>)
    ensures forall l :: l in missing <==> l in wanted && !EnforcesLabel(n, cs, l)
  {
    if |wanted| == 0 then []
    else
      var l := wanted[|wanted| - 1];
      Missing(n, wanted[..|wanted| - 1], cs) + (if EnforcesLabel(n, cs, l) then [] else [l])
  }

  lemma MissingSnoc(n: Naming, wanted: seq<string>, l: string, cs: seq<Condition>)
    ensures Missing(n, wanted + [l], cs) == Missing(n, wanted, cs) + (if EnforcesLabel(n, cs, l) then [] else [l])
  {
    hide EnforcesLabel;
    assert (wanted + [l])[..|wanted|] == wanted;
  }

  /** Missing labels keep the order they are wanted in. */
  lemma {:induction false} MissingConcat(n: Naming, a: seq<string>, b: seq<string>, cs: seq<Condition>)
    ensures Missing(n, a + b, cs) == Missing(n, a, cs) + Missing(n, b, cs)
  {
    if |b| == 0 {
      assert a + b == a;
    } else {
      var init, l := b[..|b| - 1], b[|b| - 1];
      assert a + b == a + init + [l] && b == init + [l];
      MissingConcat(n, a, init, cs);
      MissingSnoc(n, a + init, l, cs);
      MissingSnoc(n, init, l, cs);
      hide Missing;
      hide EnforcesLabel;
    }
  }

  predicate AllEnforced(n: Naming, cs: seq<Condition>, labels: seq<string>) {
    forall i :: 0 <= i < |labels| ==> EnforcesLabel(n, cs, labels[i])
  }

  function Wanted(n: Naming, cs: seq<Condition>, labels: seq<string>): seq<string> {
    Distinct(n, Carried(n, cs) + labels)
  }

  /** The merged condition list, before it is printed. */
  function MergedConditions(n: Naming, cs: seq<Condition>, labels: seq<string>): seq<Condition> {
    var kept := Lifted(n, cs);
    var missing := Missing(n, Wanted(n, cs, labels), kept);
    if |missing| == 0 then kept else Place(kept, missing, HouseValueSep(cs))
  }

  function Merge(n: Naming, raw: string, labels: seq<string>): Result<string> {
    var parsed := ParseFilter(raw);
    if parsed.Err? then Err(Unparseable)
    else if LiteralAmpersand(parsed.value) then Err(Ambiguous)
    else
      var cs := parsed.value;
      var wanted := Wanted(n, cs, labels);
      if |Missing(n, wanted, Lifted(n, cs))| == 0 && !LiftChanges(n, cs) then Ok(raw)
      else
        var merged := Serialize(MergedConditions(n, cs, labels));
        var again := ParseFilter(merged);
        if again.Ok? && AllEnforced(n, again.value, wanted) then Ok(merged) else Err(SelfCheck)
  }

  /** Each label once, in order. */
  method Deduplicate(n: Naming, queue: seq<string>) returns (wanted: seq<string>)
    ensures wanted == Distinct(n, queue)
  {
    wanted := [];
    for i := 0 to |queue|
      invariant wanted == Distinct(n, queue[..i])
    {
      assert queue[..i + 1][..i] == queue[..i];
      if !Listed(n, queue[i], wanted) {
        wanted := wanted + [queue[i]];
      }
    }
    assert queue[..|queue|] == queue;
  }

  method MergeLabelExcludes(n: Naming, raw: string, sortedLabels: seq<string>) returns (r: Result<string>)
    ensures r == Merge(n, raw, sortedLabels)
  {
    hide LiteralAmpersand;
    hide Lifted;
    hide Carried;
    hide LiftChanges;
    hide Distinct;
    hide Missing;
    hide Place;
    hide Serialize;
    hide ParseFilter;
    hide AllEnforced;
    hide HouseValueSep;
    var parsed := ParseFilter(raw);
    if parsed.Err? {
      return Err(Unparseable);
    }
    var original := parsed.value;
    if LiteralAmpersand(original) {
      return Err(Ambiguous);
    }
    var houseValueSep := HouseValueSep(original);
    var kept, carried, changed := LiftUnenforcedLabels(n, original);
    var wanted := Deduplicate(n, carried + sortedLabels);
    var missing := Missing(n, wanted, kept);
    if |missing| == 0 && !changed {
      return Ok(raw);
    }
    var conditions := new ConditionList(kept);
    if |missing| > 0 {
      conditions.PlaceExcludes(missing, houseValueSep);
    }
    var merged := Serialize(conditions.items);
    var again := ParseFilter(merged);
    if again.Err? || !AllEnforced(n, again.value, wanted) {
      return Err(SelfCheck);
    }
    r := Ok(merged);
  }
}
