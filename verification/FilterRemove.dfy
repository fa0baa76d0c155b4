/** Taking labels back out of a share filter's `label!=` clauses. */
module FilterRemove {
  import opened Options
  import opened FilterText
  import opened ShareFilter
  import opened FilterSemantics
  import opened FilterEdits
  import opened FilterMerge
  import opened MergeTheorems

  function InList(n: Naming, labels: seq<string>): string -> bool {
    v => Listed(n, v, labels)
  }

  /** Dropping the clause would regroup the conditions around it: it is ANDed, with a `|` somewhere behind. */
  predicate Regroups(cs: seq<Condition>, i: nat)
    requires i < |cs|
  {
    i > 0 && cs[i].sep == '&' && PipeAfter(cs, i)
  }

  function RemoveEdit(n: Naming, cs: seq<Condition>, labels: seq<string>, i: nat): Option<Condition>
    requires i < |cs|
  {
    if !IsExclude(cs[i]) then Some(cs[i])
    else
      var rest := WithoutValues(cs[i], InList(n, labels));
      if rest.Some? then rest
      else if Regroups(cs, i) then Some(cs[i])
      else None
  }

  function RemoveEdits(n: Naming, cs: seq<Condition>, labels: seq<string>): (edits: seq<Option<Condition>>)
    ensures |edits| == |cs| && forall i :: 0 <= i < |cs| ==> edits[i] == RemoveEdit(n, cs, labels, i)
  {
    seq(|cs|, i requires 0 <= i < |cs| => RemoveEdit(n, cs, labels, i))
  }

  function Removed(n: Naming, cs: seq<Condition>, labels: seq<string>): seq<Condition> {
    Collect(RemoveEdits(n, cs, labels))
  }

  function Remove(n: Naming, raw: string, labels: seq<string>): Result<string> {
    var parsed := ParseFilter(raw);
    if parsed.Err? then Err(Unparseable) else Ok(Serialize(Removed(n, parsed.value, labels)))
  }

  method RemoveLabelExcludes(n: Naming, raw: string, labels: seq<string>) returns (r: Result<string>)
    ensures r == Remove(n, raw, labels)
  {
    var parsed := ParseFilter(raw);
    if parsed.Err? {
      return Err(Unparseable);
    }
    var cs := parsed.value;
    var out: seq<Condition> := [];
    ghost var edits := RemoveEdits(n, cs, labels);
    for i := 0 to |cs|
      invariant out == Collect(edits[..i])
    {
      CollectNext(edits, i);
      var cond := cs[i];
      if IsExclude(cond) {
        var remainder := WithoutValues(cond, InList(n, labels));
        if remainder.None? {
          if i > 0 && cond.sep == '&' && PipeAfter(cs, i) {
            out := out + [cond];
          }
          continue;
        }
        cond := remainder.value;
      }
      out := out + [cond];
    }
    assert edits[..|cs|] == edits;
    r := Ok(Serialize(out));
  }

  // ----- the result reads back -----

  lemma RemoveEditPrintable(n: Naming, cs: seq<Condition>, labels: seq<string>, i: nat)
    requires i < |cs| && Clean(cs[i]) && AmpersandFree(cs[i]) && RemoveEdit(n, cs, labels, i).Some?
    ensures PrintableCondition(RemoveEdit(n, cs, labels, i).value) && AmpersandFree(RemoveEdit(n, cs, labels, i).value)
  {
    if RemoveEdit(n, cs, labels, i) != Some(cs[i]) {
      WithoutValuesClean(cs[i], InList(n, labels));
      var d := RemoveEdit(n, cs, labels, i).value;
      forall j | 0 <= j < |d.values|
        ensures Free(d.values[j], AMPERSAND)
      {
        assert d.values[j] in d.values;
      }
    }
  }

  lemma RemovedPrintable(n: Naming, raw: string, labels: seq<string>)
    requires ParseFilter(raw).Ok? && !LiteralAmpersand(ParseFilter(raw).value)
    ensures Printable(Removed(n, ParseFilter(raw).value, labels))
  {
    var cs := ParseFilter(raw).value;
    ParseRoundTrip(raw);
    NoLiteralAmpersand(cs);
    ParsedIsPrintable(cs);
    forall i | 0 <= i < |cs| && RemoveEdit(n, cs, labels, i).Some?
      ensures PrintableCondition(RemoveEdit(n, cs, labels, i).value)
      ensures AmpersandFree(RemoveEdit(n, cs, labels, i).value)
    {
      RemoveEditPrintable(n, cs, labels, i);
    }
    CollectPrintable(cs, RemoveEdits(n, cs, labels));
  }

  lemma RemoveResult(n: Naming, raw: string, labels: seq<string>)
    requires ParseFilter(raw).Ok? && !LiteralAmpersand(ParseFilter(raw).value)
    ensures var removed := Removed(n, ParseFilter(raw).value, labels);
            && Remove(n, raw, labels) == Ok(Serialize(removed))
            && ParseFilter(Serialize(removed)) == Ok(ReadBack(removed))
  {
    RemovedPrintable(n, raw, labels);
    ParseOfPrinted(Removed(n, ParseFilter(raw).value, labels));
  }

  /** Removing labels leaves a filter Plex can read. */
  lemma RemoveReadable(n: Naming, raw: string, labels: seq<string>)
    requires ParseFilter(raw).Ok? && !LiteralAmpersand(ParseFilter(raw).value)
    ensures Remove(n, raw, labels).Ok? && ParseFilter(Remove(n, raw, labels).value).Ok?
    ensures !LiteralAmpersand(ParseFilter(Remove(n, raw, labels).value).value)
  {
    RemoveResult(n, raw, labels);
    RemovedPrintable(n, raw, labels);
    ReadBackReadable(Removed(n, ParseFilter(raw).value, labels));
  }

  // ----- removal never shows more -----

  lemma RemoveEditHolds(n: Naming, cs: seq<Condition>, labels: seq<string>, i: nat, item: Item)
    requires i < |cs| && CarriesNone(n, item, labels)
    ensures RemoveEdit(n, cs, labels, i).Some? ==>
              (Holds(n, RemoveEdit(n, cs, labels, i).value, item) <==> Holds(n, cs[i], item))
    ensures RemoveEdit(n, cs, labels, i).None? ==> Holds(n, cs[i], item)
  {
    var c := cs[i];
    if IsExclude(c) {
      forall v | InList(n, labels)(v)
        ensures n.norm(v) !in Tags(item, c.field)
      {
        var k :| 0 <= k < |labels| && SameValue(n, v, labels[k]);
        assert !CarriesLabel(n, item, labels[k]);
      }
      SurvivorsMembers(c.values, PaddedSeps(c), InList(n, labels));
      HitByMember(n, c, item);
      var rest := WithoutValues(c, InList(n, labels));
      if rest.Some? {
        HitByMember(n, rest.value, item);
      }
    }
  }

  lemma RemoveIsSafe(n: Naming, cs: seq<Condition>, labels: seq<string>, item: Item)
    requires CarriesNone(n, item, labels)
    ensures SafeEdits(n, cs, RemoveEdits(n, cs, labels), item)
  {
    forall i | 0 <= i < |cs|
      ensures RemoveEdit(n, cs, labels, i).Some? ==>
                (Holds(n, RemoveEdit(n, cs, labels, i).value, item) <==> Holds(n, cs[i], item))
      ensures RemoveEdit(n, cs, labels, i).None? ==> Holds(n, cs[i], item)
    {
      RemoveEditHolds(n, cs, labels, i, item);
    }
  }

  /** Removing labels lets through no item that carries none of them. */
  lemma RemoveNeverShowsMore(g: Grouping, n: Naming, raw: string, labels: seq<string>, item: Item)
    requires ParseFilter(raw).Ok? && !LiteralAmpersand(ParseFilter(raw).value)
    requires NoBlankTag(n, item) && CarriesNone(n, item, labels)
    ensures ParseFilter(Remove(n, raw, labels).value).Ok?
    ensures Shows(g, n, ParseFilter(Remove(n, raw, labels).value).value, item) ==>
            Shows(g, n, ParseFilter(raw).value, item)
  {
    var cs := ParseFilter(raw).value;
    RemoveResult(n, raw, labels);
    ReadBackShowsSame(g, n, Removed(n, cs, labels), item);
    RemoveIsSafe(n, cs, labels, item);
    SafeEditsNeverShowMore(g, n, cs, RemoveEdits(n, cs, labels), item);
  }

  // ----- what removal takes and what it leaves -----

  lemma RemoveEditKeepsLabel(n: Naming, cs: seq<Condition>, labels: seq<string>, lbl: string, i: nat)
    requires i < |cs| && IsExclude(cs[i]) && Listed(n, lbl, cs[i].values) && !Listed(n, lbl, labels)
    ensures RemoveEdit(n, cs, labels, i).Some? && IsExclude(RemoveEdit(n, cs, labels, i).value)
    ensures Listed(n, lbl, RemoveEdit(n, cs, labels, i).value.values)
  {
    var j :| 0 <= j < |cs[i].values| && SameValue(n, lbl, cs[i].values[j]);
    var v := cs[i].values[j];
    assert !InList(n, labels)(v);
    SurvivorsMembers(cs[i].values, PaddedSeps(cs[i]), InList(n, labels));
    var rest := WithoutValues(cs[i], InList(n, labels)).value.values;
    assert v in rest;
    var m :| 0 <= m < |rest| && rest[m] == v;
  }

  lemma RemovedStillEnforces(n: Naming, cs: seq<Condition>, labels: seq<string>, lbl: string)
    requires EnforcesLabel(n, cs, lbl) && !Listed(n, lbl, labels)
    ensures EnforcesLabel(n, Removed(n, cs, labels), lbl)
  {
    var i :| 0 <= i < |cs| && IsTarget(cs, i) && Listed(n, lbl, cs[i].values);
    RemoveEditKeepsLabel(n, cs, labels, lbl, i);
    var edits := RemoveEdits(n, cs, labels);
    var k := KeptHasPlace(edits, i);
    EnforcedSurvives(cs, edits, k);
    assert IsTarget(Removed(n, cs, labels), k);
  }

  /** A label that is not removed stays enforced. */
  lemma RemoveKeepsEnforced(n: Naming, raw: string, labels: seq<string>, lbl: string)
    requires ParseFilter(raw).Ok? && !LiteralAmpersand(ParseFilter(raw).value)
    requires n.norm(lbl) != n.norm("") && !Listed(n, lbl, labels)
    requires EnforcesLabel(n, ParseFilter(raw).value, lbl)
    ensures ParseFilter(Remove(n, raw, labels).value).Ok?
    ensures EnforcesLabel(n, ParseFilter(Remove(n, raw, labels).value).value, lbl)
  {
    var cs := ParseFilter(raw).value;
    RemoveResult(n, raw, labels);
    RemovedStillEnforces(n, cs, labels, lbl);
    ReadBackEnforces(n, Removed(n, cs, labels), lbl);
  }

  /** A removed label can remain only in a clause left whole so as not to regroup the conditions around it. */
  lemma RemoveTakesLabelsOut(n: Naming, cs: seq<Condition>, labels: seq<string>, k: nat, j: nat) returns (i: nat)
    requires k < |Removed(n, cs, labels)| && j < |Removed(n, cs, labels)[k].values|
    requires IsExclude(Removed(n, cs, labels)[k]) && Listed(n, Removed(n, cs, labels)[k].values[j], labels)
    ensures i < |cs| && Regroups(cs, i) && Removed(n, cs, labels)[k] == cs[i]
    ensures forall v :: v in cs[i].values ==> Listed(n, v, labels)
  {
    var edits, removed := RemoveEdits(n, cs, labels), Removed(n, cs, labels);
    i := Origin(edits, k);
    assert RemoveEdit(n, cs, labels, i) == Some(removed[k]);
    assert removed[k].values[j] in removed[k].values;
    SurvivorsMembers(cs[i].values, PaddedSeps(cs[i]), InList(n, labels));
  }
}
