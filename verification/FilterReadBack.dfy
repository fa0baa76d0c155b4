/** Reading a written filter back: the check looks for every exclude it recognises as ours, and so notices the loss of
    a label exactly when the written text spells it recognisably. */
module FilterReadBack {
  import opened Options
  import opened FilterText
  import opened ShareFilter
  import opened FilterSemantics
  import opened FilterEdits
  import opened FilterGroups
  import opened FilterMerge
  import opened MergeTheorems
  import opened FilterRemove
  import opened FilterAllow
  import opened AllowTheorems
  import opened AllowRestore
  import opened SharePlan
  import opened SyncPrune
  import opened AccountSync

  // ----- the check -----

  /** The excludes of a text that the check recognises as ours. */
  function OursInText(k: Codec, text: string): set<string> {
    var parsed := ParseFilter(text);
    if parsed.Ok? then OursIn(k, parsed.value) else {}
  }

  /** Every exclude of ours that was written is enforced by what came back. */
  ghost predicate FieldKept(k: Codec, expected: string, got: string) {
    forall lbl :: lbl in OursInText(k, expected) ==> Hides(k, got, lbl)
  }

  /** Some exclude of the text is this label, in a spelling the check recognises. */
  ghost predicate SpeltAsOurs(k: Codec, text: string, w: string) {
    exists v :: v in OursInText(k, text) && Norm(k, v) == Norm(k, w)
  }

  lemma KeptStillHides(k: Codec, expected: string, got: string, w: string)
    requires SpeltAsOurs(k, expected, w) && FieldKept(k, expected, got)
    ensures Hides(k, got, w)
  {
    var v :| v in OursInText(k, expected) && Norm(k, v) == Norm(k, w);
    EnforcesSame(NamingOf(k), ParseFilter(got).value, v, w);
  }

  // ----- a filter of these labels and nothing else -----

  /** Some `label!=` clause is one of these. */
  ghost predicate SomeExclude(cs: seq<Condition>, p: Condition -> bool) {
    exists i :: 0 <= i < |cs| && IsExclude(cs[i]) && p(cs[i])
  }

  /** The separator that joins a clause to the one before has no say. */
  ghost predicate SepBlind(p: Condition -> bool) {
    forall c: Condition, sep: char :: p(c.(sep := sep)) == p(c)
  }

  function NamesValue(v: string): Condition -> bool {
    (c: Condition) => v in c.values
  }

  /** Some `label!=` clause names this value. */
  ghost predicate Names(cs: seq<Condition>, v: string) {
    SomeExclude(cs, NamesValue(v))
  }

  ghost predicate NamesIn(text: string, v: string) {
    ParseFilter(text).Ok? && Names(ParseFilter(text).value, v)
  }

  /** Merging labels into an empty filter: it hides them all and names nothing else. */
  lemma MergeIntoEmpty(n: Naming, labels: seq<string>) returns (text: string)
    requires ShortlistLabels(n, labels) && SaneNaming(n)
    ensures Merge(n, "", labels) == Ok(text) && ParseFilter(text).Ok?
    ensures forall l :: l in labels ==> EnforcesLabel(n, ParseFilter(text).value, l)
    ensures forall v :: NamesIn(text, v) ==> v in labels
  {
    assert ParseFilter("") == Ok([]);
    MergeNeverFailsItsCheck(n, "", labels);
    text := Merge(n, "", labels).value;
    MergeReadsBack(n, "", labels);
    forall l | l in labels
      ensures EnforcesLabel(n, ParseFilter(text).value, l)
    {
      var i :| 0 <= i < |labels| && labels[i] == l;
      MergeEnforces(n, "", labels, i);
    }
    forall v | NamesIn(text, v)
      ensures v in labels
    {
      MergeNames(n, [], labels, v);
    }
  }

  // ----- no step names a value that was not there or wanted -----

  lemma LiftNames(n: Naming, cs: seq<Condition>, v: string)
    requires Names(Lifted(n, cs), v)
    ensures Names(cs, v)
  {
    var edits, kept := LiftEdits(n, cs), Lifted(n, cs);
    var k :| 0 <= k < |kept| && IsExclude(kept[k]) && v in kept[k].values;
    var i := Origin(edits, k);
    assert LiftEdit(n, cs, i) == Some(kept[k]);
    SurvivorsMembers(cs[i].values, PaddedSeps(cs[i]), n.ours);
  }

  lemma CarriedNames(n: Naming, cs: seq<Condition>, v: string)
    requires v in Carried(n, cs)
    ensures Names(cs, v)
  {
    var i := CarriedUpToFrom(n, cs, |cs|, v);
  }

  lemma PlaceNames(cs: seq<Condition>, missing: seq<string>, valueSep: string, v: string)
    requires |missing| > 0 && Names(Place(cs, missing, valueSep), v)
    ensures Names(cs, v) || v in missing
  {
    var ds, t := Place(cs, missing, valueSep), FirstTarget(cs, 0);
    var i :| 0 <= i < |ds| && IsExclude(ds[i]) && v in ds[i].values;
    if i == t && t < |cs| {
      assert v in cs[t].values || v in missing;
    } else if i < |cs| {
      assert ds[i] == cs[i];
    }
  }

  lemma ReadBackNames(cs: seq<Condition>, v: string)
    requires Names(ReadBack(cs), v)
    ensures Names(cs, v)
  {
    var ds := ReadBack(cs);
    var i :| 0 <= i < |ds| && IsExclude(ds[i]) && v in ds[i].values;
    assert v in cs[i].values;
  }

  lemma MergeNames(n: Naming, cs: seq<Condition>, labels: seq<string>, v: string)
    requires Names(ReadBack(MergedConditions(n, cs, labels)), v)
    ensures Names(cs, v) || v in labels
  {
    hide Names;
    hide Place;
    ReadBackNames(MergedConditions(n, cs, labels), v);
    var kept := Lifted(n, cs);
    var missing := Missing(n, Wanted(n, cs, labels), kept);
    if |missing| > 0 {
      PlaceNames(kept, missing, HouseValueSep(cs), v);
    }
    if Names(kept, v) {
      LiftNames(n, cs, v);
    } else if v in Carried(n, cs) {
      CarriedNames(n, cs, v);
    } else {
      assert v in Carried(n, cs) + labels;
    }
  }

  lemma RemoveNames(n: Naming, cs: seq<Condition>, labels: seq<string>, v: string)
    requires Names(ReadBack(Removed(n, cs, labels)), v)
    ensures Names(cs, v)
  {
    ReadBackNames(Removed(n, cs, labels), v);
    var edits, kept := RemoveEdits(n, cs, labels), Removed(n, cs, labels);
    var k :| 0 <= k < |kept| && IsExclude(kept[k]) && v in kept[k].values;
    var i := Origin(edits, k);
    assert RemoveEdit(n, cs, labels, i) == Some(kept[k]);
    SurvivorsMembers(cs[i].values, PaddedSeps(cs[i]), InList(n, labels));
  }

  // ----- admitting and un-admitting the own row touch no exclude -----

  lemma SomeSnoc(cs: seq<Condition>, c: Condition, p: Condition -> bool)
    ensures SomeExclude(cs + [c], p) <==> SomeExclude(cs, p) || (IsExclude(c) && p(c))
  {
    var ds := cs + [c];
    if i :| 0 <= i < |cs| && IsExclude(cs[i]) && p(cs[i]) {
      assert ds[i] == cs[i];
    }
    if IsExclude(c) && p(c) {
      assert ds[|cs|] == c;
    }
    if i :| 0 <= i < |ds| && IsExclude(ds[i]) && p(ds[i]) {
      assert i < |cs| ==> ds[i] == cs[i];
    }
  }

  lemma {:induction false} SomeInExcludes(cs: seq<Condition>, p: Condition -> bool)
    requires SepBlind(p)
    ensures SomeExclude(cs, p) <==> SomeExclude(ExcludesOf(cs), p)
  {
    hide SomeExclude;
    if |cs| > 0 {
      var init, c := cs[..|cs| - 1], cs[|cs| - 1];
      SplitLast(cs);
      SomeInExcludes(init, p);
      ExcludesSnoc(init, c);
      SomeSnoc(init, c, p);
      if IsExclude(c) {
        SomeSnoc(ExcludesOf(init), c.(sep := '|'), p);
      } else {
        assert ExcludesOf(init) + [] == ExcludesOf(init);
      }
    } else {
      assert ExcludesOf(cs) == cs;
    }
  }

  lemma ShownExcludes(n: Naming, own: string, prefix: string, cs: seq<Condition>, p: Condition -> bool)
    requires SepBlind(p)
    ensures SomeExclude(AdmitConditions(n, own, prefix, true, cs), p) <==> SomeExclude(cs, p)
  {
    hide SomeExclude;
    hide AdmitConditions;
    AdmitKeepsExcludes(n, own, prefix, cs);
    SomeInExcludes(cs, p);
    SomeInExcludes(AdmitConditions(n, own, prefix, true, cs), p);
  }

  lemma HideGroupExcludes(n: Naming, own: string, g: seq<Condition>, p: Condition -> bool)
    requires |g| > 0 && SepBlind(p) && SomeExclude(HideGroup(n, own, g), p)
    ensures SomeExclude(g, p)
  {
    var edits := HideEdits(n, own, g);
    var kept := Collect(edits);
    var k :| 0 <= k < |kept| && IsExclude(HideGroup(n, own, g)[k]) && p(HideGroup(n, own, g)[k]);
    assert HideGroup(n, own, g)[k] == kept[k] || HideGroup(n, own, g)[k] == kept[k].(sep := g[0].sep);
    assert IsExclude(kept[k]) && p(kept[k]);
    var i := Origin(edits, k);
    assert HideEdit(n, own, AnyOursExclude(n, g), g[i]) == Some(kept[k]);
  }

  lemma {:induction false} HideGroupsExcludes(n: Naming, own: string, gs: seq<seq<Condition>>, p: Condition -> bool)
    requires SepBlind(p) && forall q :: 0 <= q < |gs| ==> |gs[q]| > 0
    requires SomeExclude(Flatten(HideGroups(n, own, gs)), p)
    ensures SomeExclude(Flatten(gs), p)
  {
    hide SomeExclude;
    hide SepBlind;
    if |gs| > 0 {
      var rest, g := gs[..|gs| - 1], gs[|gs| - 1];
      var hidden, h := HideGroups(n, own, rest), HideGroup(n, own, g);
      SplitLast(gs);
      FlattenSnoc(rest, g);
      SomeConcat(Flatten(rest), g, p);
      if |h| > 0 {
        FlattenSnoc(hidden, h);
        SomeConcat(Flatten(hidden), h, p);
      } else {
        assert hidden + [] == hidden;
      }
      if SomeExclude(Flatten(hidden), p) {
        HideGroupsExcludes(n, own, rest, p);
      } else {
        HideGroupExcludes(n, own, g, p);
      }
    } else {
      assert HideGroups(n, own, gs) == gs;
    }
  }

  lemma SomeConcat(a: seq<Condition>, b: seq<Condition>, p: Condition -> bool)
    ensures SomeExclude(a + b, p) <==> SomeExclude(a, p) || SomeExclude(b, p)
  {
    var c := a + b;
    if i :| 0 <= i < |a| && IsExclude(a[i]) && p(a[i]) {
      assert c[i] == a[i];
    }
    if i :| 0 <= i < |b| && IsExclude(b[i]) && p(b[i]) {
      assert c[|a| + i] == b[i];
    }
    if i :| 0 <= i < |c| && IsExclude(c[i]) && p(c[i]) {
      assert if i < |a| then c[i] == a[i] else c[i] == b[i - |a|];
    }
  }

  /** Some `label!=` clause of this text is one of these. */
  ghost predicate SomeIn(text: string, p: Condition -> bool) {
    ParseFilter(text).Ok? && SomeExclude(ParseFilter(text).value, p)
  }

  /** Printing and reading back makes no clause one of these. */
  ghost predicate SurvivesPrinting(p: Condition -> bool) {
    forall c: Condition :: p(Blanked(c)) ==> p(c)
  }

  lemma ReadBackExcludes(cs: seq<Condition>, p: Condition -> bool)
    requires SepBlind(p) && SurvivesPrinting(p) && SomeExclude(ReadBack(cs), p)
    ensures SomeExclude(cs, p)
  {
    var ds := ReadBack(cs);
    var i :| 0 <= i < |ds| && IsExclude(ds[i]) && p(ds[i]);
    assert ds[i] == Blanked(cs[i]).(sep := ds[i].sep);
    assert p(Blanked(cs[i]));
  }

  /** Un-admitting prints as a filter with no new exclude. */
  lemma HiddenExcludes(n: Naming, raw: string, own: string, prefix: string, p: Condition -> bool)
    requires Readable(raw) && SepBlind(p) && SurvivesPrinting(p)
    ensures SomeIn(Admit(n, raw, own, prefix, false).value, p) ==> SomeIn(raw, p)
  {
    hide SomeExclude;
    hide SepBlind;
    hide SurvivesPrinting;
    var cs := ParseFilter(raw).value;
    ParseRoundTrip(raw);
    NoLiteralAmpersand(cs);
    GoodGroupsOf(cs);
    HideGroupsPrintable(n, own, GroupsOf(cs));
    var hidden := Flatten(HiddenGroups(n, own, cs));
    MembersPrintable(hidden);
    UnledText(hidden);
    ParseOfPrinted(hidden);
    if SomeExclude(ReadBack(hidden), p) {
      ReadBackExcludes(hidden, p);
      HideGroupsExcludes(n, own, GroupsOf(cs), p);
      FlattenGroups(cs);
    }
  }

  lemma AdmitExcludes(n: Naming, raw: string, own: string, prefix: string, show: bool, p: Condition -> bool)
    requires Readable(raw) && OwnLabel(n, own) && SepBlind(p) && SurvivesPrinting(p)
    requires SomeIn(Admit(n, raw, own, prefix, show).value, p)
    ensures SomeIn(raw, p)
  {
    hide SomeExclude;
    hide SepBlind;
    hide SurvivesPrinting;
    hide AdmitConditions;
    hide LiteralAmpersand;
    if show {
      AdmitLetsOwnRowPass(n, raw, own, prefix);
      ShownExcludes(n, own, prefix, ParseFilter(raw).value, p);
    } else {
      HiddenExcludes(n, raw, own, prefix, p);
    }
  }

  lemma NamesValueBlind(v: string)
    ensures SepBlind(NamesValue(v)) && SurvivesPrinting(NamesValue(v))
  {
  }

  lemma AdmitNames(n: Naming, raw: string, own: string, prefix: string, show: bool, v: string)
    requires Readable(raw) && OwnLabel(n, own)
    requires NamesIn(Admit(n, raw, own, prefix, show).value, v)
    ensures NamesIn(raw, v)
  {
    hide SomeExclude;
    hide Admit;
    hide Readable;
    NamesValueBlind(v);
    AdmitExcludes(n, raw, own, prefix, show, NamesValue(v));
  }

  lemma PassNames(n: Naming, planned: string, wanted: seq<string>, row: OwnRow, v: string)
    requires ShortlistLabels(n, wanted) && SaneNaming(n) && PlannableRow(n, row) && Readable(planned)
    requires Pass(n, planned, wanted, row).Ok?
    requires NamesIn(Pass(n, planned, wanted, row).value, v)
    ensures NamesIn(planned, v) || v in wanted
  {
    hide Names;
    var admitted := planned;
    if row.own.Some? {
      admitted := Admit(n, planned, row.own.value, row.prefix, row.show).value;
      AdmitKeepsReadable(n, planned, row.own.value, row.prefix, row.show);
    }
    MergeReadsBack(n, admitted, wanted);
    MergeNames(n, ParseFilter(admitted).value, wanted, v);
    if row.own.Some? && v !in wanted {
      AdmitNames(n, planned, row.own.value, row.prefix, row.show, v);
    }
  }

  /** A plan names only what the filter named and what was wanted. */
  lemma {:induction false} PlanNames(n: Naming, passes: nat, planned: string, wanted: seq<string>, row: OwnRow,
                                     v: string)
    requires ShortlistLabels(n, wanted) && SaneNaming(n) && PlannableRow(n, row) && Readable(planned)
    requires PlanFrom(n, passes, planned, wanted, row).Ok?
    requires NamesIn(PlanFrom(n, passes, planned, wanted, row).value, v)
    ensures NamesIn(planned, v) || v in wanted
  {
    hide NamesIn;
    hide Pass;
    hide Readable;
    if passes > 0 {
      PassReadable(n, planned, wanted, row);
      var merged := Pass(n, planned, wanted, row).value;
      if merged != planned {
        PlanNames(n, passes - 1, merged, wanted, row, v);
        if v !in wanted {
          PassNames(n, planned, wanted, row, v);
        }
      }
    }
  }

  // ----- what a sync writes -----

  /** Whatever a field is set to names only what it named before and what was wanted. */
  lemma SyncFieldNames(k: Codec, row: OwnRow, wanted: seq<string>, pruned: seq<string>, current: string, v: string)
    requires SaneNaming(NamingOf(k)) && ShortlistLabels(NamingOf(k), wanted) && PlannableRow(NamingOf(k), row)
    requires Readable(current) && SyncField(k, row, wanted, pruned, current).Planned?
    requires NamesIn(SyncField(k, row, wanted, pruned, current).text, v)
    ensures NamesIn(current, v) || v in wanted
  {
    hide Names;
    var n := NamingOf(k);
    var planned := Plan(n, current, wanted, row).value;
    PlanRefusesOnlyUnreadable(n, current, wanted, row);
    if |pruned| > 0 {
      RemoveResult(n, planned, pruned);
      RemoveNames(n, ParseFilter(planned).value, pruned, v);
    }
    PlanNames(n, PLAN_PASSES, current, wanted, row, v);
  }

  /** Every exclude of the text that reads as this label is spelt so that the check recognises it. */
  ghost predicate Recognised(k: Codec, text: string, w: string) {
    forall v :: NamesIn(text, v) && Norm(k, v) == Norm(k, w) ==> IsOurs(k, v)
  }

  lemma OursAreNamed(k: Codec, text: string, v: string)
    ensures v in OursInText(k, text) <==> NamesIn(text, v) && IsOurs(k, v)
  {
    if NamesIn(text, v) && IsOurs(k, v) {
      var cs := ParseFilter(text).value;
      var i :| 0 <= i < |cs| && IsExclude(cs[i]) && v in cs[i].values;
      var j :| 0 <= j < |cs[i].values| && cs[i].values[j] == v;
    }
  }

  lemma HiddenIsNamed(k: Codec, text: string, w: string) returns (v: string)
    requires Hides(k, text, w)
    ensures NamesIn(text, v) && Norm(k, v) == Norm(k, w)
  {
    var cs := ParseFilter(text).value;
    var i :| 0 <= i < |cs| && IsTarget(cs, i) && Listed(NamingOf(k), w, cs[i].values);
    var j :| 0 <= j < |cs[i].values| && SameValue(NamingOf(k), w, cs[i].values[j]);
    v := cs[i].values[j];
    assert v in cs[i].values;
  }

  /** A field whose excludes of a label are recognisable is written with a recognisable one, wherever what is written
      hides the label at all. */
  lemma SyncSpellsAsOurs(k: Codec, row: OwnRow, wanted: seq<string>, pruned: seq<string>, current: string, w: string)
    requires SaneNaming(NamingOf(k)) && ShortlistLabels(NamingOf(k), wanted) && PlannableRow(NamingOf(k), row)
    requires Readable(current) && Recognised(k, current, w)
    requires SyncField(k, row, wanted, pruned, current).Planned?
    requires Hides(k, SyncField(k, row, wanted, pruned, current).text, w)
    ensures SpeltAsOurs(k, SyncField(k, row, wanted, pruned, current).text, w)
  {
    hide NamesIn;
    hide Readable;
    hide Hides;
    hide SyncField;
    hide ShortlistLabel;
    var text := SyncField(k, row, wanted, pruned, current).text;
    var v := HiddenIsNamed(k, text, w);
    SyncFieldNames(k, row, wanted, pruned, current, v);
    if v in wanted {
      WantedIsOurs(k, wanted, v);
    }
    OursAreNamed(k, text, v);
  }

  lemma WantedIsOurs(k: Codec, wanted: seq<string>, v: string)
    requires ShortlistLabels(NamingOf(k), wanted) && v in wanted
    ensures IsOurs(k, v)
  {
    var i :| 0 <= i < |wanted| && wanted[i] == v;
    assert ShortlistLabel(NamingOf(k), wanted[i]);
  }

  // ----- the check is exact -----

  lemma OursAreLabels(k: Codec, text: string, labels: seq<string>)
    requires Readable(text) && Lists(labels, OursInText(k, text))
    ensures ShortlistLabels(NamingOf(k), labels)
  {
    var cs := ParseFilter(text).value;
    ParseRoundTrip(text);
    NoLiteralAmpersand(cs);
    forall m | 0 <= m < |labels|
      ensures ShortlistLabel(NamingOf(k), labels[m])
    {
      assert labels[m] in labels;
      var i, j :| 0 <= i < |cs| && IsExclude(cs[i]) && 0 <= j < |cs[i].values| && IsOurs(k, cs[i].values[j])
                  && cs[i].values[j] == labels[m];
      assert Clean(cs[i]);
      FreeBoth(labels[m]);
    }
  }

  /** What the check accepts hides a label, whatever it is, exactly when the written text spells the label
      recognisably. */
  lemma ReadBackIsExact(k: Codec, expected: string, w: string)
    requires Readable(expected) && SaneNaming(NamingOf(k))
    ensures SpeltAsOurs(k, expected, w) <==> forall got :: FieldKept(k, expected, got) ==> Hides(k, got, w)
  {
    if SpeltAsOurs(k, expected, w) {
      forall got | FieldKept(k, expected, got)
        ensures Hides(k, got, w)
      {
        KeptStillHides(k, expected, got, w);
      }
    } else {
      var got := UnnoticedLoss(k, expected, w);
    }
  }

  /** A text the check accepts in place of one that does not spell the label recognisably, and that shows it. */
  lemma UnnoticedLoss(k: Codec, expected: string, w: string) returns (got: string)
    requires Readable(expected) && SaneNaming(NamingOf(k)) && !SpeltAsOurs(k, expected, w)
    ensures FieldKept(k, expected, got) && !Hides(k, got, w)
  {
    hide Readable;
    hide NamesIn;
    hide IsOurs;
    hide ShortlistLabels;
    var labels := Listing(OursInText(k, expected));
    OursAreLabels(k, expected, labels);
    got := MergeIntoEmpty(NamingOf(k), labels);
    if Hides(k, got, w) {
      var v := HiddenIsNamed(k, got, w);
      assert false;
    }
  }

  lemma {:induction false} Listing(s: set<string>) returns (xs: seq<string>)
    ensures Lists(xs, s)
  {
    if s == {} {
      xs := [];
    } else {
      var x :| x in s;
      var rest := Listing(s - {x});
      xs := rest + [x];
    }
  }
}
