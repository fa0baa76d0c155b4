/** Taking the own row back out: it leaves a filter Plex can read, and undoes letting the row in exactly where no group
    stands in the way. */
module AllowRestore {
  import opened Options
  import opened FilterText
  import opened ShareFilter
  import opened FilterSemantics
  import opened FilterEdits
  import opened FilterGroups
  import opened FilterMerge
  import opened MergeTheorems
  import opened FilterAllow
  import opened AllowTheorems

  // ----- what is left prints and reads back -----

  lemma HideEditPrintable(n: Naming, own: string, pending: bool, c: Condition)
    requires Clean(c) && AmpersandFree(c) && HideEdit(n, own, pending, c).Some?
    ensures var d := HideEdit(n, own, pending, c).value;
            PrintableCondition(d) && AmpersandFree(d) && d.sep == c.sep
  {
    if HideEdit(n, own, pending, c) != Some(c) {
      WithoutValuesClean(c, MineIs(n, own));
      var d := HideEdit(n, own, pending, c).value;
      forall j | 0 <= j < |d.values|
        ensures Free(d.values[j], AMPERSAND)
      {
        assert d.values[j] in d.values;
      }
    }
  }

  ghost predicate PrintableMember(c: Condition) {
    PrintableCondition(c) && AmpersandFree(c) && c.sep in CONDITION_SEPS
  }

  ghost predicate PrintableMembers(cs: seq<Condition>) {
    forall i :: 0 <= i < |cs| ==> PrintableMember(cs[i])
  }

  lemma AnySepPrintable(c: Condition, sep: char)
    requires PrintableMember(c) && sep in CONDITION_SEPS
    ensures PrintableMember(c.(sep := sep))
  {
  }

  lemma HideGroupPrintable(n: Naming, own: string, g: seq<Condition>)
    requires GoodGroup(g)
    ensures PrintableMembers(HideGroup(n, own, g))
  {
    hide HideEdits;
    hide PrintableMember;
    var kept := Collect(HideEdits(n, own, g));
    forall k | 0 <= k < |kept|
      ensures PrintableMember(kept[k]) && PrintableMember(kept[k].(sep := g[0].sep))
    {
      HideMember(n, own, g, k);
      AnySepPrintable(kept[k], g[0].sep);
    }
  }

  lemma HideMember(n: Naming, own: string, g: seq<Condition>, k: nat)
    requires GoodGroup(g) && k < |Collect(HideEdits(n, own, g))|
    ensures PrintableMember(Collect(HideEdits(n, own, g))[k])
  {
    hide PrintableCondition;
    hide AmpersandFree;
    hide AnyOursExclude;
    hide HideEdit;
    hide Clean;
    var i := Origin(HideEdits(n, own, g), k);
    assert g[i].sep in CONDITION_SEPS;
    HideEditPrintable(n, own, AnyOursExclude(n, g), g[i]);
  }

  lemma {:induction false} HideGroupsPrintable(n: Naming, own: string, gs: seq<seq<Condition>>)
    requires forall q :: 0 <= q < |gs| ==> |gs[q]| > 0
    requires forall q :: 0 <= q < |gs| ==> GoodGroup(gs[q])
    ensures PrintableMembers(Flatten(HideGroups(n, own, gs)))
  {
    if |gs| > 0 {
      var init, h := HideGroups(n, own, gs[..|gs| - 1]), HideGroup(n, own, gs[|gs| - 1]);
      HideGroupsPrintable(n, own, gs[..|gs| - 1]);
      HideGroupPrintable(n, own, gs[|gs| - 1]);
      if |h| > 0 {
        assert (init + [h])[..|init|] == init;
        assert Flatten(init + [h]) == Flatten(init) + h;
      } else {
        assert init + [] == init;
      }
    }
  }

  lemma MembersPrintable(cs: seq<Condition>)
    requires PrintableMembers(cs)
    ensures Printable(cs)
  {
  }

  // ----- the groups that are left -----

  lemma HideKeepsSep(n: Naming, own: string, pending: bool, c: Condition)
    requires HideEdit(n, own, pending, c).Some?
    ensures HideEdit(n, own, pending, c).value.sep == c.sep
  {
  }

  lemma HideGroupShape(n: Naming, own: string, g: seq<Condition>)
    requires |g| > 0 && forall k :: 1 <= k < |g| ==> g[k].sep != '&'
    ensures var h := HideGroup(n, own, g);
            && (forall k :: 1 <= k < |h| ==> h[k].sep != '&')
            && (|h| > 0 ==> h[0].sep == g[0].sep)
  {
    var edits := HideEdits(n, own, g);
    var kept := Collect(edits);
    forall k | 1 <= k < |kept|
      ensures kept[k].sep != '&'
    {
      OriginMonotone(edits, 0, k);
      HideKeepsSep(n, own, AnyOursExclude(n, g), g[Origin(edits, k)]);
    }
  }

  lemma {:induction false} HideGroupsShape(n: Naming, own: string, gs: seq<seq<Condition>>)
    requires GroupShape(gs)
    ensures GroupShape(HideGroups(n, own, gs)) && |HideGroups(n, own, gs)| <= |gs|
    ensures |HideGroups(n, own, gs)| == |gs| ==>
              forall q :: 0 <= q < |gs| ==> HideGroups(n, own, gs)[q] == HideGroup(n, own, gs[q])
  {
    hide HideGroup;
    if |gs| > 0 {
      HideGroupsShape(n, own, gs[..|gs| - 1]);
      HideGroupShape(n, own, gs[|gs| - 1]);
    }
  }

  lemma {:induction false} DropGroupsAll(n: Naming, own: string, gs: seq<seq<Condition>>)
    requires forall q :: 0 <= q < |gs| ==> |gs[q]| > 0
    ensures |DropGroups(n, own, gs)| <= |gs|
    ensures |DropGroups(n, own, gs)| == |gs| ==>
              forall q :: 0 <= q < |gs| ==> DropGroups(n, own, gs)[q] == DropGroup(n, own, gs[q])
                                            && |DropGroup(n, own, gs[q])| > 0
    decreases |gs|
  {
    hide DropGroup;
    if |gs| > 0 {
      DropGroupsAll(n, own, gs[1..]);
    }
  }

  /** The same conditions, but for how a blank prints and for what joins the first to the group before. */
  ghost predicate AlikeGroup(g: seq<Condition>, h: seq<Condition>) {
    |g| == |h| && forall k :: 0 <= k < |g| ==> h[k].(sep := '|') == Blanked(g[k]).(sep := '|')
  }

  ghost predicate AlikeGroups(gs: seq<seq<Condition>>, hs: seq<seq<Condition>>) {
    |gs| == |hs| && forall q :: 0 <= q < |gs| ==> AlikeGroup(gs[q], hs[q])
  }

  lemma AlikeSnoc(g: seq<Condition>, h: seq<Condition>, c: Condition, d: Condition)
    requires AlikeGroup(g, h) && d.(sep := '|') == Blanked(c).(sep := '|')
    ensures AlikeGroup(g + [c], h + [d])
  {
  }

  lemma AlikeOpens(gs: seq<seq<Condition>>, hs: seq<seq<Condition>>, c: Condition, d: Condition)
    requires AlikeGroups(gs, hs) && d.(sep := '|') == Blanked(c).(sep := '|')
    ensures AlikeGroups(gs + [[c]], hs + [[d]])
  {
    AlikeSnoc([], [], c, d);
    assert [] + [c] == [c] && [] + [d] == [d];
  }

  lemma AlikeJoins(gs: seq<seq<Condition>>, hs: seq<seq<Condition>>, c: Condition, d: Condition)
    requires AlikeGroups(gs, hs) && |gs| > 0 && d.(sep := '|') == Blanked(c).(sep := '|')
    ensures AlikeGroups(gs[..|gs| - 1] + [gs[|gs| - 1] + [c]], hs[..|hs| - 1] + [hs[|hs| - 1] + [d]])
  {
    AlikeSnoc(gs[|gs| - 1], hs[|hs| - 1], c, d);
  }

  lemma {:induction false} ReadBackGroups(cs: seq<Condition>)
    ensures AlikeGroups(GroupsOf(cs), GroupsOf(ReadBack(cs)))
  {
    hide AlikeGroups;
    hide Blanked;
    hide ReadBack;
    if |cs| > 0 {
      var init, c := cs[..|cs| - 1], cs[|cs| - 1];
      var d := Blanked(c).(sep := if |init| == 0 then '|' else c.sep);
      SplitLast(cs);
      ReadBackSnoc(init, c);
      ReadBackGroups(init);
      GroupsSnoc(init, c);
      GroupsSnoc(ReadBack(init), d);
      if |init| == 0 || c.sep == '&' {
        AlikeOpens(GroupsOf(init), GroupsOf(ReadBack(init)), c, d);
      } else {
        AlikeJoins(GroupsOf(init), GroupsOf(ReadBack(init)), c, d);
      }
    } else {
      NoGroups();
    }
  }

  lemma NoGroups()
    ensures ReadBack([]) == [] && AlikeGroups(GroupsOf([]), GroupsOf([]))
  {
  }

  // ----- a group that is given back is a restorable one -----

  lemma {:induction false} SpareWhole(n: Naming, own: string, g: seq<Condition>)
    requires |Spare(n, own, false, g)| == |g|
    ensures forall k :: 0 <= k < |g| ==> !OwnOnly(n, own, g[k])
    decreases |g|
  {
    if |g| > 0 {
      SpareWhole(n, own, g[1..]);
      assert forall k :: 1 <= k < |g| ==> g[k] == g[1..][k - 1];
    }
  }

  /** A group without a condition of the owner's gets none by losing some. */
  lemma DropKeepsUnowned(n: Naming, own: string, g: seq<Condition>)
    requires |g| > 0 && !AnyOwnersAllow(n, own, g)
    ensures !AnyOwnersAllow(n, own, DropGroup(n, own, g))
  {
    var h, d := Spare(n, own, AnyOursExclude(n, g), g), DropGroup(n, own, g);
    forall k | 0 <= k < |d|
      ensures !OwnersAllow(n, own, d[k])
    {
      SpareGood(n, own, AnyOursExclude(n, g), g, k);
      var j :| 0 <= j < |g| && g[j] == h[k];
      assert !OwnersAllow(n, own, g[j]);
    }
  }

  lemma AdmitsUnowned(n: Naming, own: string, prefix: string, valueSep: string, g: seq<Condition>)
    requires !AnyOwnersAllow(n, own, g)
    ensures AdmitGroup(n, own, prefix, valueSep, g) == g
  {
  }

  lemma HideShrinks(n: Naming, own: string, g: seq<Condition>)
    requires |g| > 0
    ensures |HideGroup(n, own, g)| <= |g|
  {
  }

  /** A group without a condition of the owner's comes back only if it has no `label=` clause, or they are held back. */
  lemma UnownedRestorable(n: Naming, own: string, prefix: string, valueSep: string, g: seq<Condition>)
    requires |g| > 0 && !AnyOwnersAllow(n, own, g) && |DropGroup(n, own, g)| > 0
    requires |HideGroup(n, own, AdmitGroup(n, own, prefix, valueSep, DropGroup(n, own, g)))| == |g|
    ensures RestorableGroup(n, own, prefix, g)
  {
    DropKeepsUnowned(n, own, g);
    AdmitsUnowned(n, own, prefix, valueSep, DropGroup(n, own, g));
    HideShrinks(n, own, DropGroup(n, own, g));
    if !AnyOursExclude(n, g) {
      SpareWhole(n, own, g);
    }
    forall k | 0 <= k < |g| && IsLabelAllow(g[k])
      ensures AllMine(n, own, g[k]) && AnyOursExclude(n, g)
    {
      assert !OwnersAllow(n, own, g[k]);
    }
  }

  /** What is left of a clause is the clause: it names only others, or is held back. */
  lemma ClauseGivenBack(n: Naming, own: string, pending: bool, c: Condition)
    requires IsLabelAllow(c) && HideEdit(n, own, pending, c).Some?
    requires Blanked(HideEdit(n, own, pending, c).value).values == c.values
    ensures NamesOthers(n, own, c) || (AllMine(n, own, c) && pending)
  {
    HideEditMine(n, own, c);
    SurvivorsMembers(c.values, PaddedSeps(c), MineIs(n, own));
    if !AllMine(n, own, c) {
      var d := HideEdit(n, own, pending, c).value;
      assert |d.values| > 0;
      assert forall j :: 0 <= j < |c.values| ==> c.values[j] in c.values;
    }
  }

  /** A clause that let the row in and is given back named something before. */
  lemma GrownGivenBack(n: Naming, own: string, pending: bool, c: Condition, valueSep: string)
    requires IsLabelAllow(c) && own != "" && HideEdit(n, own, pending, Grow(c, [own], valueSep)).Some?
    requires Blanked(HideEdit(n, own, pending, Grow(c, [own], valueSep)).value).values == c.values
    ensures |c.values| > 0
  {
    var d := Grow(c, [own], valueSep);
    if |c.values| == 0 {
      assert d.values == [own];
      HideEditMine(n, own, d);
    }
  }

  lemma {:induction false} CollectWhole<T>(edits: seq<Option<T>>)
    requires |Collect(edits)| == |edits|
    ensures forall k :: 0 <= k < |edits| ==> edits[k] == Some(Collect(edits)[k])
  {
    if |edits| > 0 {
      CollectLast(edits);
      CollectWhole(edits[..|edits| - 1]);
    }
  }

  lemma HiddenClause(n: Naming, own: string, h: seq<Condition>, g: seq<Condition>, k: nat)
    requires |h| > 0 && |HideGroup(n, own, h)| == |h| && AlikeGroup(HideGroup(n, own, h), g) && k < |h|
    ensures HideEdit(n, own, AnyOursExclude(n, h), h[k]).Some?
    ensures Blanked(HideEdit(n, own, AnyOursExclude(n, h), h[k]).value).values == g[k].values
  {
    hide AnyOursExclude;
    hide HideEdit;
    CollectWhole(HideEdits(n, own, h));
    var kept := HideGroup(n, own, h);
    assert g[k].(sep := '|') == Blanked(kept[k]).(sep := '|');
  }

  lemma HidesAdded(n: Naming, own: string, g: seq<Condition>)
    requires |g| > 0 && (forall k :: 0 <= k < |g| ==> !IsLabelAllow(g[k]))
    requires var h := g + [Condition("label", Is, [own], '|', [])];
             AnyOursExclude(n, h)
    ensures |HideGroup(n, own, g + [Condition("label", Is, [own], '|', [])])| == |g| + 1
  {
    var h := g + [Condition("label", Is, [own], '|', [])];
    HideEditAdded(n, own, true);
    forall k | 0 <= k < |h|
      ensures HideEdits(n, own, h)[k] == Some(h[k])
    {
      if k < |g| {
        assert h[k] == g[k];
      }
    }
    CollectAll(h, HideEdits(n, own, h));
  }

  lemma NamesNotOwn(n: Naming, own: string, c: Condition)
    requires |c.values| > 0 && forall j :: 0 <= j < |c.values| ==> !SameValue(n, c.values[j], own)
    ensures NamesOthers(n, own, c)
  {
  }

  /** A group with a condition of the owner's that comes back is restorable. */
  lemma OwnedRestorable(n: Naming, own: string, prefix: string, valueSep: string, g: seq<Condition>)
    requires own != "" && |g| > 0 && AnyOwnersAllow(n, own, g)
    requires |AdmitGroup(n, own, prefix, valueSep, g)| > 0
    requires AlikeGroup(HideGroup(n, own, AdmitGroup(n, own, prefix, valueSep, g)), g)
    ensures RestorableGroup(n, own, prefix, g)
  {
    hide AnyOursExclude;
    hide AnyAdmits;
    hide HideGroup;
    hide HideEdit;
    hide NamesOthers;
    hide AllMine;
    hide Grow;
    var h := AdmitGroup(n, own, prefix, valueSep, g);
    AdmitKeepsPending(n, own, prefix, valueSep, g);
    if |h| != |g| {
      AddedClause(n, own, prefix, valueSep, g);
      if AnyOursExclude(n, g) {
        HidesAdded(n, own, g);
        assert false;
      }
    } else {
      forall k | 0 <= k < |g| && IsLabelAllow(g[k])
        ensures NamesOthers(n, own, g[k]) || (AllMine(n, own, g[k]) && AnyOursExclude(n, g))
        ensures h[k] != g[k] ==> |g[k].values| > 0
      {
        HiddenClause(n, own, h, g, k);
        if h[k] == g[k] {
          ClauseGivenBack(n, own, AnyOursExclude(n, h), g[k]);
        } else {
          GrownGivenBack(n, own, AnyOursExclude(n, h), g[k], valueSep);
          UnadmittedNamesNoOwn(n, own, prefix, g, k);
          NamesNotOwn(n, own, g[k]);
        }
      }
      if !AnyAdmits(n, g, [own, prefix]) && AllowClause(g, 0) < |g| {
        GrownIsDifferent(n, own, prefix, valueSep, g);
      }
    }
  }

  lemma GrownIsDifferent(n: Naming, own: string, prefix: string, valueSep: string, g: seq<Condition>)
    requires AnyOwnersAllow(n, own, g) && !AnyAdmits(n, g, [own, prefix]) && AllowClause(g, 0) < |g|
    ensures AdmitGroup(n, own, prefix, valueSep, g)[AllowClause(g, 0)] != g[AllowClause(g, 0)]
  {
    var c := AllowClause(g, 0);
    assert |Grow(g[c], [own], valueSep).values| == |g[c].values| + 1;
  }

  lemma GroupGivenBack(n: Naming, own: string, prefix: string, valueSep: string, g: seq<Condition>)
    requires own != "" && |g| > 0 && |DropGroup(n, own, g)| > 0
    requires |AdmitGroup(n, own, prefix, valueSep, DropGroup(n, own, g))| > 0
    requires AlikeGroup(HideGroup(n, own, AdmitGroup(n, own, prefix, valueSep, DropGroup(n, own, g))), g)
    ensures RestorableGroup(n, own, prefix, g)
  {
    hide HideGroup;
    hide AdmitGroup;
    hide RestorableGroup;
    if AnyOwnersAllow(n, own, g) {
      OwnedRestorable(n, own, prefix, valueSep, g);
    } else {
      UnownedRestorable(n, own, prefix, valueSep, g);
    }
  }

  // ----- the whole filter -----

  lemma ShownHeadsKept(n: Naming, own: string, prefix: string, cs: seq<Condition>)
    requires OwnLabel(n, own) && WellFormed(cs) && NoAmpersand(cs)
    requires |ShownGroups(n, own, prefix, cs)| == |GroupsOf(cs)|
    ensures UnledFirst(ShownGroups(n, own, prefix, cs)) == ShownGroups(n, own, prefix, cs)
    ensures forall q :: 0 <= q < |GroupsOf(cs)| ==>
              && |GroupsOf(cs)[q]| > 0 && |DropGroup(n, own, GroupsOf(cs)[q])| > 0
              && ShownGroups(n, own, prefix, cs)[q] ==
                 AdmitGroup(n, own, prefix, HouseValueSep(cs), DropGroup(n, own, GroupsOf(cs)[q]))
  {
    hide DropGroup;
    hide AdmitGroup;
    hide GoodGroup;
    var gs, hs := GroupsOf(cs), ShownGroups(n, own, prefix, cs);
    GroupsShape(cs);
    DropGroupsAll(n, own, gs);
    GoodGroupsOf(cs);
    if |cs| > 0 {
      HeadOfFlatten(cs);
      DropGroupGood(n, own, gs[0]);
      SameHead(n, own, prefix, HouseValueSep(cs), DropGroup(n, own, gs[0]));
      UnledFirstSame(hs);
    }
  }

  /** The conditions left once the row is let in and taken out again. */
  function Returned(n: Naming, own: string, prefix: string, cs: seq<Condition>): seq<seq<Condition>> {
    HiddenGroups(n, own, AdmitConditions(n, own, prefix, true, cs))
  }

  lemma ReturnedShape(n: Naming, own: string, prefix: string, cs: seq<Condition>)
    requires OwnLabel(n, own) && WellFormed(cs) && NoAmpersand(cs)
    ensures GroupShape(Returned(n, own, prefix, cs))
    ensures |Returned(n, own, prefix, cs)| <= |ShownGroups(n, own, prefix, cs)| <= |GroupsOf(cs)|
    ensures var us := UnledFirst(ShownGroups(n, own, prefix, cs));
            && GroupShape(us) && GoodGroups(us) && |us| == |ShownGroups(n, own, prefix, cs)|
            && Returned(n, own, prefix, cs) == HideGroups(n, own, us)
  {
    hide GoodGroup;
    var hs := ShownGroups(n, own, prefix, cs);
    ShownGroupsGood(n, own, prefix, cs);
    ShownConditionGroups(n, own, prefix, cs);
    GoodIsShape(hs);
    UnledFirstShape(hs);
    HideGroupsShape(n, own, UnledFirst(hs));
    GroupsShape(cs);
    DropGroupsAll(n, own, GroupsOf(cs));
    UnledFirstGood(hs);
  }

  lemma UnledFirstGood(gs: seq<seq<Condition>>)
    requires GoodGroups(gs)
    ensures GoodGroups(UnledFirst(gs))
  {
    if |gs| > 0 {
      var g := gs[0];
      CleanAnySep(g[0], '|');
      forall k | 0 <= k < |g|
        ensures Clean(Unled(g)[k]) && AmpersandFree(Unled(g)[k])
      {
        assert Unled(g)[k] == if k == 0 then g[0].(sep := '|') else g[k];
      }
    }
  }

  /** A filter given back character for character is made of restorable groups. */
  lemma ReturnedRestorable(n: Naming, own: string, prefix: string, cs: seq<Condition>, q: nat)
    requires OwnLabel(n, own) && WellFormed(cs) && NoAmpersand(cs) && q < |GroupsOf(cs)|
    requires AlikeGroups(Returned(n, own, prefix, cs), GroupsOf(cs))
    ensures RestorableGroup(n, own, prefix, GroupsOf(cs)[q])
  {
    hide HideGroup;
    hide DropGroup;
    hide AdmitGroup;
    hide GoodGroup;
    hide AlikeGroup;
    hide RestorableGroup;
    var us := UnledFirst(ShownGroups(n, own, prefix, cs));
    ReturnedShape(n, own, prefix, cs);
    ShownHeadsKept(n, own, prefix, cs);
    HideGroupsShape(n, own, us);
    assert Returned(n, own, prefix, cs)[q] == HideGroup(n, own, us[q]);
    assert AlikeGroup(HideGroup(n, own, us[q]), GroupsOf(cs)[q]);
    GroupGivenBack(n, own, prefix, HouseValueSep(cs), GroupsOf(cs)[q]);
  }

  lemma TextGivenBack(n: Naming, raw: string, own: string, prefix: string)
    requires OwnLabel(n, own) && ParseFilter(raw).Ok? && !LiteralAmpersand(ParseFilter(raw).value)
    requires Admit(n, Admit(n, raw, own, prefix, true).value, own, prefix, false) == Ok(raw)
    ensures AlikeGroups(Returned(n, own, prefix, ParseFilter(raw).value), GroupsOf(ParseFilter(raw).value))
  {
    hide GoodGroup;
    hide AlikeGroups;
    hide HideGroups;
    hide ShownGroups;
    var cs := ParseFilter(raw).value;
    ParseRoundTrip(raw);
    NoLiteralAmpersand(cs);
    AdmitLetsOwnRowPass(n, raw, own, prefix);
    ReturnedShape(n, own, prefix, cs);
    var us := UnledFirst(ShownGroups(n, own, prefix, cs));
    HideGroupsPrintable(n, own, us);
    var left := Flatten(Returned(n, own, prefix, cs));
    MembersPrintable(left);
    UnledText(left);
    ParseOfPrinted(left);
    GroupsOfFlatten(Returned(n, own, prefix, cs));
    ReadBackGroups(left);
    assert AdmitConditions(n, own, prefix, false, AdmitConditions(n, own, prefix, true, cs)) == Unled(left);
  }

  /** Admitting the own row and taking it back out gives back the filter, character for character, if and only if every
      group is one that comes back. */
  lemma HideUndoesShow(n: Naming, raw: string, own: string, prefix: string)
    requires OwnLabel(n, own) && Admit(n, raw, own, prefix, true).Ok? && ParseFilter(raw).Ok?
    ensures Admit(n, Admit(n, raw, own, prefix, true).value, own, prefix, false) == Ok(raw) <==>
            Restorable(n, own, prefix, GroupsOf(ParseFilter(raw).value))
  {
    hide RestorableGroup;
    hide AlikeGroups;
    var cs := ParseFilter(raw).value;
    AdmitLetsOwnRowPass(n, raw, own, prefix);
    ParseRoundTrip(raw);
    NoLiteralAmpersand(cs);
    if Restorable(n, own, prefix, GroupsOf(cs)) {
      ShownRestorable(n, own, prefix, cs);
    }
    if Admit(n, Admit(n, raw, own, prefix, true).value, own, prefix, false) == Ok(raw) {
      TextGivenBack(n, raw, own, prefix);
      forall q | 0 <= q < |GroupsOf(cs)|
        ensures RestorableGroup(n, own, prefix, GroupsOf(cs)[q])
      {
        ReturnedRestorable(n, own, prefix, cs, q);
      }
    }
  }

  lemma EmptyAllowReads() returns (raw: string)
    ensures ParseFilter(raw) == Ok([Condition("label", Is, [], '|', [])])
    ensures !LiteralAmpersand(ParseFilter(raw).value)
  {
    var cs := [Condition("label", Is, [], '|', [])];
    assert Clean(cs[0]) && NoAmpersand(cs);
    SerializeRoundTrip(cs);
    NoLiteralAmpersand(cs);
    raw := Serialize(cs);
  }

  /** The filter `label=`, which allows nothing, is not given back. */
  lemma EmptyAllowIsNotGivenBack(n: Naming, own: string, prefix: string) returns (raw: string)
    requires OwnLabel(n, own)
    ensures ParseFilter(raw) == Ok([Condition("label", Is, [], '|', [])]) && Admit(n, raw, own, prefix, true).Ok?
    ensures Admit(n, Admit(n, raw, own, prefix, true).value, own, prefix, false) != Ok(raw)
  {
    hide Admit;
    hide AdmitConditions;
    raw := EmptyAllowReads();
    var c := Condition("label", Is, [], '|', []);
    AdmitReadable(n, raw, own, prefix);
    assert [c][..0] == [] && GroupsOf([c]) == [] + [[c]] == [[c]];
    assert [[c]][0] == [c] && [c][0] == c && !AnyOursExclude(n, [c]);
    assert !RestorableGroup(n, own, prefix, [c]);
    HideUndoesShow(n, raw, own, prefix);
  }

  lemma AdmitReadable(n: Naming, raw: string, own: string, prefix: string)
    requires ParseFilter(raw).Ok? && !LiteralAmpersand(ParseFilter(raw).value)
    ensures Admit(n, raw, own, prefix, true).Ok?
  {
  }
}
