/** What a sync makes of an account's allow lists: its own row goes in, a row that has gone comes out, and where a
    missing row may only be one that was not read they stay as they are. */
module RowAdmission {
  import opened Options
  import opened ShareFilter
  import opened FilterSemantics
  import opened FilterEdits
  import opened FilterGroups
  import opened FilterMerge
  import opened MergeTheorems
  import opened MergeStability
  import opened FilterRemove
  import opened FilterAllow
  import opened AllowTheorems
  import opened AdmitIdle
  import opened AdmitOutcome
  import opened FilterKin
  import opened PassShape
  import opened PlanSteps
  import opened PlanPasses
  import opened SharePlan
  import opened SyncPrune
  import opened AccountSync
  import opened FilterReadBack
  import opened PruneEffects

  // ----- taking labels of ours out of a settled filter -----

  /** An exclude of ours that lost some of its labels, but not all. */
  ghost predicate Narrowed(n: Naming, c: Condition, d: Condition) {
    OursExclude(n, c) && OursExclude(n, d) && forall v :: v in d.values ==> v in c.values
  }

  ghost predicate Lighter(n: Naming, g: seq<Condition>, h: seq<Condition>) {
    |g| == |h| && forall k :: 0 <= k < |g| ==> SameSay(g[k], h[k]) || Narrowed(n, g[k], h[k])
  }

  ghost predicate LighterGroup(n: Naming, g: seq<Condition>, h: seq<Condition>) {
    Lighter(n, g, h) || LoneExcludes(g, h)
  }

  /** An edit that leaves every group what it was: a clause goes only if it is an exclude alone in its group. */
  ghost predicate LightEdit(n: Naming, cs: seq<Condition>, i: nat, e: Option<Condition>)
    requires i < |cs|
  {
    match e
    case None => Alone(cs, i) && IsExclude(cs[i])
    case Some(d) =>
      && d.sep == cs[i].sep
      && (SameSay(cs[i], d) || Narrowed(n, cs[i], d) || (Alone(cs, i) && IsExclude(cs[i]) && IsExclude(d)))
  }

  ghost predicate LightEdits(n: Naming, cs: seq<Condition>, edits: seq<Option<Condition>>) {
    |edits| == |cs| && forall i :: 0 <= i < |cs| ==> LightEdit(n, cs, i, edits[i])
  }

  ghost predicate HasOrigin(n: Naming, gs: seq<seq<Condition>>, h: seq<Condition>) {
    exists p :: 0 <= p < |gs| && LighterGroup(n, gs[p], h)
  }

  ghost predicate FromGroups(n: Naming, gs: seq<seq<Condition>>, hs: seq<seq<Condition>>) {
    forall q :: 0 <= q < |hs| ==> HasOrigin(n, gs, hs[q])
  }

  /** How the last group of the first `m` conditions came through. */
  ghost predicate LastGroup(n: Naming, cs: seq<Condition>, m: nat, gs: seq<seq<Condition>>, hs: seq<seq<Condition>>) {
    && |gs| > 0 && |hs| > 0 && LighterGroup(n, gs[|gs| - 1], hs[|hs| - 1])
    && FromGroups(n, gs[..|gs| - 1], hs[..|hs| - 1])
    && (m < |cs| && cs[m].sep != '&' ==> Lighter(n, gs[|gs| - 1], hs[|hs| - 1]))
  }

  lemma OriginMore(n: Naming, gs: seq<seq<Condition>>, g: seq<Condition>, h: seq<Condition>)
    ensures HasOrigin(n, gs + [g], h) <==> HasOrigin(n, gs, h) || LighterGroup(n, g, h)
  {
    hide LighterGroup;
    var all := gs + [g];
    if p :| 0 <= p < |gs| && LighterGroup(n, gs[p], h) {
      assert all[p] == gs[p];
    }
    assert all[|gs|] == g;
  }

  lemma FromMore(n: Naming, gs: seq<seq<Condition>>, hs: seq<seq<Condition>>, g: seq<Condition>,
                 e: Option<seq<Condition>>)
    requires FromGroups(n, gs, hs) && (e.Some? ==> LighterGroup(n, g, e.value))
    ensures FromGroups(n, gs + [g], if e.Some? then hs + [e.value] else hs)
  {
    hide HasOrigin;
    hide LighterGroup;
    var hs' := if e.Some? then hs + [e.value] else hs;
    forall q | 0 <= q < |hs'|
      ensures HasOrigin(n, gs + [g], hs'[q])
    {
      OriginMore(n, gs, g, hs'[q]);
    }
  }

  lemma LightAlone(n: Naming, cs: seq<Condition>, m: nat, d: Condition)
    requires m < |cs| && (m == 0 || cs[m].sep == '&') && LightEdit(n, cs, m, Some(d))
    ensures LighterGroup(n, [cs[m]], [d])
    ensures m + 1 < |cs| && cs[m + 1].sep != '&' ==> Lighter(n, [cs[m]], [d])
  {
  }

  lemma LighterMore(n: Naming, cs: seq<Condition>, m: nat, g: seq<Condition>, h: seq<Condition>, d: Condition)
    requires 0 < m < |cs| && cs[m].sep != '&' && LightEdit(n, cs, m, Some(d)) && Lighter(n, g, h)
    ensures Lighter(n, g + [cs[m]], h + [d])
  {
    hide Narrowed;
  }

  ghost predicate CameThrough(n: Naming, cs: seq<Condition>, edits: seq<Option<Condition>>, m: nat)
    requires m <= |cs| == |edits|
  {
    var gs, hs := GroupsOf(cs[..m]), GroupsOf(Collect(edits[..m]));
    FromGroups(n, gs, hs) && (m > 0 && edits[m - 1].Some? ==> LastGroup(n, cs, m, gs, hs))
  }

  lemma OpensGroup(n: Naming, cs: seq<Condition>, edits: seq<Option<Condition>>, m: nat)
    requires LightEdits(n, cs, edits) && m < |cs| && (m == 0 || cs[m].sep == '&') && CameThrough(n, cs, edits, m)
    ensures CameThrough(n, cs, edits, m + 1)
  {
    hide LightEdit;
    hide FromGroups;
    hide LighterGroup;
    hide Lighter;
    hide GroupsOf;
    hide Collect;
    var gs, hs := GroupsOf(cs[..m]), GroupsOf(Collect(edits[..m]));
    assert LightEdit(n, cs, m, edits[m]);
    SplitNext(cs, m);
    CollectNext(edits, m);
    GroupOpened(cs[..m], cs[m]);
    match edits[m] {
      case None =>
        assert Collect(edits[..m]) + [] == Collect(edits[..m]);
        FromMore(n, gs, hs, [cs[m]], None);
      case Some(d) =>
        LightAlone(n, cs, m, d);
        SameSep(n, cs, m, d);
        CollectNone(edits[..m]);
        GroupOpened(Collect(edits[..m]), d);
        FromMore(n, gs, hs, [cs[m]], Some([d]));
        assert (gs + [[cs[m]]])[..|gs|] == gs && (hs + [[d]])[..|hs|] == hs;
    }
  }

  lemma SplitNext<T>(ts: seq<T>, m: nat)
    requires m < |ts|
    ensures ts[..m + 1] == ts[..m] + [ts[m]]
  {
  }

  lemma CollectNone<T>(edits: seq<Option<T>>)
    ensures |edits| == 0 ==> Collect(edits) == []
  {
  }

  lemma SameSep(n: Naming, cs: seq<Condition>, m: nat, d: Condition)
    requires m < |cs| && LightEdit(n, cs, m, Some(d))
    ensures d.sep == cs[m].sep
  {
  }

  lemma NotAlone(n: Naming, cs: seq<Condition>, edits: seq<Option<Condition>>, m: nat)
    requires LightEdits(n, cs, edits) && 0 < m < |cs| && cs[m].sep != '&'
    ensures edits[m - 1].Some? && edits[m].Some?
  {
    assert LightEdit(n, cs, m - 1, edits[m - 1]) && LightEdit(n, cs, m, edits[m]);
  }

  lemma ExtendsGroup(n: Naming, cs: seq<Condition>, edits: seq<Option<Condition>>, m: nat)
    requires LightEdits(n, cs, edits) && 0 < m < |cs| && cs[m].sep != '&' && CameThrough(n, cs, edits, m)
    ensures CameThrough(n, cs, edits, m + 1)
  {
    hide LightEdit;
    hide FromGroups;
    hide Lighter;
    hide GroupsOf;
    hide Collect;
    var gs, hs := GroupsOf(cs[..m]), GroupsOf(Collect(edits[..m]));
    NotAlone(n, cs, edits, m);
    var d := edits[m].value;
    assert LightEdit(n, cs, m, edits[m]);
    SameSep(n, cs, m, d);
    SplitNext(cs, m);
    CollectNext(edits, m);
    NoGroups(Collect(edits[..m]));
    GroupJoined(cs[..m], cs[m]);
    GroupJoined(Collect(edits[..m]), d);
    var g, h := gs[|gs| - 1] + [cs[m]], hs[|hs| - 1] + [d];
    LighterMore(n, cs, m, gs[|gs| - 1], hs[|hs| - 1], d);
    FromMore(n, gs[..|gs| - 1], hs[..|hs| - 1], g, Some(h));
  }

  lemma NoGroups(cs: seq<Condition>)
    ensures |GroupsOf(cs)| > 0 ==> |cs| > 0
  {
  }

  lemma {:induction false} AllCameThrough(n: Naming, cs: seq<Condition>, edits: seq<Option<Condition>>, m: nat)
    requires LightEdits(n, cs, edits) && m <= |cs|
    ensures CameThrough(n, cs, edits, m)
  {
    hide CameThrough;
    hide LightEdit;
    if m == 0 {
      NoneYet(n, cs, edits);
    } else {
      AllCameThrough(n, cs, edits, m - 1);
      if m == 1 || cs[m - 1].sep == '&' {
        OpensGroup(n, cs, edits, m - 1);
      } else {
        ExtendsGroup(n, cs, edits, m - 1);
      }
    }
  }

  lemma NoneYet(n: Naming, cs: seq<Condition>, edits: seq<Option<Condition>>)
    requires |edits| == |cs|
    ensures CameThrough(n, cs, edits, 0)
  {
  }

  /** A group with nothing to do still has none. */
  lemma LighterIdle(n: Naming, own: string, prefix: string, show: bool, g: seq<Condition>, h: seq<Condition>)
    requires LighterGroup(n, g, h) && IdleGroup(n, own, prefix, show, g)
    ensures IdleGroup(n, own, prefix, show, h)
  {
    if LoneExcludes(g, h) {
      LoneExcludeIdle(n, own, prefix, show, h);
    } else {
      LighterSays(n, own, g, h, [own, prefix]);
      forall k | 0 <= k < |h| && IsLabelAllow(h[k])
        ensures SameSay(g[k], h[k])
      {
      }
    }
  }

  lemma LighterSays(n: Naming, own: string, g: seq<Condition>, h: seq<Condition>, rowLabels: seq<string>)
    requires Lighter(n, g, h)
    ensures AnyOwnersAllow(n, own, g) <==> AnyOwnersAllow(n, own, h)
    ensures AnyOursExclude(n, g) <==> AnyOursExclude(n, h)
    ensures AnyAdmits(n, g, rowLabels) ==> AnyAdmits(n, h, rowLabels)
    ensures forall k :: 0 <= k < |g| ==> (OwnOnly(n, own, g[k]) <==> OwnOnly(n, own, h[k]))
  {
    forall k | 0 <= k < |g|
      ensures OwnersAllow(n, own, g[k]) <==> OwnersAllow(n, own, h[k])
      ensures OursExclude(n, g[k]) <==> OursExclude(n, h[k])
      ensures Admits(n, g[k], rowLabels) ==> Admits(n, h[k], rowLabels)
      ensures OwnOnly(n, own, g[k]) <==> OwnOnly(n, own, h[k])
    {
      ClauseSays(n, own, g[k], h[k], rowLabels);
    }
  }

  lemma ClauseSays(n: Naming, own: string, c: Condition, d: Condition, rowLabels: seq<string>)
    requires SameSay(c, d) || Narrowed(n, c, d)
    ensures OwnersAllow(n, own, c) <==> OwnersAllow(n, own, d)
    ensures OursExclude(n, c) <==> OursExclude(n, d)
    ensures Admits(n, c, rowLabels) ==> Admits(n, d, rowLabels)
    ensures OwnOnly(n, own, c) <==> OwnOnly(n, own, d)
  {
    if SameSay(c, d) {
      SameSaysSame(n, own, c, d, rowLabels);
    } else {
      NarrowedAdmits(n, c, d, rowLabels);
    }
  }

  lemma NarrowedAdmits(n: Naming, c: Condition, d: Condition, rowLabels: seq<string>)
    requires Narrowed(n, c, d)
    ensures Admits(n, c, rowLabels) ==> Admits(n, d, rowLabels)
  {
    if i :| 0 <= i < |d.values| && Listed(n, d.values[i], rowLabels) {
      assert d.values[i] in c.values;
    }
  }

  lemma EditsIdle(n: Naming, own: string, prefix: string, show: bool, cs: seq<Condition>,
                  edits: seq<Option<Condition>>)
    requires LightEdits(n, cs, edits) && Idle(n, own, prefix, show, cs)
    ensures Idle(n, own, prefix, show, Collect(edits))
  {
    hide LightEdit;
    hide LighterGroup;
    hide IdleGroup;
    hide GroupsOf;
    hide Collect;
    AllCameThrough(n, cs, edits, |cs|);
    assert cs[..|cs|] == cs && edits[..|cs|] == edits;
    var gs, hs := GroupsOf(cs), GroupsOf(Collect(edits));
    assert FromGroups(n, gs, hs);
    forall q | 0 <= q < |hs|
      ensures IdleGroup(n, own, prefix, show, hs[q])
    {
      assert HasOrigin(n, gs, hs[q]);
      var p :| 0 <= p < |gs| && LighterGroup(n, gs[p], hs[q]);
      LighterIdle(n, own, prefix, show, gs[p], hs[q]);
    }
  }

  // ----- pruning a settled filter -----

  function BlankedEdits(edits: seq<Option<Condition>>): (es: seq<Option<Condition>>)
    ensures |es| == |edits|
    ensures forall i :: 0 <= i < |es| ==> es[i] == if edits[i].None? then None else Some(Blanked(edits[i].value))
  {
    seq(|edits|, i requires 0 <= i < |edits| => if edits[i].None? then None else Some(Blanked(edits[i].value)))
  }

  lemma {:induction false} CollectBlanked(edits: seq<Option<Condition>>)
    ensures |Collect(BlankedEdits(edits))| == |Collect(edits)|
    ensures forall k :: 0 <= k < |Collect(edits)| ==> Collect(BlankedEdits(edits))[k] == Blanked(Collect(edits)[k])
  {
    if |edits| > 0 {
      CollectBlanked(edits[..|edits| - 1]);
      assert BlankedEdits(edits)[..|edits| - 1] == BlankedEdits(edits[..|edits| - 1]);
    }
  }

  lemma ReadBackIsUnled(edits: seq<Option<Condition>>)
    ensures ReadBack(Collect(edits)) == Unled(Collect(BlankedEdits(edits)))
  {
    CollectBlanked(edits);
  }

  lemma UnledIdle(n: Naming, own: string, prefix: string, show: bool, cs: seq<Condition>)
    requires Idle(n, own, prefix, show, cs)
    ensures Idle(n, own, prefix, show, Unled(cs))
  {
    hide Idle;
    hide IdleFrom;
    IdleIsFrom(n, own, prefix, show, cs);
    IdleIsFrom(n, own, prefix, show, Unled(cs));
    assert Unled(cs)[..|cs|] == Unled(cs);
    UnledAkin(cs);
    KinIdle(n, own, prefix, show, cs, Unled(cs), 0);
  }

  lemma UnledAkin(cs: seq<Condition>)
    ensures Akin(cs, Unled(cs))
  {
  }

  lemma NamedThere(cs: seq<Condition>, i: nat, v: string)
    requires i < |cs| && IsExclude(cs[i]) && v in cs[i].values
    ensures Names(cs, v)
  {
  }

  /** Whatever the removal changes holds a label of ours. */
  lemma ChangedIsOurs(n: Naming, cs: seq<Condition>, labels: seq<string>, i: nat)
    requires i < |cs| && RemoveEdit(n, cs, labels, i) != Some(cs[i]) && Clean(cs[i])
    requires IsExclude(cs[i]) ==> |cs[i].values| > 0
    requires forall v :: Names(cs, v) && Listed(n, v, labels) ==> n.ours(v)
    ensures IsExclude(cs[i]) && OursExclude(n, cs[i])
  {
    var c := cs[i];
    if forall v :: v in c.values ==> !Listed(n, v, labels) {
      ExactSeps(c);
      SurvivorsAll(c.values, PaddedSeps(c), InList(n, labels));
    } else {
      var v :| v in c.values && Listed(n, v, labels);
      NamedThere(cs, i, v);
      var j :| 0 <= j < |c.values| && c.values[j] == v;
    }
  }

  lemma RestOfOursOnly(n: Naming, c: Condition, drop: string -> bool)
    requires SaneNaming(n) && OursOnly(n, c) && IsExclude(c) && WithoutValues(c, drop).Some?
    ensures var d := WithoutValues(c, drop).value;
            OursExclude(n, d) && d.values != [""] && d.sep == c.sep && forall v :: v in d.values ==> v in c.values
  {
    SurvivorsMembers(c.values, PaddedSeps(c), drop);
    SurvivorsMembers(c.values, PaddedSeps(c), n.ours);
    var d := WithoutValues(c, drop).value;
    assert d.values[0] in d.values;
    assert forall v :: v in d.values ==> n.ours(v);
    assert d.values == [""] ==> "" in d.values;
  }

  lemma PipeBehind(cs: seq<Condition>, i: nat)
    requires 0 < i < |cs| && !Enforced(cs, i) && cs[i].sep == '&'
    ensures Regroups(cs, i)
  {
  }

  lemma VoidedEditLight(n: Naming, wanted: seq<string>, cs: seq<Condition>, labels: seq<string>, i: nat)
    requires SaneNaming(n) && Lodged(n, wanted, cs) && !LeadsVoided(n, cs) && i < |cs| && Unenforced(n, cs, i)
    requires cs[i].values != [""]
    ensures RemoveEdit(n, cs, labels, i).Some?
    ensures LightEdit(n, cs, i, Some(Blanked(RemoveEdit(n, cs, labels, i).value)))
  {
    OursUnlessMine(n, cs[i]);
    PipeBehind(cs, i);
    var rest := WithoutValues(cs[i], InList(n, labels));
    if rest.Some? {
      RestOfOursOnly(n, cs[i], InList(n, labels));
      assert Narrowed(n, cs[i], Blanked(rest.value));
    }
  }

  lemma EnforcedEditLight(n: Naming, cs: seq<Condition>, labels: seq<string>, i: nat)
    requires i < |cs| && Enforced(cs, i) && IsExclude(cs[i])
    ensures var e := RemoveEdit(n, cs, labels, i);
            LightEdit(n, cs, i, if e.None? then None else Some(Blanked(e.value)))
  {
    EnforcedAlone(cs, i);
    if RemoveEdit(n, cs, labels, i).Some? {
      RemoveKeepsSep(n, cs, labels, i);
    }
  }

  lemma PruneEditsLight(n: Naming, wanted: seq<string>, cs: seq<Condition>, labels: seq<string>)
    requires SaneNaming(n) && Plain(cs) && Lodged(n, wanted, cs) && !LeadsVoided(n, cs)
    requires forall i :: 0 <= i < |cs| && IsExclude(cs[i]) ==> |cs[i].values| > 0
    requires forall v :: Names(cs, v) && Listed(n, v, labels) ==> n.ours(v)
    ensures LightEdits(n, cs, BlankedEdits(RemoveEdits(n, cs, labels)))
  {
    hide Lodged;
    hide LeadsVoided;
    hide RemoveEdit;
    hide LightEdit;
    hide Names;
    hide Enforced;
    forall i | 0 <= i < |cs|
      ensures LightEdit(n, cs, i, BlankedEdits(RemoveEdits(n, cs, labels))[i])
    {
      var e := RemoveEdit(n, cs, labels, i);
      assert Clean(cs[i]);
      if e == Some(cs[i]) {
        SameEditLight(n, cs, i);
      } else {
        ChangedIsOurs(n, cs, labels, i);
        OursUnlessMine(n, cs[i]);
        if Enforced(cs, i) {
          EnforcedEditLight(n, cs, labels, i);
        } else {
          VoidedEditLight(n, wanted, cs, labels, i);
        }
      }
    }
  }

  lemma SameEditLight(n: Naming, cs: seq<Condition>, i: nat)
    requires i < |cs| && Clean(cs[i])
    ensures LightEdit(n, cs, i, Some(Blanked(cs[i])))
  {
  }

  /** Taking out labels of ours leaves a settled filter with nothing to admit or take out. */
  lemma PrunedStaysIdle(n: Naming, wanted: seq<string>, row: OwnRow, cs: seq<Condition>, labels: seq<string>)
    requires SaneNaming(n) && Plain(cs) && Quiescent(n, wanted, row, cs)
    requires forall i :: 0 <= i < |cs| && IsExclude(cs[i]) ==> |cs[i].values| > 0
    requires forall v :: Names(cs, v) && Listed(n, v, labels) ==> n.ours(v)
    ensures IdleFor(n, row, ReadBack(Removed(n, cs, labels)))
  {
    hide Idle;
    hide Plain;
    hide Lodged;
    hide LeadsVoided;
    hide LightEdits;
    hide Names;
    hide Collect;
    hide Unled;
    PruneEditsLight(n, wanted, cs, labels);
    ReadBackIsUnled(RemoveEdits(n, cs, labels));
    if row.own.Some? {
      var edits := BlankedEdits(RemoveEdits(n, cs, labels));
      EditsIdle(n, row.own.value, row.prefix, row.show, cs, edits);
      UnledIdle(n, row.own.value, row.prefix, row.show, Collect(edits));
    }
  }

  // ----- a synced field -----

  /** What is pruned comes out of the filter cleanly: each of its excludes names something, in spellings the code
      recognises. */
  ghost predicate PrunesCleanly(k: Codec, current: string, pruned: seq<string>) {
    pruned == [] || (Tidy(current) && AllRecognised(k, current, pruned))
  }

  lemma SettledPlan(n: Naming, current: string, wanted: seq<string>, row: OwnRow)
    requires ShortlistLabels(n, wanted) && SaneNaming(n) && PlannableRow(n, row) && Readable(current)
    requires Passes(n, wanted, row, ParseFilter(current).value) <= PLAN_PASSES
    ensures Plan(n, current, wanted, row).Ok? && ParseFilter(Plan(n, current, wanted, row).value).Ok?
    ensures var cs := ParseFilter(Plan(n, current, wanted, row).value).value;
            Plain(cs) && Quiescent(n, wanted, row, cs)
  {
    hide Passes;
    hide Quiescent;
    hide Plan;
    hide Plain;
    PlanRefusesOnlyUnreadable(n, current, wanted, row);
    PlanAgain(n, current, wanted, row);
    PlanLeavesAlone(n, Plan(n, current, wanted, row).value, wanted, row);
    ReadablePlain(Plan(n, current, wanted, row).value);
  }

  lemma TidyNames(text: string)
    requires Tidy(text) && ParseFilter(text).Ok?
    ensures var cs := ParseFilter(text).value;
            forall i :: 0 <= i < |cs| && IsExclude(cs[i]) ==> |cs[i].values| > 0
  {
  }

  lemma PlannedTidy(n: Naming, current: string, wanted: seq<string>, row: OwnRow)
    requires ShortlistLabels(n, wanted) && SaneNaming(n) && PlannableRow(n, row) && Readable(current)
    requires Plan(n, current, wanted, row).Ok? && Tidy(current)
    ensures Tidy(Plan(n, current, wanted, row).value)
  {
    PlanTidy(n, PLAN_PASSES, current, wanted, row);
  }

  lemma SyncedFieldIdle(k: Codec, row: OwnRow, wanted: seq<string>, pruned: seq<string>, current: string)
    requires SaneNaming(NamingOf(k)) && ShortlistLabels(NamingOf(k), wanted) && PlannableRow(NamingOf(k), row)
    requires Readable(current) && PrunesCleanly(k, current, pruned)
    requires Passes(NamingOf(k), wanted, row, ParseFilter(current).value) <= PLAN_PASSES
    ensures SyncField(k, row, wanted, pruned, current).Planned?
    ensures ParseFilter(SyncField(k, row, wanted, pruned, current).text).Ok?
    ensures IdleFor(NamingOf(k), row, ParseFilter(SyncField(k, row, wanted, pruned, current).text).value)
  {
    hide Passes;
    hide Plan;
    hide Plain;
    hide ParseFilter;
    hide LiteralAmpersand;
    hide Removed;
    hide IdleFor;
    hide Lodged;
    hide LeadsVoided;
    hide ShortlistLabels;
    hide SaneNaming;
    hide Names;
    hide Tidy;
    hide AllRecognised;
    var n := NamingOf(k);
    SettledPlan(n, current, wanted, row);
    PlanRefusesOnlyUnreadable(n, current, wanted, row);
    var planned := Plan(n, current, wanted, row).value;
    var cs := ParseFilter(planned).value;
    if |pruned| > 0 {
      RemoveResult(n, planned, pruned);
      PlannedTidy(n, current, wanted, row);
      TidyNames(planned);
      forall v | Names(cs, v) && Listed(n, v, pruned)
        ensures n.ours(v)
      {
        PlannedNamesOurs(k, row, wanted, pruned, current, v);
      }
      PrunedStaysIdle(n, wanted, row, cs, pruned);
    }
  }

  // ----- a synced account -----

  /** The label of the row an account has, which the caller falls back on where the evidence names it blank. */
  ghost predicate HasRow(e: Evidence, rowLabel: Option<string>, own: string) {
    e.own.Some? && (if e.own.value == "" then rowLabel == Some(own) else e.own.value == own)
  }

  /** The account has no row, by an enumeration that would have found it. */
  ghost predicate RowGone(e: Evidence, rowLabel: Option<string>, own: string) {
    e.own.None? && e.collectionsKnown && rowLabel == Some(own)
  }

  /** There is no label to let in, or the enumeration is incomplete and the row not known to have gone. */
  ghost predicate RowUnknown(e: Evidence, rowLabel: Option<string>) {
    if e.own.None? then !e.collectionsKnown || rowLabel.None? else e.own.value == "" && rowLabel.None?
  }

  ghost predicate Settles(k: Codec, wanted: seq<string>, own: string, show: bool, current: string) {
    ParseFilter(current).Ok? &&
    Passes(NamingOf(k), wanted, OwnRow(Some(own), k.prefix, show), ParseFilter(current).value) <= PLAN_PASSES
  }

  /** An account that has a row sees it: every group of a field's filter with an allow condition of the owner's lets
      the row through. */
  lemma OwnRowGoesIn(k: Codec, isOwner: bool, remote: Option<Remote>, e: Evidence, rowLabel: Option<string>,
                     wanted: seq<string>, pruned: seq<string>, field: Field, own: string)
    requires SaneNaming(NamingOf(k)) && ShortlistLabels(NamingOf(k), wanted) && OwnLabel(NamingOf(k), own)
    requires HasRow(e, rowLabel, own)
    requires SyncAccount(k, isOwner, remote, e, rowLabel, wanted, pruned).Synced?
    requires SyncAccount(k, isOwner, remote, e, rowLabel, wanted, pruned).At(field).Planned?
    requires remote.Some? && PrunesCleanly(k, remote.value.filters.At(field), pruned)
    requires Settles(k, wanted, own, true, remote.value.filters.At(field))
    ensures var text := SyncAccount(k, isOwner, remote, e, rowLabel, wanted, pruned).At(field).text;
            ParseFilter(text).Ok? && OwnRowAllowed(NamingOf(k), own, k.prefix, ParseFilter(text).value)
  {
    hide SyncAccount;
    hide SyncField;
    hide Passes;
    hide SaneNaming;
    hide ShortlistLabels;
    hide OwnLabel;
    hide PrunesCleanly;
    hide Idle;
    hide OwnRowAllowed;
    var row, current := OwnRow(Some(own), k.prefix, true), remote.value.filters.At(field);
    SyncedField(k, isOwner, remote, e, rowLabel, wanted, pruned, field);
    PlannedReadable(k, row, wanted, pruned, current);
    SyncedFieldIdle(k, row, wanted, pruned, current);
    IdleAllowed(NamingOf(k), row, ParseFilter(SyncField(k, row, wanted, pruned, current).text).value);
  }

  /** Where nothing is pruned, the row is let through unless the plan is one pass short with the missing pass the one
      that would let it in. */
  lemma OwnRowGoesInExactly(k: Codec, isOwner: bool, remote: Option<Remote>, e: Evidence, rowLabel: Option<string>,
                            wanted: seq<string>, field: Field, own: string)
    requires SaneNaming(NamingOf(k)) && ShortlistLabels(NamingOf(k), wanted) && OwnLabel(NamingOf(k), own)
    requires HasRow(e, rowLabel, own)
    requires SyncAccount(k, isOwner, remote, e, rowLabel, wanted, []).Synced? && remote.Some?
    requires SyncAccount(k, isOwner, remote, e, rowLabel, wanted, []).At(field).Planned?
    ensures ParseFilter(remote.value.filters.At(field)).Ok?
    ensures var text, row := SyncAccount(k, isOwner, remote, e, rowLabel, wanted, []).At(field).text,
                             OwnRow(Some(own), k.prefix, true);
            var cs := ParseFilter(remote.value.filters.At(field)).value;
            && ParseFilter(text).Ok?
            && (OwnRowAllowed(NamingOf(k), own, k.prefix, ParseFilter(text).value) <==>
                !(Passes(NamingOf(k), wanted, row, cs) == PLAN_PASSES + 1 && LastAdmits(NamingOf(k), wanted, row, cs)))
  {
    hide SyncAccount;
    hide Passes;
    hide LastAdmits;
    hide SaneNaming;
    hide ShortlistLabels;
    hide OwnLabel;
    hide OwnRowAllowed;
    hide ParseFilter;
    hide PlanFrom;
    var row, current := OwnRow(Some(own), k.prefix, true), remote.value.filters.At(field);
    SyncedField(k, isOwner, remote, e, rowLabel, wanted, [], field);
    PlannedReadable(k, row, wanted, [], current);
    ReadableParses(current);
    PlanLetsOwnRowPass(NamingOf(k), PLAN_PASSES, current, wanted, row);
  }

  /** The label of a row that has gone comes out: a `label=` clause names it only where it names nothing else and an
      exclude of ours in its group holds it back. */
  lemma GoneRowComesOut(k: Codec, isOwner: bool, remote: Option<Remote>, e: Evidence, rowLabel: Option<string>,
                        wanted: seq<string>, pruned: seq<string>, field: Field, own: string)
    requires SaneNaming(NamingOf(k)) && ShortlistLabels(NamingOf(k), wanted) && OwnLabel(NamingOf(k), own)
    requires RowGone(e, rowLabel, own)
    requires SyncAccount(k, isOwner, remote, e, rowLabel, wanted, pruned).Synced?
    requires SyncAccount(k, isOwner, remote, e, rowLabel, wanted, pruned).At(field).Planned?
    requires remote.Some? && PrunesCleanly(k, remote.value.filters.At(field), pruned)
    requires Settles(k, wanted, own, false, remote.value.filters.At(field))
    ensures var text := SyncAccount(k, isOwner, remote, e, rowLabel, wanted, pruned).At(field).text;
            && ParseFilter(text).Ok?
            && forall q, i :: 0 <= q < |GroupsOf(ParseFilter(text).value)|
                              && 0 <= i < |GroupsOf(ParseFilter(text).value)[q]| ==>
                 var g := GroupsOf(ParseFilter(text).value)[q];
                 IsLabelAllow(g[i]) ==>
                   NamesOthers(NamingOf(k), own, g[i])
                   || (AllMine(NamingOf(k), own, g[i]) && AnyOursExclude(NamingOf(k), g))
  {
    hide SyncAccount;
    hide SyncField;
    hide Passes;
    hide SaneNaming;
    hide ShortlistLabels;
    hide OwnLabel;
    hide PrunesCleanly;
    hide GroupsOf;
    hide NamesOthers;
    hide AllMine;
    hide AnyOursExclude;
    hide ParseFilter;
    hide IsLabelAllow;
    var row, current := OwnRow(Some(own), k.prefix, false), remote.value.filters.At(field);
    SyncedField(k, isOwner, remote, e, rowLabel, wanted, pruned, field);
    PlannedReadable(k, row, wanted, pruned, current);
    SyncedFieldIdle(k, row, wanted, pruned, current);
    var cs := ParseFilter(SyncField(k, row, wanted, pruned, current).text).value;
    forall q, i | 0 <= q < |GroupsOf(cs)| && 0 <= i < |GroupsOf(cs)[q]| && IsLabelAllow(GroupsOf(cs)[q][i])
      ensures NamesOthers(NamingOf(k), own, GroupsOf(cs)[q][i])
              || (AllMine(NamingOf(k), own, GroupsOf(cs)[q][i]) && AnyOursExclude(NamingOf(k), GroupsOf(cs)[q]))
    {
      assert IdleGroup(NamingOf(k), own, k.prefix, false, GroupsOf(cs)[q]);
    }
  }

  // ----- where nothing is let in or taken out -----

  /** The conditions of a filter that are not label excludes, without the separators that join them. */
  function OtherConditions(cs: seq<Condition>): seq<Condition> {
    if |cs| == 0 then []
    else
      var c := cs[|cs| - 1];
      OtherConditions(cs[..|cs| - 1]) + (if IsExclude(c) then [] else [c.(sep := '|')])
  }

  lemma OthersSnoc(cs: seq<Condition>, c: Condition)
    ensures OtherConditions(cs + [c]) == OtherConditions(cs) + (if IsExclude(c) then [] else [c.(sep := '|')])
  {
    assert (cs + [c])[..|cs|] == cs;
  }

  /** Editing excludes alone leaves the other conditions. */
  ghost predicate ExcludesAlone(cs: seq<Condition>, edits: seq<Option<Condition>>) {
    |edits| == |cs| && forall i :: 0 <= i < |cs| ==>
      if IsExclude(cs[i]) then edits[i].Some? ==> IsExclude(edits[i].value) else edits[i] == Some(cs[i])
  }

  lemma {:induction false} OthersKept(cs: seq<Condition>, edits: seq<Option<Condition>>)
    requires ExcludesAlone(cs, edits)
    ensures OtherConditions(Collect(edits)) == OtherConditions(cs)
  {
    if |cs| > 0 {
      var init, es := cs[..|cs| - 1], edits[..|cs| - 1];
      OthersKept(init, es);
      if edits[|cs| - 1].Some? {
        OthersSnoc(Collect(es), edits[|cs| - 1].value);
      } else {
        assert Collect(es) + [] == Collect(es);
      }
    }
  }

  lemma {:induction false} SameOthers(cs: seq<Condition>, ds: seq<Condition>)
    requires |cs| == |ds|
    requires forall i :: 0 <= i < |cs| ==>
               if IsExclude(cs[i]) then IsExclude(ds[i]) else ds[i].(sep := '|') == cs[i].(sep := '|')
    ensures OtherConditions(ds) == OtherConditions(cs)
  {
    if |cs| > 0 {
      SameOthers(cs[..|cs| - 1], ds[..|cs| - 1]);
    }
  }

  lemma LiftKeepsOthers(n: Naming, cs: seq<Condition>)
    ensures OtherConditions(Lifted(n, cs)) == OtherConditions(cs)
  {
    forall i | 0 <= i < |cs|
      ensures if IsExclude(cs[i]) then LiftEdit(n, cs, i).Some? ==> IsExclude(LiftEdit(n, cs, i).value)
              else LiftEdit(n, cs, i) == Some(cs[i])
    {
    }
    OthersKept(cs, LiftEdits(n, cs));
  }

  lemma RemoveKeepsOthers(n: Naming, cs: seq<Condition>, labels: seq<string>)
    ensures OtherConditions(Removed(n, cs, labels)) == OtherConditions(cs)
  {
    forall i | 0 <= i < |cs|
      ensures var e := RemoveEdit(n, cs, labels, i);
              if IsExclude(cs[i]) then e.Some? ==> IsExclude(e.value) else e == Some(cs[i])
    {
    }
    OthersKept(cs, RemoveEdits(n, cs, labels));
  }

  lemma PlaceKeepsOthers(cs: seq<Condition>, missing: seq<string>, valueSep: string)
    requires |missing| > 0
    ensures OtherConditions(Place(cs, missing, valueSep)) == OtherConditions(cs)
  {
    hide Grow;
    var t := FirstTarget(cs, 0);
    if t < |cs| {
      GrowIsExclude(cs[t], missing, valueSep);
      SameOthers(cs, Place(cs, missing, valueSep));
    } else {
      OthersSnoc(cs, Condition("label", IsNot, missing, '&', Fill(valueSep, |missing| - 1)));
    }
  }

  lemma GrowIsExclude(c: Condition, missing: seq<string>, valueSep: string)
    requires |missing| > 0 && IsExclude(c)
    ensures IsExclude(Grow(c, missing, valueSep))
  {
  }

  ghost predicate OthersUnblanked(cs: seq<Condition>) {
    forall c :: c in OtherConditions(cs) ==> c.values != [""]
  }

  lemma {:induction false} OthersMember(cs: seq<Condition>, i: nat)
    requires i < |cs| && !IsExclude(cs[i])
    ensures cs[i].(sep := '|') in OtherConditions(cs)
  {
    if i < |cs| - 1 {
      OthersMember(cs[..|cs| - 1], i);
    }
  }

  lemma ReadBackKeepsOthers(cs: seq<Condition>)
    requires OthersUnblanked(cs)
    ensures OtherConditions(ReadBack(cs)) == OtherConditions(cs)
  {
    forall i | 0 <= i < |cs|
      ensures if IsExclude(cs[i]) then IsExclude(ReadBack(cs)[i])
              else ReadBack(cs)[i].(sep := '|') == cs[i].(sep := '|')
    {
      if !IsExclude(cs[i]) {
        OthersMember(cs, i);
      }
    }
    SameOthers(cs, ReadBack(cs));
  }

  lemma {:induction false} PlainUnblanked(cs: seq<Condition>)
    requires forall i :: 0 <= i < |cs| ==> cs[i].values != [""]
    ensures OthersUnblanked(cs)
  {
    if |cs| > 0 {
      PlainUnblanked(cs[..|cs| - 1]);
    }
  }

  lemma MergeKeepsOthers(n: Naming, wanted: seq<string>, cs: seq<Condition>)
    requires Plain(cs)
    ensures OtherConditions(MergeFor(n, wanted, cs)) == OtherConditions(cs)
  {
    hide Lifted;
    hide Place;
    hide OtherConditions;
    assert forall i :: 0 <= i < |cs| ==> Clean(cs[i]);
    PlainUnblanked(cs);
    LiftKeepsOthers(n, cs);
    var missing := Missing(n, Wanted(n, cs, wanted), Lifted(n, cs));
    if |missing| > 0 {
      PlaceKeepsOthers(Lifted(n, cs), missing, HouseValueSep(cs));
    }
    ReadBackKeepsOthers(MergedConditions(n, cs, wanted));
  }

  lemma NothingAdmitted(n: Naming, row: OwnRow, cs: seq<Condition>)
    requires row.own.None?
    ensures AdmitFor(n, row, cs) == cs
  {
  }

  lemma {:induction false} PassesKeepOthers(n: Naming, wanted: seq<string>, row: OwnRow, passes: nat,
                                            cs: seq<Condition>)
    requires ShortlistLabels(n, wanted) && SaneNaming(n) && row.own.None? && Plain(cs)
    ensures OtherConditions(Passed(n, wanted, row, passes, cs)) == OtherConditions(cs)
    decreases passes
  {
    hide MergeFor;
    hide Plain;
    hide AdmitFor;
    hide SaneNaming;
    hide ShortlistLabels;
    hide OtherConditions;
    if passes > 0 {
      NothingAdmitted(n, row, cs);
      MergeKeepsOthers(n, wanted, cs);
      MergeForPlain(n, wanted, cs);
      PassesKeepOthers(n, wanted, row, passes - 1, MergeFor(n, wanted, cs));
    }
  }

  lemma FieldKeepsOthers(k: Codec, row: OwnRow, wanted: seq<string>, pruned: seq<string>, current: string)
    requires SaneNaming(NamingOf(k)) && ShortlistLabels(NamingOf(k), wanted) && row.own.None? && Readable(current)
    ensures SyncField(k, row, wanted, pruned, current).Planned?
    ensures ParseFilter(SyncField(k, row, wanted, pruned, current).text).Ok?
    ensures OtherConditions(ParseFilter(SyncField(k, row, wanted, pruned, current).text).value) ==
            OtherConditions(ParseFilter(current).value)
  {
    hide ParseFilter;
    hide LiteralAmpersand;
    hide PlanFrom;
    hide Passed;
    hide Plain;
    hide Removed;
    hide ShortlistLabels;
    hide SaneNaming;
    hide OtherConditions;
    var n := NamingOf(k);
    ReadablePlain(current);
    var cs := ParseFilter(current).value;
    PlanText(n, wanted, row, PLAN_PASSES, cs);
    PassesKeepOthers(n, wanted, row, PLAN_PASSES, cs);
    var ds := Passed(n, wanted, row, PLAN_PASSES, cs);
    PlainReads(ds);
    if |pruned| > 0 {
      RemoveResult(n, Serialize(ds), pruned);
      RemoveKeepsOthers(n, ds, pruned);
      RemovedUnblanked(n, ds, pruned);
      ReadBackKeepsOthers(Removed(n, ds, pruned));
    }
  }

  lemma PlainReads(cs: seq<Condition>)
    requires Plain(cs)
    ensures ParseFilter(Serialize(cs)) == Ok(cs) && !LiteralAmpersand(cs)
  {
    PlainSeps(cs);
  }

  lemma RemovedUnblanked(n: Naming, cs: seq<Condition>, labels: seq<string>)
    requires Plain(cs)
    ensures OthersUnblanked(Removed(n, cs, labels))
  {
    hide OtherConditions;
    hide Removed;
    assert forall i :: 0 <= i < |cs| ==> Clean(cs[i]);
    PlainUnblanked(cs);
    RemoveKeepsOthers(n, cs, labels);
  }

  /** With no label to let in, or a row not known to have gone, the field keeps every condition but its excludes: no
      allow list changes. */
  lemma AllowListsStay(k: Codec, isOwner: bool, remote: Option<Remote>, e: Evidence, rowLabel: Option<string>,
                       wanted: seq<string>, pruned: seq<string>, field: Field)
    requires SaneNaming(NamingOf(k)) && ShortlistLabels(NamingOf(k), wanted) && RowUnknown(e, rowLabel)
    requires SyncAccount(k, isOwner, remote, e, rowLabel, wanted, pruned).Synced? && remote.Some?
    requires SyncAccount(k, isOwner, remote, e, rowLabel, wanted, pruned).At(field).Planned?
    ensures var text, current := SyncAccount(k, isOwner, remote, e, rowLabel, wanted, pruned).At(field).text,
                                 remote.value.filters.At(field);
            && ParseFilter(text).Ok? && ParseFilter(current).Ok?
            && OtherConditions(ParseFilter(text).value) == OtherConditions(ParseFilter(current).value)
  {
    hide SyncAccount;
    hide SyncField;
    hide SaneNaming;
    hide ShortlistLabels;
    hide OtherConditions;
    hide ParseFilter;
    var row, current := OwnRow(None, k.prefix, e.own.Some?), remote.value.filters.At(field);
    SyncedField(k, isOwner, remote, e, rowLabel, wanted, pruned, field);
    PlannedReadable(k, row, wanted, pruned, current);
    FieldKeepsOthers(k, row, wanted, pruned, current);
  }
}
