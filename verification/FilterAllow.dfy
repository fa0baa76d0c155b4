/** Letting an account whose owner set an "allow only" list see its own Shortlist rows, and taking that back. */
module FilterAllow {
  import opened Options
  import opened ShareFilter
  import opened FilterSemantics
  import opened FilterEdits
  import opened FilterGroups
  import opened FilterMerge

  // ----- what a condition says about the account's own rows -----

  predicate IsLabelAllow(c: Condition) {
    c.field == "label" && c.op == Is
  }

  predicate AllMine(n: Naming, own: string, c: Condition) {
    forall i :: 0 <= i < |c.values| ==> SameValue(n, c.values[i], own)
  }

  /** A `label=` clause naming nothing but the account's own row. */
  predicate OwnOnly(n: Naming, own: string, c: Condition) {
    IsLabelAllow(c) && AllMine(n, own, c)
  }

  predicate OwnersAllow(n: Naming, own: string, c: Condition) {
    c.op == Is && !AllMine(n, own, c)
  }

  predicate OursExclude(n: Naming, c: Condition) {
    IsExclude(c) && exists i :: 0 <= i < |c.values| && n.ours(c.values[i])
  }

  /** Whether the condition holds of a row: a collection with these labels and no other tags. */
  predicate Admits(n: Naming, c: Condition, rowLabels: seq<string>) {
    if c.field != "label" then c.op == IsNot
    else
      var hit := exists i :: 0 <= i < |c.values| && Listed(n, c.values[i], rowLabels);
      if c.op == Is then hit else !hit
  }

  predicate AnyOwnersAllow(n: Naming, own: string, g: seq<Condition>) {
    exists k :: 0 <= k < |g| && OwnersAllow(n, own, g[k])
  }

  predicate AnyOursExclude(n: Naming, g: seq<Condition>) {
    exists k :: 0 <= k < |g| && OursExclude(n, g[k])
  }

  predicate AnyAdmits(n: Naming, g: seq<Condition>, rowLabels: seq<string>) {
    exists k :: 0 <= k < |g| && Admits(n, g[k], rowLabels)
  }

  function MineIs(n: Naming, own: string): string -> bool {
    v => SameValue(n, v, own)
  }

  // ----- dropping one condition -----

  /** `cs` without condition `i`. A side of it that was `&` was a group boundary, so the gap it leaves stays one. */
  function DropCondition(cs: seq<Condition>, i: nat): seq<Condition>
    requires i < |cs|
  {
    var rest := cs[..i] + cs[i + 1..];
    if 0 < i < |cs| - 1 then
      rest[i := rest[i].(sep := if cs[i].sep == '&' || cs[i + 1].sep == '&' then '&' else '|')]
    else rest
  }

  function GroupLo(cs: seq<Condition>, i: nat): nat
    requires i < |cs|
  {
    if i == 0 || cs[i].sep == '&' then i else GroupLo(cs, i - 1)
  }

  function GroupHi(cs: seq<Condition>, i: nat): (hi: nat)
    requires i < |cs|
    ensures i < hi <= |cs|
    decreases |cs| - i
  {
    if i + 1 == |cs| || cs[i + 1].sep == '&' then i + 1 else GroupHi(cs, i + 1)
  }

  lemma GroupLoBelow(cs: seq<Condition>, i: nat)
    requires i < |cs|
    ensures GroupLo(cs, i) <= i
  {
  }

  /** Whether the group of condition `i` still holds one of our excludes behind a `|`. */
  predicate RepairPending(n: Naming, cs: seq<Condition>, i: nat)
    requires i < |cs|
  {
    GroupLoBelow(cs, i);
    var g := cs[GroupLo(cs, i)..GroupHi(cs, i)];
    |g| > 1 && AnyOursExclude(n, g)
  }

  /** A list whose first separator, which joins it to nothing, is the default one. */
  function Unled(cs: seq<Condition>): (us: seq<Condition>)
    ensures |us| == |cs|
  {
    if |cs| == 0 then [] else [cs[0].(sep := '|')] + cs[1..]
  }

  /** A group that lost its head keeps the separator it opened with. */
  function Refit(g: seq<Condition>, sep: char): (h: seq<Condition>)
    ensures |h| == |g|
  {
    if |g| == 0 then [] else g[0 := g[0].(sep := sep)]
  }

  // ----- what becomes of each group -----

  /** `g` from some point on, without the clauses that name only the own row, unless a repair is pending. */
  function Spare(n: Naming, own: string, pending: bool, g: seq<Condition>): (h: seq<Condition>)
    ensures |h| <= |g|
  {
    if |g| == 0 then []
    else (if OwnOnly(n, own, g[0]) && !pending then [] else [g[0]]) + Spare(n, own, pending, g[1..])
  }

  function DropGroup(n: Naming, own: string, g: seq<Condition>): seq<Condition>
    requires |g| > 0
  {
    if AnyOwnersAllow(n, own, g) then g else Refit(Spare(n, own, AnyOursExclude(n, g), g), g[0].sep)
  }

  function DropGroups(n: Naming, own: string, gs: seq<seq<Condition>>): seq<seq<Condition>>
    requires forall q :: 0 <= q < |gs| ==> |gs[q]| > 0
  {
    if |gs| == 0 then []
    else
      var d := DropGroup(n, own, gs[0]);
      (if |d| == 0 then [] else [d]) + DropGroups(n, own, gs[1..])
  }

  /** The first `label=` clause at or after `k`, or `|g|`. */
  function AllowClause(g: seq<Condition>, k: nat): (c: nat)
    requires k <= |g|
    ensures k <= c <= |g| && (c < |g| ==> IsLabelAllow(g[c]))
    ensures forall j :: k <= j < c ==> !IsLabelAllow(g[j])
    decreases |g| - k
  {
    if k == |g| || IsLabelAllow(g[k]) then k else AllowClause(g, k + 1)
  }

  /** The own row as one more alternative of a group that holds an allow condition of the owner's and hides it. */
  function AdmitGroup(n: Naming, own: string, prefix: string, valueSep: string, g: seq<Condition>): seq<Condition> {
    if AnyAdmits(n, g, [own, prefix]) || !AnyOwnersAllow(n, own, g) then g
    else
      var c := AllowClause(g, 0);
      if c < |g| then g[c := Grow(g[c], [own], valueSep)]
      else g + [Condition("label", Is, [own], '|', [])]
  }

  function AdmitGroups(n: Naming, own: string, prefix: string, valueSep: string, gs: seq<seq<Condition>>)
    : (hs: seq<seq<Condition>>)
    ensures |hs| == |gs|
    ensures forall q :: 0 <= q < |gs| ==> hs[q] == AdmitGroup(n, own, prefix, valueSep, gs[q])
  {
    seq(|gs|, q requires 0 <= q < |gs| => AdmitGroup(n, own, prefix, valueSep, gs[q]))
  }

  function HideEdit(n: Naming, own: string, pending: bool, c: Condition): Option<Condition> {
    if !IsLabelAllow(c) then Some(c)
    else
      var rest := WithoutValues(c, MineIs(n, own));
      if rest.Some? then rest else if pending then Some(c) else None
  }

  function HideEdits(n: Naming, own: string, g: seq<Condition>): (edits: seq<Option<Condition>>)
    ensures |edits| == |g|
    ensures forall k :: 0 <= k < |g| ==> edits[k] == HideEdit(n, own, AnyOursExclude(n, g), g[k])
  {
    seq(|g|, k requires 0 <= k < |g| => HideEdit(n, own, AnyOursExclude(n, g), g[k]))
  }

  function HideGroup(n: Naming, own: string, g: seq<Condition>): seq<Condition>
    requires |g| > 0
  {
    Refit(Collect(HideEdits(n, own, g)), g[0].sep)
  }

  function HideGroups(n: Naming, own: string, gs: seq<seq<Condition>>): seq<seq<Condition>>
    requires forall q :: 0 <= q < |gs| ==> |gs[q]| > 0
  {
    if |gs| == 0 then []
    else
      var h := HideGroup(n, own, gs[|gs| - 1]);
      HideGroups(n, own, gs[..|gs| - 1]) + (if |h| == 0 then [] else [h])
  }

  /** The groups of the filter that shows the own row. */
  function ShownGroups(n: Naming, own: string, prefix: string, cs: seq<Condition>): seq<seq<Condition>> {
    GroupsShape(cs);
    AdmitGroups(n, own, prefix, HouseValueSep(cs), DropGroups(n, own, GroupsOf(cs)))
  }

  function HiddenGroups(n: Naming, own: string, cs: seq<Condition>): seq<seq<Condition>> {
    GroupsShape(cs);
    HideGroups(n, own, GroupsOf(cs))
  }

  function AdmitConditions(n: Naming, own: string, prefix: string, show: bool, cs: seq<Condition>): seq<Condition> {
    Unled(Flatten(if show then ShownGroups(n, own, prefix, cs) else HiddenGroups(n, own, cs)))
  }

  function Admit(n: Naming, raw: string, own: string, prefix: string, show: bool): Result<string> {
    var parsed := ParseFilter(raw);
    if parsed.Err? then Err(Unparseable)
    else if LiteralAmpersand(parsed.value) then Err(Ambiguous)
    else Ok(Serialize(AdmitConditions(n, own, prefix, show, parsed.value)))
  }
}
