/** What a share filter shows, under the two groupings of `|` and `&` that recordings of a real Plex server leave
    open: strictly left to right, or `|` binding tighter than `&`. */
module FilterSemantics {
  import opened Options
  import opened FilterText
  import opened ShareFilter

  // ----- joined truth values -----

  /** One condition's truth on an item, and whether `&` (rather than `|`) joins it to what comes before. */
  datatype Term = Term(conj: bool, holds: bool)

  datatype Grouping = LeftToRight | PipeFirst

  function Strict(ts: seq<Term>): bool {
    if |ts| == 0 then true
    else if |ts| == 1 then ts[0].holds
    else
      var last := ts[|ts| - 1];
      if last.conj then Strict(ts[..|ts| - 1]) && last.holds else Strict(ts[..|ts| - 1]) || last.holds
  }

  /** Whether every finished `&`-group held, and whether the group still being read does. */
  datatype Progress = Progress(closed: bool, current: bool)

  function Grouped(ts: seq<Term>): Progress {
    if |ts| == 0 then Progress(true, true)
    else
      var last := ts[|ts| - 1];
      var p := Grouped(ts[..|ts| - 1]);
      if |ts| == 1 then Progress(true, last.holds)
      else if last.conj then Progress(p.closed && p.current, last.holds)
      else Progress(p.closed, p.current || last.holds)
  }

  predicate Eval(g: Grouping, ts: seq<Term>) {
    match g
    case LeftToRight => Strict(ts)
    case PipeFirst => Grouped(ts).closed && Grouped(ts).current
  }

  /** No `|` joins term `i` or anything after it. */
  ghost predicate EnforcedTerm(ts: seq<Term>, i: nat) {
    forall j :: i <= j < |ts| && j > 0 ==> ts[j].conj
  }

  lemma {:induction false} EnforcedTermVetoes(g: Grouping, ts: seq<Term>, i: nat)
    requires i < |ts| && EnforcedTerm(ts, i) && !ts[i].holds
    ensures !Eval(g, ts)
  {
    if i < |ts| - 1 {
      var init := ts[..|ts| - 1];
      assert forall j :: 0 <= j < |init| ==> init[j] == ts[j];
      EnforcedTermVetoes(g, init, i);
    }
  }

  /** Everything true except term `i`. */
  function AllBut(ts: seq<Term>, i: nat): (us: seq<Term>)
    ensures |us| == |ts|
    ensures forall j :: 0 <= j < |us| ==> us[j] == Term(ts[j].conj, j != i)
  {
    seq(|ts|, j requires 0 <= j < |ts| => Term(ts[j].conj, j != i))
  }

  lemma {:induction false} UnenforcedCanPass(ts: seq<Term>, i: nat)
    requires i < |ts|
    ensures Strict(AllBut(ts, i)) <==> !EnforcedTerm(ts, i)
  {
    var us := AllBut(ts, i);
    if EnforcedTerm(ts, i) {
      assert EnforcedTerm(us, i);
      EnforcedTermVetoes(LeftToRight, us, i);
    } else {
      var init := ts[..|ts| - 1];
      assert us[..|us| - 1] == AllBut(init, i);
      if i == |ts| - 1 {
        if i > 0 {
          AllTruePasses(us[..|us| - 1]);
        }
      } else if ts[|ts| - 1].conj {
        assert !EnforcedTerm(init, i);
        UnenforcedCanPass(init, i);
      }
    }
  }

  lemma {:induction false} AllTruePasses(ts: seq<Term>)
    requires forall i :: 0 <= i < |ts| ==> ts[i].holds
    ensures Strict(ts)
  {
    if |ts| > 0 {
      AllTruePasses(ts[..|ts| - 1]);
    }
  }

  /** The first term's separator joins it to nothing. */
  lemma {:induction false} FirstSeparatorIrrelevant(ts: seq<Term>, us: seq<Term>)
    requires |ts| == |us|
    requires forall i :: 0 <= i < |ts| ==> ts[i].holds == us[i].holds
    requires forall i :: 1 <= i < |ts| ==> ts[i].conj == us[i].conj
    ensures Strict(ts) == Strict(us) && Grouped(ts) == Grouped(us)
  {
    if |ts| > 0 {
      FirstSeparatorIrrelevant(ts[..|ts| - 1], us[..|us| - 1]);
    }
  }

  /** ANDing on something true changes nothing. */
  lemma AppendTrue(g: Grouping, ts: seq<Term>)
    ensures Eval(g, ts + [Term(true, true)]) == Eval(g, ts)
  {
    assert (ts + [Term(true, true)])[..|ts|] == ts;
  }

  // ----- dropping and weakening terms -----

  function Collect<T>(edits: seq<Option<T>>): (kept: seq<T>)
    ensures |kept| <= |edits|
  {
    if |edits| == 0 then []
    else
      var last := edits[|edits| - 1];
      Collect(edits[..|edits| - 1]) + (if last.Some? then [last.value] else [])
  }

  lemma CollectLast<T>(edits: seq<Option<T>>)
    requires |edits| > 0
    ensures var kept, all := Collect(edits[..|edits| - 1]), Collect(edits);
            match edits[|edits| - 1]
            case None => all == kept
            case Some(t) => |all| == |kept| + 1 && all[|kept|] == t && all[..|kept|] == kept
  {
  }

  /** Where a true term can go without regrouping the others: first, after `|`, or with no `|` behind it. */
  ghost predicate Droppable(ts: seq<Term>, i: nat) {
    i < |ts| && (i == 0 || !ts[i].conj || forall j :: i < j < |ts| ==> ts[j].conj)
  }

  ghost predicate Tightens(ts: seq<Term>, edits: seq<Option<Term>>) {
    && |edits| == |ts|
    && forall i :: 0 <= i < |ts| ==>
         match edits[i]
         case Some(t) => t.conj == ts[i].conj && (t.holds ==> ts[i].holds)
         case None => ts[i].holds && Droppable(ts, i)
  }

  lemma TightensInit(ts: seq<Term>, edits: seq<Option<Term>>)
    requires |ts| > 0 && Tightens(ts, edits)
    ensures Tightens(ts[..|ts| - 1], edits[..|edits| - 1])
  {
    var us, es := ts[..|ts| - 1], edits[..|edits| - 1];
    forall i | 0 <= i < |us|
      ensures match es[i]
              case Some(t) => t.conj == us[i].conj && (t.holds ==> us[i].holds)
              case None => us[i].holds && Droppable(us, i)
    {
      assert es[i] == edits[i] && us[i] == ts[i];
      if es[i].None? {
        assert Droppable(ts, i);
      }
    }
  }

  lemma {:induction false} TightenStrict(ts: seq<Term>, edits: seq<Option<Term>>)
    requires Tightens(ts, edits)
    ensures Strict(Collect(edits)) ==> Strict(ts)
  {
    if |ts| > 0 {
      TightensInit(ts, edits);
      TightenStrict(ts[..|ts| - 1], edits[..|edits| - 1]);
      CollectLast(edits);
      assert edits[|ts| - 1].Some? || ts[|ts| - 1].holds;
    }
  }

  /** Whether a term joined by `&` behind the first has been dropped; from there on every separator is `&`. */
  ghost predicate TailDropped(ts: seq<Term>, edits: seq<Option<Term>>)
    requires |ts| == |edits|
  {
    exists i :: 0 < i < |ts| && ts[i].conj && edits[i].None?
  }

  /** What dropping keeps true of the groups read so far. */
  ghost predicate GroupedTightly(ts: seq<Term>, edits: seq<Option<Term>>)
    requires |ts| == |edits|
  {
    var p, q := Grouped(ts), Grouped(Collect(edits));
    && (q.closed && q.current ==> p.closed && p.current)
    && (!TailDropped(ts, edits) ==> (q.closed ==> p.closed) && (q.current ==> p.current))
  }

  lemma GroupedSnoc(ts: seq<Term>, t: Term)
    ensures Grouped(ts + [t]) == if |ts| == 0 then Progress(true, t.holds)
                                 else if t.conj then Progress(Grouped(ts).closed && Grouped(ts).current, t.holds)
                                 else Progress(Grouped(ts).closed, Grouped(ts).current || t.holds)
  {
    assert (ts + [t])[..|ts|] == ts;
  }

  lemma CollectSnoc<T>(edits: seq<Option<T>>, e: Option<T>)
    ensures Collect(edits + [e]) == Collect(edits) + (if e.Some? then [e.value] else [])
  {
    assert (edits + [e])[..|edits|] == edits;
  }

  lemma TightenGroupedStep(ts: seq<Term>, edits: seq<Option<Term>>, t: Term, e: Option<Term>)
    requires |ts| == |edits| && GroupedTightly(ts, edits)
    requires match e
             case Some(u) => u.conj == t.conj && (u.holds ==> t.holds)
             case None => t.holds
    requires |Collect(edits)| == 0 ==> Grouped(ts).closed && Grouped(ts).current
    requires TailDropped(ts, edits) ==> t.conj
    requires TailDropped(ts + [t], edits + [e]) <==> TailDropped(ts, edits) || (|ts| > 0 && t.conj && e.None?)
    ensures GroupedTightly(ts + [t], edits + [e])
    ensures |Collect(edits + [e])| == 0 ==> Grouped(ts + [t]).closed && Grouped(ts + [t]).current
  {
    GroupedSnoc(ts, t);
    CollectSnoc(edits, e);
    if e.Some? {
      GroupedSnoc(Collect(edits), e.value);
    } else {
      assert Collect(edits + [e]) == Collect(edits);
    }
  }

  lemma {:induction false} TightenGrouped(ts: seq<Term>, edits: seq<Option<Term>>)
    requires Tightens(ts, edits)
    ensures GroupedTightly(ts, edits)
    ensures |Collect(edits)| == 0 ==> Grouped(ts).closed && Grouped(ts).current
  {
    if |ts| > 0 {
      var k := |ts| - 1;
      TightensInit(ts, edits);
      TightenGrouped(ts[..k], edits[..k]);
      TailDroppedInit(ts, edits);
      if TailDropped(ts[..k], edits[..k]) {
        TailForcesConj(ts, edits);
      }
      SplitLast(ts);
      SplitLast(edits);
      assert edits[k].Some? || ts[k].holds;
      TightenGroupedStep(ts[..k], edits[..k], ts[k], edits[k]);
    }
  }

  lemma TailDroppedInit(ts: seq<Term>, edits: seq<Option<Term>>)
    requires 0 < |ts| == |edits|
    ensures TailDropped(ts, edits) <==>
            || TailDropped(ts[..|ts| - 1], edits[..|ts| - 1])
            || (|ts| > 1 && ts[|ts| - 1].conj && edits[|ts| - 1].None?)
  {
    var us, es := ts[..|ts| - 1], edits[..|ts| - 1];
    if TailDropped(us, es) {
      var i :| 0 < i < |us| && us[i].conj && es[i].None?;
      assert ts[i].conj && edits[i].None?;
    }
  }

  lemma TailForcesConj(ts: seq<Term>, edits: seq<Option<Term>>)
    requires |ts| > 0 && Tightens(ts, edits)
    requires TailDropped(ts[..|ts| - 1], edits[..|ts| - 1])
    ensures ts[|ts| - 1].conj
  {
    var us, es := ts[..|ts| - 1], edits[..|ts| - 1];
    var i :| 0 < i < |us| && us[i].conj && es[i].None?;
    assert edits[i].None? && Droppable(ts, i);
  }

  /** Dropping true terms where they can go, and weakening none of the others, never lets more through. */
  lemma TightenNeverShowsMore(g: Grouping, ts: seq<Term>, edits: seq<Option<Term>>)
    requires Tightens(ts, edits)
    ensures Eval(g, Collect(edits)) ==> Eval(g, ts)
  {
    TightenStrict(ts, edits);
    TightenGrouped(ts, edits);
  }

  // ----- items and conditions -----

  /** How label text is compared: `norm` decodes and case-folds, `ours` spots a label with Shortlist's prefix. */
  datatype Naming = Naming(norm: string -> string, ours: string -> bool)

  predicate SameValue(n: Naming, a: string, b: string) {
    n.norm(a) == n.norm(b)
  }

  /** The normalised tags of one library item or collection, per field: its labels, its content rating. */
  type Item = map<string, set<string>>

  function Tags(item: Item, field: string): set<string> {
    if field in item then item[field] else {}
  }

  predicate Hit(n: Naming, c: Condition, item: Item) {
    exists i :: 0 <= i < |c.values| && n.norm(c.values[i]) in Tags(item, c.field)
  }

  predicate Holds(n: Naming, c: Condition, item: Item) {
    match c.op
    case Is => Hit(n, c, item)
    case IsNot => !Hit(n, c, item)
  }

  function ToTerm(n: Naming, c: Condition, item: Item): Term {
    Term(c.sep == '&', Holds(n, c, item))
  }

  function Terms(n: Naming, cs: seq<Condition>, item: Item): (ts: seq<Term>)
    ensures |ts| == |cs|
    ensures forall i :: 0 <= i < |cs| ==> ts[i] == ToTerm(n, cs[i], item)
  {
    seq(|cs|, i requires 0 <= i < |cs| => ToTerm(n, cs[i], item))
  }

  /** Whether an account with this filter sees the item. */
  predicate Shows(g: Grouping, n: Naming, cs: seq<Condition>, item: Item) {
    Eval(g, Terms(n, cs, item))
  }

  ghost predicate CarriesLabel(n: Naming, item: Item, lbl: string) {
    n.norm(lbl) in Tags(item, "label")
  }

  // ----- enforced positions -----

  /** Condition `i` is ANDed with the whole filter. */
  predicate Enforced(cs: seq<Condition>, i: nat) {
    forall j :: i <= j < |cs| && j > 0 ==> cs[j].sep == '&'
  }

  predicate IsExclude(c: Condition) {
    c.field == "label" && c.op == IsNot
  }

  method EnforcedPositions(cs: seq<Condition>) returns (enforced: seq<bool>)
    ensures |enforced| == |cs|
    ensures forall i :: 0 <= i < |cs| ==> (enforced[i] <==> Enforced(cs, i))
  {
    enforced := seq(|cs|, _ => false);
    var restIsAnd := true;
    for i := |cs| downto 0
      invariant |enforced| == |cs|
      invariant restIsAnd <==> Enforced(cs, i)
      invariant forall k :: i <= k < |cs| ==> (enforced[k] <==> Enforced(cs, k))
    {
      var joinedByAnd := i == 0 || cs[i].sep == '&';
      enforced := enforced[i := restIsAnd && joinedByAnd];
      restIsAnd := restIsAnd && joinedByAnd;
    }
  }

  /** A condition in an enforced position that fails on an item hides it, whichever grouping Plex uses. */
  lemma EnforcedVetoes(g: Grouping, n: Naming, cs: seq<Condition>, i: nat, item: Item)
    requires i < |cs| && Enforced(cs, i) && !Holds(n, cs[i], item)
    ensures !Shows(g, n, cs, item)
  {
    EnforcedTermVetoes(g, Terms(n, cs, item), i);
  }

  /** The separators of a filter as terms, for arbitrary truth values. */
  function Shape(cs: seq<Condition>, truth: seq<bool>): (ts: seq<Term>)
    requires |truth| == |cs|
    ensures |ts| == |cs| && forall i :: 0 <= i < |cs| ==> ts[i] == Term(cs[i].sep == '&', truth[i])
  {
    seq(|cs|, i requires 0 <= i < |cs| => Term(cs[i].sep == '&', truth[i]))
  }

  /** Enforced positions are exactly those whose failure vetoes the filter under both groupings, whatever the
      other conditions say. */
  lemma EnforcedIsExact(cs: seq<Condition>, i: nat)
    requires i < |cs|
    ensures Enforced(cs, i) <==>
            forall g, truth: seq<bool> :: |truth| == |cs| && !truth[i] ==> !Eval(g, Shape(cs, truth))
  {
    if Enforced(cs, i) {
      forall g, truth: seq<bool> | |truth| == |cs| && !truth[i]
        ensures !Eval(g, Shape(cs, truth))
      {
        EnforcedTermVetoes(g, Shape(cs, truth), i);
      }
    } else {
      var truth := seq(|cs|, j => j != i);
      var ts := Shape(cs, truth);
      assert ts == AllBut(ts, i);
      assert !EnforcedTerm(ts, i) by {
        var j :| i <= j < |cs| && j > 0 && cs[j].sep != '&';
        assert !ts[j].conj;
      }
      UnenforcedCanPass(ts, i);
      assert Eval(LeftToRight, Shape(cs, truth));
    }
  }
}
