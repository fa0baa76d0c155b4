/** Which labels an account must not see, and which of our excludes its sync may take back out. */
module SyncPrune {
  import opened Options
  import opened ShareFilter
  import opened FilterSemantics

  /** How label text is read: URL-decoding, lower-casing and case-folding, and the two label prefixes. */
  datatype Codec = Codec(decode: string -> string, lower: string -> string, fold: string -> string,
                         prefix: string, sharedPrefix: string)

  function Norm(k: Codec, v: string): string {
    k.fold(k.decode(v))
  }

  predicate IsOurs(k: Codec, v: string) {
    k.lower(k.prefix + "_") <= k.lower(k.decode(v))
  }

  /** A label is ours exactly when its decoded, lower-cased text goes on from our prefix and an underscore. */
  lemma OursExactly(k: Codec, v: string)
    ensures IsOurs(k, v) <==> exists rest: string :: k.lower(k.decode(v)) == k.lower(k.prefix + "_") + rest
  {
    var start, text := k.lower(k.prefix + "_"), k.lower(k.decode(v));
    if start <= text {
      assert text == start + text[|start|..];
    }
  }

  /** How filters compare values under this codec. */
  function NamingOf(k: Codec): Naming {
    Naming((v: string) => Norm(k, v), (v: string) => IsOurs(k, v))
  }

  /** A label as Plex stores it for a row of ours: plain text, which decoding leaves alone and on which lower-casing
      and case-folding agree. */
  ghost predicate PlainLabel(k: Codec, lbl: string) {
    k.decode(lbl) == lbl && k.fold(lbl) == k.lower(lbl) && k.lower(k.lower(lbl)) == k.lower(lbl)
  }

  /** What the three text functions have in common on our labels. */
  ghost predicate Faithful(k: Codec) {
    && (forall a, b :: PlainLabel(k, b) && k.lower(a) == k.lower(b) ==> Norm(k, a) == Norm(k, b))
    && (forall a :: k.lower(k.sharedPrefix) <= k.lower(a) ==> k.lower(k.sharedPrefix) <= Norm(k, a))
  }

  // ----- what an account must not see -----

  /** The rows the owner configured as shared, by lower-cased label, with the accounts each is for; None is everyone. */
  type SharedRows = map<string, Option<set<int>>>

  /** Whether a configured shared row is one this account may see. */
  predicate MaySee(k: Codec, lbl: string, account: Option<int>, shared: SharedRows, hideAllShared: bool) {
    && k.lower(lbl) in shared && !hideAllShared
    && var audience := shared[k.lower(lbl)];
    audience.None? || (account.Some? && account.value in audience.value)
  }

  predicate IsOwn(k: Codec, lbl: string, own: Option<string>) {
    own.Some? && own.value != "" && k.lower(lbl) == k.lower(own.value)
  }

  /** A label stored on the server that the account must not see. */
  predicate MustExclude(k: Codec, lbl: string, own: Option<string>, account: Option<int>, shared: SharedRows,
                        hideAllShared: bool)
  {
    lbl != "" && !IsOwn(k, lbl, own) && !MaySee(k, lbl, account, shared, hideAllShared)
  }

  /** One turn of the loop over the stored labels: whether the label is passed over. */
  method PassesOver(k: Codec, lbl: string, own: Option<string>, account: Option<int>, shared: SharedRows,
                    hideAllShared: bool)
    returns (over: bool)
    ensures over == !MustExclude(k, lbl, own, account, shared, hideAllShared)
  {
    if lbl == "" {
      return true;
    }
    if own.Some? && own.value != "" && k.lower(lbl) == k.lower(own.value) {
      return true;
    }
    if k.lower(lbl) in shared && !hideAllShared {
      var audience := shared[k.lower(lbl)];
      if audience.None? {
        return true;
      }
      if account.Some? && account.value in audience.value {
        return true;
      }
    }
    over := false;
  }

  method DesiredExcludes(k: Codec, own: Option<string>, stored: map<string, string>, account: Option<int>,
                         shared: SharedRows, hideAllShared: bool)
    returns (excludes: set<string>)
    ensures excludes == Desired(k, own, stored, account, shared, hideAllShared)
    ensures forall lbl :: lbl in excludes <==>
              && lbl in stored.Values && lbl != ""
              && !(own.Some? && own.value != "" && k.lower(own.value) == k.lower(lbl))
              && (|| k.lower(lbl) !in shared || hideAllShared
                  || (shared[k.lower(lbl)].Some?
                      && (account.None? || account.value !in shared[k.lower(lbl)].value)))
  {
    hide IsOwn;
    hide MaySee;
    excludes := {};
    var pending := stored.Values;
    while pending != {}
      invariant pending <= stored.Values
      invariant forall lbl :: lbl in excludes <==>
                  lbl in stored.Values && lbl !in pending
                  && MustExclude(k, lbl, own, account, shared, hideAllShared)
      decreases |pending|
    {
      var lbl :| lbl in pending;
      pending := pending - {lbl};
      var over := PassesOver(k, lbl, own, account, shared, hideAllShared);
      if over {
        continue;
      }
      excludes := excludes + {lbl};
    }
    forall lbl
      ensures MustExclude(k, lbl, own, account, shared, hideAllShared) <==>
              && lbl != "" && !(own.Some? && own.value != "" && k.lower(own.value) == k.lower(lbl))
              && (|| k.lower(lbl) !in shared || hideAllShared
                  || (shared[k.lower(lbl)].Some?
                      && (account.None? || account.value !in shared[k.lower(lbl)].value)))
    {
      MustExcludeMeans(k, lbl, own, account, shared, hideAllShared);
    }
  }

  lemma MustExcludeMeans(k: Codec, lbl: string, own: Option<string>, account: Option<int>, shared: SharedRows,
                         hideAllShared: bool)
    ensures MustExclude(k, lbl, own, account, shared, hideAllShared) <==>
            && lbl != "" && !(own.Some? && own.value != "" && k.lower(own.value) == k.lower(lbl))
            && (|| k.lower(lbl) !in shared || hideAllShared
                || (shared[k.lower(lbl)].Some?
                    && (account.None? || account.value !in shared[k.lower(lbl)].value)))
  {
  }

  function Desired(k: Codec, own: Option<string>, stored: map<string, string>, account: Option<int>,
                   shared: SharedRows, hideAllShared: bool): set<string>
  {
    set lbl | lbl in stored.Values && lbl != "" && !IsOwn(k, lbl, own)
              && !MaySee(k, lbl, account, shared, hideAllShared)
  }

  // ----- what may come back out -----

  /** What a sync knows about the server and about who has left. */
  datatype Evidence = Evidence(own: Option<string>, stored: map<string, string>, collectionsKnown: bool,
                               departed: Option<set<string>>, marked: Option<set<string>>, shared: SharedRows,
                               account: Option<int>, hideAllShared: bool)

  function WantedBy(k: Codec, e: Evidence): set<string> {
    Desired(k, e.own, e.stored, e.account, e.shared, e.hideAllShared)
  }

  function LowerAll(k: Codec, labels: set<string>): set<string> {
    set lbl | lbl in labels :: k.lower(lbl)
  }

  /** Every label on the server, lower-cased; None unless a complete enumeration found something. */
  function Existing(k: Codec, e: Evidence): Option<set<string>> {
    if e.collectionsKnown && e.stored != map[] then Some(LowerAll(k, e.stored.Values)) else None
  }

  predicate StaleShared(k: Codec, e: Evidence, lbl: string) {
    Existing(k, e).Some? && k.lower(lbl) in e.shared && k.lower(lbl) !in LowerAll(k, WantedBy(k, e))
  }

  predicate DeadShared(k: Codec, e: Evidence, lbl: string) {
    && Existing(k, e).Some?
    && k.lower(k.sharedPrefix) <= k.lower(lbl)
    && k.lower(lbl) !in e.shared
    && k.lower(lbl) !in Existing(k, e).value
  }

  function SlugOf(k: Codec, lbl: string): string {
    var decoded := k.decode(lbl);
    k.lower(if |k.prefix| + 1 <= |decoded| then decoded[|k.prefix| + 1..] else "")
  }

  predicate SameAsAny(k: Codec, lbl: string, labels: set<string>) {
    exists l | l in labels :: Norm(k, lbl) == Norm(k, l)
  }

  predicate DeadPrivate(k: Codec, e: Evidence, lbl: string) {
    && Existing(k, e).Some? && e.departed.Some? && e.marked.Some?
    && !(k.lower(k.sharedPrefix) <= k.lower(k.decode(lbl)))
    && !SameAsAny(k, lbl, Existing(k, e).value)
    && !SameAsAny(k, lbl, LowerAll(k, WantedBy(k, e)))
    && SlugOf(k, lbl) !in LowerAll(k, e.marked.value)
    && SlugOf(k, lbl) in LowerAll(k, e.departed.value)
  }

  predicate ExcludedFromSelf(k: Codec, e: Evidence, lbl: string) {
    e.own.Some? && e.own.value != "" && k.lower(lbl) == k.lower(e.own.value)
  }

  predicate MayPrune(k: Codec, e: Evidence, lbl: string) {
    StaleShared(k, e, lbl) || DeadShared(k, e, lbl) || DeadPrivate(k, e, lbl) || ExcludedFromSelf(k, e, lbl)
  }

  /** Our labels among a filter's excludes. */
  function OursIn(k: Codec, cs: seq<Condition>): set<string> {
    set i, j | 0 <= i < |cs| && IsExclude(cs[i]) && 0 <= j < |cs[i].values| && IsOurs(k, cs[i].values[j])
      :: cs[i].values[j]
  }

  method Prunable(k: Codec, e: Evidence, fields: seq<seq<Condition>>) returns (prunable: set<string>)
    ensures forall lbl :: lbl in prunable <==>
              MayPrune(k, e, lbl) && exists f :: 0 <= f < |fields| && lbl in OursIn(k, fields[f])
  {
    prunable := {};
    for f := 0 to |fields|
      invariant forall lbl :: lbl in prunable <==>
                  MayPrune(k, e, lbl) && exists g :: 0 <= g < f && lbl in OursIn(k, fields[g])
    {
      var pending := OursIn(k, fields[f]);
      while pending != {}
        invariant pending <= OursIn(k, fields[f])
        invariant forall lbl :: lbl in prunable <==>
                    MayPrune(k, e, lbl) && ((exists g :: 0 <= g < f && lbl in OursIn(k, fields[g]))
                                            || lbl in OursIn(k, fields[f]) - pending)
        decreases |pending|
      {
        var lbl :| lbl in pending;
        var staleShared := StaleShared(k, e, lbl);
        if DeadShared(k, e, lbl) {
          staleShared := true;
        }
        if staleShared || ExcludedFromSelf(k, e, lbl) || DeadPrivate(k, e, lbl) {
          prunable := prunable + {lbl};
        }
        pending := pending - {lbl};
      }
    }
  }

  // ----- a wanted label is never pruned, with one exception -----

  /** The labels the server and the configuration use are plain ones. */
  ghost predicate PlainEvidence(k: Codec, e: Evidence) {
    && (forall lbl :: lbl in e.stored.Values ==> PlainLabel(k, lbl))
    && (forall lbl :: lbl in e.shared ==> PlainLabel(k, lbl) && k.lower(lbl) == lbl)
    && (e.own.Some? ==> PlainLabel(k, e.own.value))
  }

  /** A wanted label in a spelling, such as a percent-encoded one, that only decoding recognises, with the shared
      rows' prefix in plain sight. */
  ghost predicate Disguised(k: Codec, e: Evidence, lbl: string) {
    && k.lower(k.sharedPrefix) <= k.lower(lbl)
    && exists w :: w in WantedBy(k, e) && Norm(k, lbl) == Norm(k, w) && k.lower(lbl) != k.lower(w)
  }

  ghost predicate SparesWanted(k: Codec, e: Evidence, lbl: string) {
    MayPrune(k, e, lbl) ==> forall w :: w in WantedBy(k, e) ==> Norm(k, lbl) != Norm(k, w)
  }

  lemma PlainNorm(k: Codec, lbl: string)
    requires PlainLabel(k, lbl)
    ensures Norm(k, lbl) == k.lower(lbl)
  {
  }

  lemma SpelledAlike(k: Codec, a: string, b: string)
    requires Faithful(k) && PlainLabel(k, b) && k.lower(a) == k.lower(b)
    ensures Norm(k, a) == k.lower(b)
  {
  }

  /** Pruning spares every wanted label except under a disguised spelling while the enumeration is trusted; there
      it does not. */
  lemma PruneSparesWanted(k: Codec, e: Evidence, lbl: string)
    requires Faithful(k) && PlainEvidence(k, e)
    ensures SparesWanted(k, e, lbl) <==> !(Existing(k, e).Some? && Disguised(k, e, lbl))
  {
    if Existing(k, e).Some? && Disguised(k, e, lbl) {
      DisguisedIsPruned(k, e, lbl);
    } else if MayPrune(k, e, lbl) {
      forall w | w in WantedBy(k, e)
        ensures Norm(k, lbl) != Norm(k, w)
      {
        PlainNorm(k, w);
        if Norm(k, lbl) == Norm(k, w) {
          WantedNotPruned(k, e, lbl, w);
        }
      }
    }
  }

  lemma DisguisedIsPruned(k: Codec, e: Evidence, lbl: string)
    requires Faithful(k) && PlainEvidence(k, e) && Existing(k, e).Some? && Disguised(k, e, lbl)
    ensures DeadShared(k, e, lbl) && !SparesWanted(k, e, lbl)
  {
    var w :| w in WantedBy(k, e) && Norm(k, lbl) == Norm(k, w) && k.lower(lbl) != k.lower(w);
    PlainNorm(k, w);
    if k.lower(lbl) in e.shared {
      SpelledAlike(k, lbl, k.lower(lbl));
    }
    forall x | x in e.stored.Values
      ensures k.lower(x) != k.lower(lbl)
    {
      if k.lower(x) == k.lower(lbl) {
        SpelledAlike(k, lbl, x);
      }
    }
  }

  lemma WantedNotPruned(k: Codec, e: Evidence, lbl: string, w: string)
    requires Faithful(k) && PlainEvidence(k, e) && !(Existing(k, e).Some? && Disguised(k, e, lbl))
    requires w in WantedBy(k, e) && Norm(k, lbl) == Norm(k, w)
    ensures !MayPrune(k, e, lbl)
  {
    PlainNorm(k, w);
    assert k.lower(w) in LowerAll(k, WantedBy(k, e)) && k.lower(w) in LowerAll(k, e.stored.Values);
    if StaleShared(k, e, lbl) {
      SpelledAlike(k, lbl, k.lower(lbl));
    }
    if DeadPrivate(k, e, lbl) {
      SpelledAlike(k, k.lower(w), w);
    }
    if ExcludedFromSelf(k, e, lbl) {
      SpelledAlike(k, lbl, e.own.value);
    }
  }

  lemma PrivateNotDisguised(k: Codec, e: Evidence, lbl: string, w: string)
    requires Faithful(k) && PlainLabel(k, w) && !(k.lower(k.sharedPrefix) <= k.lower(w))
    requires Norm(k, lbl) == Norm(k, w)
    ensures !Disguised(k, e, lbl)
  {
    PlainNorm(k, w);
  }

  /** A per-person row's label is never disguised, so pruning always spares it. */
  lemma PruneSparesPrivateRows(k: Codec, e: Evidence, lbl: string, w: string)
    requires Faithful(k) && PlainEvidence(k, e) && MayPrune(k, e, lbl)
    requires w in WantedBy(k, e) && !(k.lower(k.sharedPrefix) <= k.lower(w))
    ensures Norm(k, lbl) != Norm(k, w)
  {
    PlainNorm(k, w);
    if Norm(k, lbl) == Norm(k, w) {
      PrivateNotDisguised(k, e, lbl, w);
      WantedNotPruned(k, e, lbl, w);
    }
  }

  /** Another account's private exclude comes out only when label, marker and departure evidence all say the row
      is gone. */
  lemma PrivatePruneNeedsThreeGuards(k: Codec, e: Evidence, lbl: string)
    requires Faithful(k) && PlainEvidence(k, e)
    requires MayPrune(k, e, lbl) && !IsOwn(k, lbl, e.own)
    requires !(k.lower(k.sharedPrefix) <= k.lower(lbl)) && k.lower(lbl) !in e.shared
    ensures e.collectionsKnown && forall x :: x in e.stored.Values ==> Norm(k, x) != Norm(k, lbl)
    ensures e.marked.Some? && forall m :: m in e.marked.value ==> k.lower(m) != SlugOf(k, lbl)
    ensures e.departed.Some? && exists d :: d in e.departed.value && k.lower(d) == SlugOf(k, lbl)
  {
    forall x | x in e.stored.Values
      ensures Norm(k, x) != Norm(k, lbl)
    {
      assert k.lower(x) in Existing(k, e).value;
      SpelledAlike(k, k.lower(x), x);
    }
    forall m | m in e.marked.value
      ensures k.lower(m) != SlugOf(k, lbl)
    {
      assert k.lower(m) in LowerAll(k, e.marked.value);
    }
  }

  // ----- exactly what may come out -----

  ghost predicate IsStored(k: Codec, e: Evidence, lbl: string) {
    exists x :: x in e.stored.Values && x != "" && k.lower(x) == k.lower(lbl)
  }

  /** The row is gone by label, by marker, and by its owner having left. */
  ghost predicate PersonGone(k: Codec, e: Evidence, lbl: string) {
    && (forall x :: x in e.stored.Values ==> Norm(k, x) != Norm(k, lbl))
    && e.marked.Some? && (forall m :: m in e.marked.value ==> k.lower(m) != SlugOf(k, lbl))
    && e.departed.Some? && exists d :: d in e.departed.value && k.lower(d) == SlugOf(k, lbl)
  }

  /** The account's own label; and, on a server that was wholly read and had labels, that of a configured shared row it
      may see or that is not there, of a shared row neither configured nor there, and of a person's row that is gone. */
  ghost predicate LetsGo(k: Codec, e: Evidence, lbl: string) {
    || (e.own.Some? && e.own.value != "" && k.lower(e.own.value) == k.lower(lbl))
    || (e.collectionsKnown && e.stored != map[]
        && (|| (k.lower(lbl) in e.shared
                && (!IsStored(k, e, lbl)
                    || (!e.hideAllShared
                        && (e.shared[k.lower(lbl)].None?
                            || (e.account.Some? && e.account.value in e.shared[k.lower(lbl)].value)))))
            || (k.lower(k.sharedPrefix) <= k.lower(lbl) && k.lower(lbl) !in e.shared
                && forall x :: x in e.stored.Values ==> k.lower(x) != k.lower(lbl))
            || (!(k.lower(k.sharedPrefix) <= k.lower(k.decode(lbl))) && PersonGone(k, e, lbl))))
  }

  lemma WantedLowered(k: Codec, e: Evidence, lbl: string)
    requires !IsOwn(k, lbl, e.own)
    ensures k.lower(lbl) in LowerAll(k, WantedBy(k, e)) <==>
            IsStored(k, e, lbl) && !MaySee(k, lbl, e.account, e.shared, e.hideAllShared)
  {
    if x :| x in e.stored.Values && x != "" && k.lower(x) == k.lower(lbl) {
      if !MaySee(k, lbl, e.account, e.shared, e.hideAllShared) {
        assert x in WantedBy(k, e);
      }
    }
  }

  lemma StaleExactly(k: Codec, e: Evidence, lbl: string)
    requires !IsOwn(k, lbl, e.own)
    ensures StaleShared(k, e, lbl) <==>
            && e.collectionsKnown && e.stored != map[] && k.lower(lbl) in e.shared
            && (!IsStored(k, e, lbl) || MaySee(k, lbl, e.account, e.shared, e.hideAllShared))
  {
    WantedLowered(k, e, lbl);
  }

  lemma DeadSharedExactly(k: Codec, e: Evidence, lbl: string)
    ensures DeadShared(k, e, lbl) <==>
            && e.collectionsKnown && e.stored != map[]
            && k.lower(k.sharedPrefix) <= k.lower(lbl) && k.lower(lbl) !in e.shared
            && forall x :: x in e.stored.Values ==> k.lower(x) != k.lower(lbl)
  {
    if Existing(k, e).Some? {
      forall x | x in e.stored.Values
        ensures k.lower(x) in Existing(k, e).value
      {
      }
    }
  }

  lemma SameLowered(k: Codec, e: Evidence, lbl: string, labels: set<string>)
    requires Faithful(k) && PlainEvidence(k, e) && labels <= e.stored.Values
    ensures SameAsAny(k, lbl, LowerAll(k, labels)) <==> exists x :: x in labels && Norm(k, lbl) == Norm(k, x)
  {
    if l :| l in LowerAll(k, labels) && Norm(k, lbl) == Norm(k, l) {
      var x :| x in labels && k.lower(x) == l;
      SpelledAlike(k, l, x);
      PlainNorm(k, x);
    }
    if x :| x in labels && Norm(k, lbl) == Norm(k, x) {
      assert k.lower(x) in LowerAll(k, labels);
      SpelledAlike(k, k.lower(x), x);
      PlainNorm(k, x);
    }
  }

  lemma DeadPrivateExactly(k: Codec, e: Evidence, lbl: string)
    requires Faithful(k) && PlainEvidence(k, e)
    ensures DeadPrivate(k, e, lbl) <==>
            && e.collectionsKnown && e.stored != map[]
            && !(k.lower(k.sharedPrefix) <= k.lower(k.decode(lbl))) && PersonGone(k, e, lbl)
  {
    hide Norm;
    SameLowered(k, e, lbl, e.stored.Values);
    SameLowered(k, e, lbl, WantedBy(k, e));
    if e.marked.Some? {
      forall m | m in e.marked.value
        ensures k.lower(m) in LowerAll(k, e.marked.value)
      {
      }
    }
  }

  /** The slug of a label of ours is what follows the prefix. */
  lemma SlugIs(k: Codec, lbl: string, slug: string)
    requires k.decode(lbl) == k.prefix + "_" + slug
    ensures SlugOf(k, lbl) == k.lower(slug)
  {
    assert k.decode(lbl)[|k.prefix| + 1..] == slug;
  }

  /** What may come back out, in terms of the evidence alone. */
  lemma PrunedExactly(k: Codec, e: Evidence, lbl: string)
    requires Faithful(k) && PlainEvidence(k, e)
    ensures MayPrune(k, e, lbl) <==> LetsGo(k, e, lbl)
  {
    hide StaleShared;
    hide DeadShared;
    hide DeadPrivate;
    hide PersonGone;
    hide IsStored;
    if !IsOwn(k, lbl, e.own) {
      StaleExactly(k, e, lbl);
      DeadSharedExactly(k, e, lbl);
      DeadPrivateExactly(k, e, lbl);
    }
  }
}
