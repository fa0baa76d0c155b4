/** What a run's syncs go by: which labels an account is wanted to hide, what lets an exclude come out, and whose row an
    allow list is opened for, in terms of what the run has read. */
module RunEvidence {
  import opened ShareFilter
  import AllowTheorems
  import opened MergeTheorems
  import opened SyncPrune
  import opened AccountSync
  import opened FilterReadBack
  import opened RunProtocol
  import opened RunSafety
  import opened RowAdmission
  import opened ExcludesKept

  /** The label the run has on file for the account's own row. */
  ghost predicate OwnOnFile(env: Env, s: State, account: int, lbl: string) {
    && account in env.slugs && env.slugs[account] != ""
    && env.slugs[account] in s.stored && s.stored[env.slugs[account]] == lbl
  }

  /** An account must not see a stored label unless it is its own row's, or a configured shared row's it may see; one
      the owner opted out may see no shared row. */
  lemma WantedInRun(env: Env, s: State, account: int, lbl: string)
    requires lbl != ""
    ensures lbl in WantedBy(env.codec, EvidenceFor(env, s, account)) <==>
            && lbl in s.stored.Values
            && (forall own :: OwnOnFile(env, s, account, own) && own != "" ==>
                  env.codec.lower(own) != env.codec.lower(lbl))
            && (|| env.codec.lower(lbl) !in env.shared || account in env.optedOut
                || (env.shared[env.codec.lower(lbl)].Some? && account !in env.shared[env.codec.lower(lbl)].value))
  {
    var e := EvidenceFor(env, s, account);
    MustExcludeMeans(env.codec, lbl, e.own, e.account, e.shared, e.hideAllShared);
    if e.own.Some? {
      assert OwnOnFile(env, s, account, e.own.value);
    }
  }

  /** Whose row an allow list is opened for, and whose label is taken out of it. */
  lemma RowInRun(env: Env, s: State, account: int, lbl: string)
    requires FiledLabels(env, s.stored)
    ensures HasRow(EvidenceFor(env, s, account), RowLabelOf(env, account), lbl) <==> OwnOnFile(env, s, account, lbl)
    ensures RowGone(EvidenceFor(env, s, account), RowLabelOf(env, account), lbl) <==>
            && s.known && account in env.slugs && env.slugs[account] != "" && env.slugs[account] !in s.stored
            && lbl == env.codec.prefix + "_" + env.slugs[account]
    ensures RowUnknown(EvidenceFor(env, s, account), RowLabelOf(env, account)) <==>
            || account !in env.slugs || env.slugs[account] == ""
            || (env.slugs[account] !in s.stored && !s.known)
  {
  }

  lemma EnvFaithful(env: Env)
    requires GoodEnv(env)
    ensures Faithful(env.codec) && SaneNaming(NamingOf(env.codec))
  {
  }

  /** An exclude of ours that is not the account's own comes out only after the run has read a server with labels on it;
      a person's only where no label on file matches it, no marker read is of an account with its slug, and its owner is
      among those who left. */
  lemma PrunedInRun(env: Env, s: State, account: int, wanted: seq<string>, pruned: seq<string>, lbl: string)
    requires GoodEnv(env) && FiledLabels(env, s.stored) && ListsFor(env, s, account, wanted, pruned) && lbl in pruned
    requires account in s.roster && ParseFilter(s.roster[account].filters.movies).Ok?
    requires ParseFilter(s.roster[account].filters.television).Ok?
    requires forall own :: OwnOnFile(env, s, account, own) ==> env.codec.lower(own) != env.codec.lower(lbl)
    ensures s.known && s.stored != map[]
    ensures var k := env.codec;
            k.lower(lbl) in env.shared || k.lower(k.sharedPrefix) <= k.lower(lbl)
            || (&& (forall x :: x in s.stored.Values ==> Norm(k, x) != Norm(k, lbl))
                && s.marked.Some?
                && (forall m :: m in env.slugs && m in s.marked.value ==> k.lower(env.slugs[m]) != SlugOf(k, lbl))
                && env.departed.Some? && exists d :: d in env.departed.value && k.lower(d) == SlugOf(k, lbl))
  {
    hide GoodEnv;
    hide FiledLabels;
    hide MayPrune;
    hide SlugOf;
    hide Norm;
    hide OursIn;
    hide ParseFilter;
    hide Faithful;
    hide PlainEvidence;
    var k, e := env.codec, EvidenceFor(env, s, account);
    EnvFaithful(env);
    EvidenceSound(env, s, account);
    if IsOwn(k, lbl, e.own) {
      assert OwnOnFile(env, s, account, e.own.value);
    }
    PrunedExactly(k, e, lbl);
    if k.lower(lbl) !in env.shared && !(k.lower(k.sharedPrefix) <= k.lower(lbl)) {
      PrivatePruneNeedsThreeGuards(k, e, lbl);
      forall m | m in env.slugs && m in s.marked.value
        ensures k.lower(env.slugs[m]) != SlugOf(k, lbl)
      {
        assert env.slugs[m] in e.marked.value;
      }
    }
  }

  /** When the run could not enumerate, what an account's field excluded of ours it goes on excluding, enforced, but for
      its own label. */
  lemma UnreadRunKeepsExcludes(env: Env, s: State, account: int, wanted: seq<string>, pruned: seq<string>, field: Field,
                               v: string)
    requires GoodEnv(env) && FiledLabels(env, s.stored) && ListsFor(env, s, account, wanted, pruned) && !s.known
    requires account in s.roster && Outcome(env, s, account, wanted, pruned).Synced?
    requires ParseFilter(s.roster[account].filters.movies).Ok?
    requires ParseFilter(s.roster[account].filters.television).Ok?
    requires Outcome(env, s, account, wanted, pruned).At(field).Planned?
    requires NamesIn(s.roster[account].filters.At(field), v)
    requires Recognised(env.codec, s.roster[account].filters.At(field), v)
    requires forall own :: OwnOnFile(env, s, account, own) ==> Norm(env.codec, v) != Norm(env.codec, own)
    ensures Hides(env.codec, Outcome(env, s, account, wanted, pruned).At(field).text, v)
  {
    hide GoodEnv;
    hide FiledLabels;
    hide Norm;
    hide MayPrune;
    hide SyncAccount;
    hide NamesIn;
    hide Recognised;
    hide OursIn;
    hide ParseFilter;
    hide RowToAdmit;
    hide Hides;
    hide Sound;
    var e := EvidenceFor(env, s, account);
    EvidenceSound(env, s, account);
    ListedAreShortlist(env, s, account, wanted, pruned);
    RowPlannable(env, s, account);
    if e.own.Some? {
      assert OwnOnFile(env, s, account, e.own.value);
    }
    BadReadKeepsExcludes(env.codec, account in env.owners, RosterEntry(s, account), e, RowLabelOf(env, account), wanted,
                         pruned, field, v);
  }

  /** An account whose row's label is on file is let through to it by each of its fields, where the plan settles. */
  lemma RunLetsRowThrough(env: Env, s: State, account: int, wanted: seq<string>, pruned: seq<string>, field: Field,
                          own: string)
    requires GoodEnv(env) && FiledLabels(env, s.stored) && ListsFor(env, s, account, wanted, pruned)
    requires account in s.roster && Outcome(env, s, account, wanted, pruned).Synced?
    requires Outcome(env, s, account, wanted, pruned).At(field).Planned? && OwnOnFile(env, s, account, own)
    requires PrunesCleanly(env.codec, s.roster[account].filters.At(field), pruned)
    requires Settles(env.codec, wanted, own, true, s.roster[account].filters.At(field))
    ensures var text := Outcome(env, s, account, wanted, pruned).At(field).text;
            ParseFilter(text).Ok?
            && AllowTheorems.OwnRowAllowed(NamingOf(env.codec), own, env.codec.prefix, ParseFilter(text).value)
  {
    hide GoodEnv;
    hide SyncAccount;
    hide ParseFilter;
    hide Settles;
    hide PrunesCleanly;
    hide SaneNaming;
    EnvFaithful(env);
    ListedAreShortlist(env, s, account, wanted, pruned);
    RowInRun(env, s, account, own);
    FiledRow(env, s, account, own);
    OwnRowGoesIn(env.codec, account in env.owners, RosterEntry(s, account), EvidenceFor(env, s, account),
                 RowLabelOf(env, account), wanted, pruned, field, own);
  }

  lemma FiledRow(env: Env, s: State, account: int, own: string)
    requires FiledLabels(env, s.stored) && OwnOnFile(env, s, account, own)
    ensures AllowTheorems.OwnLabel(NamingOf(env.codec), own)
  {
  }
}
