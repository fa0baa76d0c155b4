/** Tracing the tags on library items to the people who asked, and crediting only those a tag can name alone. */
module RequesterTags {
  import opened Options
  import opened RequestAlloc
  import opened RequestLedger

  datatype TagSource = Override | FromOverseerr | Pattern

  /** Whom a tag names, how it was traced, the patterns of the rows it holds for, and whether it names several. */
  datatype TagOwner = TagOwner(person: Option<int>, source: TagSource, patterns: seq<string>, ambiguous: bool)

  /** What tags are traced by: the tags people were given, the request server's users, and the rows' patterns. */
  datatype Tracing = Tracing(
    norm: string -> string,                      // a tag as the library stores it
    requester: string -> Option<int>,            // the user number in a requester tag
    overrides: map<string, seq<int>>,            // who was given each stored tag
    connected: bool,                             // whether the request server is
    plexIds: map<int, Option<int>>,              // its users' accounts
    excluded: Option<int>,                       // the user our own requests are filed as
    roster: set<int>,                            // the accounts people may have
    patterns: seq<string>,                       // every row's pattern
    named: (string, string) -> seq<int>)         // whose rendering of a pattern a tag is

  function People(hits: seq<int>): set<int> {
    set person | person in hits
  }

  /** One of the first `n` patterns renders to this tag for the person. */
  ghost predicate Claims(tr: Tracing, lbl: string, n: nat, person: int)
    requires n <= |tr.patterns|
  {
    exists i :: 0 <= i < n && person in tr.named(lbl, tr.patterns[i])
  }

  ghost predicate Claimants(tr: Tracing, lbl: string, n: nat, people: set<int>)
    requires n <= |tr.patterns|
  {
    forall person :: person in people <==> Claims(tr, lbl, n, person)
  }

  lemma ClaimantsNext(tr: Tracing, lbl: string, n: nat, people: set<int>)
    requires n < |tr.patterns| && Claimants(tr, lbl, n, people)
    ensures Claimants(tr, lbl, n + 1, people + People(tr.named(lbl, tr.patterns[n])))
  {
  }

  predicate ByRequester(tr: Tracing, lbl: string) {
    tr.norm(lbl) !in tr.overrides && tr.requester(lbl).Some?
  }

  /** The person a requester tag stands for, unless it is our own filing account. */
  function RequesterOf(tr: Tracing, uid: int): Option<int> {
    if tr.excluded == Some(uid) then None
    else if uid in tr.plexIds && tr.plexIds[uid].Some? && tr.plexIds[uid].value in tr.roster then tr.plexIds[uid]
    else None
  }

  /** The tag names exactly this person, and nobody else. */
  ghost predicate NamesAlone(tr: Tracing, lbl: string, person: int) {
    if tr.norm(lbl) in tr.overrides then tr.overrides[tr.norm(lbl)] == [person]
    else if tr.requester(lbl).Some? then
      var uid := tr.requester(lbl).value;
      && tr.connected && tr.excluded != Some(uid)
      && uid in tr.plexIds && tr.plexIds[uid] == Some(person) && person in tr.roster
    else
      && Claims(tr, lbl, |tr.patterns|, person)
      && forall other :: Claims(tr, lbl, |tr.patterns|, other) ==> other == person
  }

  /** The rows a person's own tag holds for: those whose pattern renders to it. */
  ghost predicate Matching(tr: Tracing, lbl: string, patterns: seq<string>, n: nat)
    requires n <= |tr.patterns|
  {
    forall p :: p in patterns <==> exists i :: 0 <= i < n && tr.patterns[i] == p && tr.named(lbl, p) != []
  }

  lemma MatchingNext(tr: Tracing, lbl: string, patterns: seq<string>, n: nat)
    requires n < |tr.patterns| && Matching(tr, lbl, patterns, n)
    ensures Matching(tr, lbl, if tr.named(lbl, tr.patterns[n]) != [] then patterns + [tr.patterns[n]] else patterns,
                     n + 1)
  {
    var p := tr.patterns[n];
    var next := if tr.named(lbl, p) != [] then patterns + [p] else patterns;
    forall q
      ensures q in next <==> exists i :: 0 <= i < n + 1 && tr.patterns[i] == q && tr.named(lbl, q) != []
    {
      assert q in next <==> q in patterns || (q == p && tr.named(lbl, p) != []);
    }
  }

  /** What tracing a tag promises: it credits a person only where it names that person alone. */
  ghost predicate Traced(tr: Tracing, lbl: string, owner: Option<TagOwner>) {
    if owner.None? then forall person :: !NamesAlone(tr, lbl, person)
    else
      && (owner.value.ambiguous ==> owner.value.person.None?)
      && (forall person :: owner.value.person == Some(person) <==> NamesAlone(tr, lbl, person))
      && (owner.value.source == Override <==> tr.norm(lbl) in tr.overrides)
      && (owner.value.source == FromOverseerr <==> ByRequester(tr, lbl))
      && if owner.value.source == Pattern then Matching(tr, lbl, owner.value.patterns, |tr.patterns|)
         else owner.value.patterns == [""]
  }

  lemma OnlyClaimant(tr: Tracing, lbl: string, people: set<int>, first: int, person: int)
    requires tr.norm(lbl) !in tr.overrides && tr.requester(lbl).None?
    requires Claimants(tr, lbl, |tr.patterns|, people) && first in people
    ensures NamesAlone(tr, lbl, person) <==> people == {first} && person == first
  {
    if NamesAlone(tr, lbl, person) {
      assert Claims(tr, lbl, |tr.patterns|, first);
      forall other
        ensures other in people <==> other == first
      {
        assert other in people <==> Claims(tr, lbl, |tr.patterns|, other);
      }
    }
    if people == {first} {
      forall other | Claims(tr, lbl, |tr.patterns|, other)
        ensures other == first
      {
        assert other in people;
      }
    }
  }

  /** Traces a tag that only the rows' patterns can explain: every pattern is tried, not the first that fits. */
  method ResolveByPattern(tr: Tracing, lbl: string) returns (owner: Option<TagOwner>)
    requires tr.norm(lbl) !in tr.overrides && tr.requester(lbl).None?
    ensures Traced(tr, lbl, owner)
  {
    var claimants: set<int>, matched: seq<string>, first := {}, [], 0;
    for n := 0 to |tr.patterns|
      invariant Claimants(tr, lbl, n, claimants) && Matching(tr, lbl, matched, n)
      invariant if matched == [] then claimants == {} else first in claimants
    {
      var hits := tr.named(lbl, tr.patterns[n]);
      MatchingNext(tr, lbl, matched, n);
      ClaimantsNext(tr, lbl, n, claimants);
      if |hits| > 0 {
        if |matched| == 0 {
          first := hits[0];
        }
        matched := matched + [tr.patterns[n]];
        claimants := claimants + People(hits);
      } else {
        assert claimants + People(hits) == claimants;
      }
    }
    if |matched| == 0 {
      return None;
    }
    var alone := claimants == {first};
    forall person
      ensures NamesAlone(tr, lbl, person) <==> alone && person == first
    {
      OnlyClaimant(tr, lbl, claimants, first, person);
    }
    owner := Some(TagOwner(if alone then Some(first) else None, Pattern, matched, !alone));
  }

  /** Traces a tag; None when it is no requester's, or cannot be traced. */
  method ResolveTag(tr: Tracing, lbl: string) returns (owner: Option<TagOwner>)
    ensures Traced(tr, lbl, owner)
  {
    if tr.norm(lbl) in tr.overrides {
      var claimants := tr.overrides[tr.norm(lbl)];
      var only := if |claimants| == 1 then Some(claimants[0]) else None;
      assert |claimants| == 1 ==> claimants == [claimants[0]];
      return Some(TagOwner(only, Override, [""], |claimants| > 1));
    }
    var uid := tr.requester(lbl);
    if uid.Some? {
      if !tr.connected {
        return None;
      }
      return Some(TagOwner(RequesterOf(tr, uid.value), FromOverseerr, [""], false));
    }
    owner := ResolveByPattern(tr, lbl);
  }

  /** Every tag of the table but those pending is traced. */
  ghost predicate AllTraced(tr: Tracing, labels: map<int, string>, owners: map<int, TagOwner>,
                            pending: set<(int, string)>)
  {
    && (forall tag :: tag in owners ==> tag in labels && (tag, labels[tag]) !in pending)
    && forall tag :: tag in labels && (tag, labels[tag]) !in pending ==>
         Traced(tr, labels[tag], if tag in owners then Some(owners[tag]) else None)
  }

  method TraceTags(tr: Tracing, labels: map<int, string>) returns (owners: map<int, TagOwner>)
    ensures AllTraced(tr, labels, owners, {})
  {
    hide Traced;
    owners := map[];
    var pending := labels.Items;
    while pending != {}
      invariant pending <= labels.Items && AllTraced(tr, labels, owners, pending)
      decreases |pending|
    {
      var tag :| tag in pending;
      var owner := ResolveTag(tr, tag.1);
      if owner.Some? {
        owners := owners[tag.0 := owner.value];
      }
      pending := pending - {tag};
    }
  }

  // ----- crediting library items -----

  /** A library item: its title, tags, when it was added, and what of it is on disk. */
  datatype LibraryItem = LibraryItem(tmdbId: Option<int>, name: string, tags: seq<int>, added: Option<int>,
                                     landed: Option<int>, onDisk: bool)

  /** The titles one tag credits: none when it names nobody, or when the item is one we added ourselves and the tag
      is not a requester's. */
  function Credit(media: MediaType, item: LibraryItem, ours: bool, owner: TagOwner): (credits: seq<RequestedTitle>)
    requires item.tmdbId.Some?
    ensures forall i :: 0 <= i < |credits| ==> Sourced(credits[i])
  {
    if owner.person.None? || (ours && owner.source != FromOverseerr) then []
    else
      seq(|owner.patterns|, i requires 0 <= i < |owner.patterns| =>
        RequestedTitle(Asked(media, item.tmdbId.value, owner.person.value),
                       Dates(item.added, if item.onDisk then item.landed else None, item.onDisk, true),
                       [TAG], item.name, owner.patterns[i]))
  }

  ghost predicate Ours(item: LibraryItem, ourTags: set<int>) {
    exists i :: 0 <= i < |item.tags| && item.tags[i] in ourTags
  }

  /** The title is credited by some item's tag, traced to that person. */
  ghost predicate CreditedBy(media: MediaType, items: seq<LibraryItem>, owners: map<int, TagOwner>, ourTags: set<int>,
                             t: RequestedTitle, i: nat, tag: int)
  {
    && i < |items| && tag in items[i].tags && tag in owners && items[i].tmdbId.Some?
    && t in Credit(media, items[i], Ours(items[i], ourTags), owners[tag])
  }

  ghost predicate CreditsOf(media: MediaType, items: seq<LibraryItem>, owners: map<int, TagOwner>, ourTags: set<int>,
                            credits: seq<RequestedTitle>, n: nat)
    requires n <= |items|
  {
    forall t :: t in credits <==> exists i: nat, tag :: i < n && CreditedBy(media, items, owners, ourTags, t, i, tag)
  }

  method IsOurs(item: LibraryItem, ourTags: set<int>) returns (ours: bool)
    ensures ours == Ours(item, ourTags)
  {
    ours := false;
    for j := 0 to |item.tags|
      invariant ours <==> exists i :: 0 <= i < j && item.tags[i] in ourTags
    {
      if item.tags[j] in ourTags {
        ours := true;
      }
    }
  }

  ghost predicate CreditedAs(media: MediaType, item: LibraryItem, ourTags: set<int>, owners: map<int, TagOwner>,
                             t: RequestedTitle, tag: int)
    requires item.tmdbId.Some?
  {
    tag in owners && t in Credit(media, item, Ours(item, ourTags), owners[tag])
  }

  /** What one item's tags credit. */
  method CreditItem(media: MediaType, item: LibraryItem, owners: map<int, TagOwner>, ourTags: set<int>)
    returns (credits: seq<RequestedTitle>)
    requires item.tmdbId.Some?
    ensures forall t :: t in credits <==>
              exists i :: 0 <= i < |item.tags| && CreditedAs(media, item, ourTags, owners, t, item.tags[i])
  {
    var ours := IsOurs(item, ourTags);
    credits := [];
    for j := 0 to |item.tags|
      invariant forall t :: t in credits <==>
                  exists i :: 0 <= i < j && CreditedAs(media, item, ourTags, owners, t, item.tags[i])
    {
      if item.tags[j] in owners {
        credits := credits + Credit(media, item, ours, owners[item.tags[j]]);
      }
    }
  }

  /** Everything the items' tags credit to the people they were traced to. */
  method CreditItems(media: MediaType, items: seq<LibraryItem>, owners: map<int, TagOwner>, ourTags: set<int>)
    returns (credits: seq<RequestedTitle>)
    ensures CreditsOf(media, items, owners, ourTags, credits, |items|)
    ensures forall i :: 0 <= i < |credits| ==> Sourced(credits[i])
  {
    credits := [];
    for n := 0 to |items|
      invariant CreditsOf(media, items, owners, ourTags, credits, n)
    {
      var more: seq<RequestedTitle> := [];
      if items[n].tmdbId.Some? {
        more := CreditItem(media, items[n], owners, ourTags);
      }
      forall t
        ensures t in more <==> exists tag :: CreditedBy(media, items, owners, ourTags, t, n, tag)
      {
        if t in more {
          var j :| 0 <= j < |items[n].tags| && CreditedAs(media, items[n], ourTags, owners, t, items[n].tags[j]);
          assert CreditedBy(media, items, owners, ourTags, t, n, items[n].tags[j]);
        }
        if tag :| CreditedBy(media, items, owners, ourTags, t, n, tag) {
          var j :| 0 <= j < |items[n].tags| && items[n].tags[j] == tag;
          assert CreditedAs(media, items[n], ourTags, owners, t, items[n].tags[j]);
        }
      }
      CreditsNext(media, items, owners, ourTags, credits, more, n);
      credits := credits + more;
    }
    AllSourced(media, items, owners, ourTags, credits);
  }

  lemma CreditsNext(media: MediaType, items: seq<LibraryItem>, owners: map<int, TagOwner>, ourTags: set<int>,
                    credits: seq<RequestedTitle>, more: seq<RequestedTitle>, n: nat)
    requires n < |items| && CreditsOf(media, items, owners, ourTags, credits, n)
    requires forall t :: t in more <==> exists tag :: CreditedBy(media, items, owners, ourTags, t, n, tag)
    ensures CreditsOf(media, items, owners, ourTags, credits + more, n + 1)
  {
    forall t
      ensures t in credits + more <==>
              exists i: nat, tag :: i < n + 1 && CreditedBy(media, items, owners, ourTags, t, i, tag)
    {
      assert t in credits + more <==> t in credits || t in more;
      if i: nat, tag :| i < n + 1 && CreditedBy(media, items, owners, ourTags, t, i, tag) {
        assert i == n ==> t in more;
      }
    }
  }

  lemma AllSourced(media: MediaType, items: seq<LibraryItem>, owners: map<int, TagOwner>, ourTags: set<int>,
                   credits: seq<RequestedTitle>)
    requires CreditsOf(media, items, owners, ourTags, credits, |items|)
    ensures forall k :: 0 <= k < |credits| ==> Sourced(credits[k])
  {
    forall k | 0 <= k < |credits|
      ensures Sourced(credits[k])
    {
      assert credits[k] in credits;
      var i: nat, tag :| i < |items| && CreditedBy(media, items, owners, ourTags, credits[k], i, tag);
    }
  }

  // ----- the library's tags, traced and credited -----

  /** The tags we put on our own additions. */
  function OurTags(tr: Tracing, labels: map<int, string>, ourLabel: string): set<int> {
    set tag | tag in labels && ourLabel != "" && tr.norm(labels[tag]) == tr.norm(ourLabel)
  }

  /** The rows a tag holds for: every row, or those whose pattern renders to it. */
  ghost predicate Covers(tr: Tracing, lbl: string, pattern: string) {
    if tr.norm(lbl) in tr.overrides || tr.requester(lbl).Some? then pattern == ""
    else exists i :: 0 <= i < |tr.patterns| && tr.patterns[i] == pattern && tr.named(lbl, pattern) != []
  }

  /** One of the item's tags is the one we put on our own additions. */
  ghost predicate AddedByUs(tr: Tracing, labels: map<int, string>, ourLabel: string, item: LibraryItem) {
    ourLabel != "" && exists i :: 0 <= i < |item.tags| && item.tags[i] in labels
                                  && tr.norm(labels[item.tags[i]]) == tr.norm(ourLabel)
  }

  /** This tag of this item shows that the title was asked for by its person, for the rows of its pattern: the tag names
      the person alone, and on an item we added ourselves it is a requester's. */
  ghost predicate Shows(tr: Tracing, labels: map<int, string>, ourLabel: string, media: MediaType, item: LibraryItem,
                        tag: int, t: RequestedTitle)
  {
    && tag in item.tags && tag in labels && item.tmdbId.Some?
    && NamesAlone(tr, labels[tag], t.asked.person) && Covers(tr, labels[tag], t.pattern)
    && (AddedByUs(tr, labels, ourLabel, item) ==> ByRequester(tr, labels[tag]))
    && t == RequestedTitle(Asked(media, item.tmdbId.value, t.asked.person),
                           Dates(item.added, if item.onDisk then item.landed else None, item.onDisk, true),
                           [TAG], item.name, t.pattern)
  }

  lemma TracedCovers(tr: Tracing, lbl: string, owner: TagOwner, pattern: string)
    requires Traced(tr, lbl, Some(owner))
    ensures pattern in owner.patterns <==> Covers(tr, lbl, pattern)
  {
  }

  /** A traced tag credits a title exactly when it shows it. */
  lemma CreditedIsShown(tr: Tracing, labels: map<int, string>, ourLabel: string, owners: map<int, TagOwner>,
                        media: MediaType, items: seq<LibraryItem>, t: RequestedTitle, i: nat, tag: int)
    requires AllTraced(tr, labels, owners, {}) && i < |items|
    ensures CreditedBy(media, items, owners, OurTags(tr, labels, ourLabel), t, i, tag) <==>
            Shows(tr, labels, ourLabel, media, items[i], tag, t)
  {
    hide Traced;
    hide NamesAlone;
    hide Covers;
    hide Ours;
    hide OurTags;
    hide AddedByUs;
    if tag in labels {
      OursMeans(tr, labels, ourLabel, items[i]);
      OwnerSays(tr, labels[tag], if tag in owners then Some(owners[tag]) else None, t.asked.person);
      if tag in owners && items[i].tmdbId.Some? {
        TracedCovers(tr, labels[tag], owners[tag], t.pattern);
        CreditIs(media, items[i], Ours(items[i], OurTags(tr, labels, ourLabel)), owners[tag], t);
      }
    }
  }

  lemma OursMeans(tr: Tracing, labels: map<int, string>, ourLabel: string, item: LibraryItem)
    ensures Ours(item, OurTags(tr, labels, ourLabel)) <==> AddedByUs(tr, labels, ourLabel, item)
  {
    if AddedByUs(tr, labels, ourLabel, item) {
      var i :| 0 <= i < |item.tags| && item.tags[i] in labels && tr.norm(labels[item.tags[i]]) == tr.norm(ourLabel);
      assert item.tags[i] in OurTags(tr, labels, ourLabel);
    }
  }

  lemma OwnerSays(tr: Tracing, lbl: string, owner: Option<TagOwner>, person: int)
    requires Traced(tr, lbl, owner)
    ensures NamesAlone(tr, lbl, person) <==> owner.Some? && owner.value.person == Some(person)
    ensures owner.Some? ==> (owner.value.source == FromOverseerr <==> ByRequester(tr, lbl))
  {
  }

  lemma CreditIs(media: MediaType, item: LibraryItem, ours: bool, owner: TagOwner, t: RequestedTitle)
    requires item.tmdbId.Some?
    ensures t in Credit(media, item, ours, owner) <==>
            && owner.person == Some(t.asked.person) && t.pattern in owner.patterns
            && (ours ==> owner.source == FromOverseerr)
            && t == RequestedTitle(Asked(media, item.tmdbId.value, t.asked.person),
                                   Dates(item.added, if item.onDisk then item.landed else None, item.onDisk, true),
                                   [TAG], item.name, t.pattern)
  {
    var credits := Credit(media, item, ours, owner);
    if t in credits {
      var j :| 0 <= j < |credits| && credits[j] == t;
      assert owner.patterns[j] in owner.patterns;
    } else if owner.person == Some(t.asked.person) && t.pattern in owner.patterns {
      var j :| 0 <= j < |owner.patterns| && owner.patterns[j] == t.pattern;
      assert |credits| > 0 ==> credits[j] in credits;
    }
  }

  /** Every title some tag shows was asked for, and no other: nobody is credited through a tag that could be someone
      else's. */
  method AddTagged(tr: Tracing, labels: map<int, string>, ourLabel: string, media: MediaType, items: seq<LibraryItem>)
    returns (credits: seq<RequestedTitle>)
    ensures forall t :: t in credits <==>
              exists i, tag :: 0 <= i < |items| && Shows(tr, labels, ourLabel, media, items[i], tag, t)
    ensures forall i :: 0 <= i < |credits| ==> Sourced(credits[i])
  {
    hide CreditedBy;
    hide Shows;
    hide AllTraced;
    var owners := TraceTags(tr, labels);
    var ourTags := OurTags(tr, labels, ourLabel);
    credits := CreditItems(media, items, owners, ourTags);
    forall t
      ensures t in credits <==>
              exists i, tag :: 0 <= i < |items| && Shows(tr, labels, ourLabel, media, items[i], tag, t)
    {
      forall i: nat, tag | i < |items|
        ensures CreditedBy(media, items, owners, ourTags, t, i, tag) <==>
                Shows(tr, labels, ourLabel, media, items[i], tag, t)
      {
        CreditedIsShown(tr, labels, ourLabel, owners, media, items, t, i, tag);
      }
    }
  }
}
