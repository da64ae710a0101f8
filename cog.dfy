/** The state of the `NintenDeals` cog (cogs/utility.py:28-83) and its three
    periodic tasks: the catalog refresh, the new-release check and the deals
    list. The collection of stored games is a `GameStore`; the deals API reply
    and the upstream games are inputs. */
module Cog {
  import opened Py
  import opened Deals
  import opened Catalog
  import opened Release
  import opened Search
  import opened PriceSheet

  /** What the deals API returned: the HTTP status and, when the body decodes
      as JSON, the decoded response. */
  datatype Reply = Reply(status: int, body: Option<SaleResponse>)

  /** What the release task announces: the embed's title and the store page
      whose details fill it. */
  datatype Announcement = Announcement(name: Option<string>, siteUrl: Option<string>)

  /** A stored game the release task announces: not yet flagged released, but
      one of its dates has passed. */
  ghost predicate DueNow(doc: StoredGame, now: int) {
    !doc.released && Released(doc.entry.releaseDates, now)
  }

  /** A due game has the title and website keys its announcement reads. */
  ghost predicate AnnounceableAt(doc: StoredGame, now: int) {
    DueNow(doc, now) ==> NameKeys(doc.entry.titles.vals) && SiteKeys(SiteOrder, doc.entry.websites)
  }

  ghost predicate Announceable(docs: Dict<string, StoredGame>, now: int) {
    forall i :: 0 <= i < |docs.keys| ==> docs.keys[i] in docs.vals && AnnounceableAt(docs.vals[docs.keys[i]], now)
  }

  function Announce(doc: StoredGame): (a: Announcement)
    requires NameKeys(doc.entry.titles.vals) && SiteKeys(SiteOrder, doc.entry.websites)
    ensures a.siteUrl.None? || Truthy(a.siteUrl)
    ensures a.name.None? ==> doc.entry.titles.vals["NA"].None?
  {
    Announcement(ReleaseName(doc.entry.titles.vals), SiteUrl(doc.entry.websites))
  }

  /** The announcements for the first `n` stored games, in collection order. */
  ghost function Announcements(docs: Dict<string, StoredGame>, now: int, n: nat): seq<Announcement>
    requires n <= |docs.keys| && Announceable(docs, now)
  {
    if n == 0 then []
    else
      var doc := docs.vals[docs.keys[n - 1]];
      Announcements(docs, now, n - 1) + if DueNow(doc, now) then [Announce(doc)] else []
  }

  /** The release task announces exactly the due games. */
  lemma {:induction false} AnnouncedIff(docs: Dict<string, StoredGame>, now: int, n: nat, a: Announcement)
    requires n <= |docs.keys| && Announceable(docs, now)
    ensures a in Announcements(docs, now, n) <==>
      exists i :: 0 <= i < n && DueNow(docs.vals[docs.keys[i]], now) && a == Announce(docs.vals[docs.keys[i]])
  {
    if n > 0 {
      AnnouncedIff(docs, now, n - 1, a);
      var doc := docs.vals[docs.keys[n - 1]];
      if a in Announcements(docs, now, n) && a !in Announcements(docs, now, n - 1) {
        assert DueNow(doc, now) && a == Announce(doc);
      }
    }
  }

  /** `Visit` in the order the loop body does it: the cache entry is stored
      first and, for a new game, gains `released = False` afterwards. */
  lemma VisitAsWritten(st: State, g: UpstreamGame)
    requires StateOk(st)
    ensures var e := Project(g);
      var cache := st.cache.Put(g.id, CachedGame(e, None));
      Visit(st, g) ==
        if g.id !in st.docs.vals then
          State(cache.Put(g.id, CachedGame(e, Some(false))), st.docs.Put(g.id, StoredGame(e, false)),
                st.log + [Insert(StoredGame(e, false))])
        else if !Same(st.docs.vals[g.id].entry, e) then
          State(cache, st.docs.Put(g.id, SetFields(st.docs.vals[g.id], st.docs.vals[g.id].entry)),
                st.log + [Update(g.id, st.docs.vals[g.id].entry)])
        else State(cache, st.docs, st.log)
  {
    var e := Project(g);
    var cache := st.cache.Put(g.id, CachedGame(e, None));
    assert cache.Put(g.id, CachedGame(e, Some(false))) == st.cache.Put(g.id, CachedGame(e, Some(false)));
  }

  /** What `games search` answers. */
  datatype SearchReply =
    | Suggestions                                    // the fuzzy branch, lines 329-348
    | SearchError                                    // lines 350-353
    | PriceEmbed(title: string, description: string) // lines 399-400
    | Raised(failure: Failure)

  /** The `games search` command (lines 296-400) for query `query`, over the
      cache `games`, the stored documents `docs`, the sale data and the price
      collection `coll`. */
  function SearchResult(games: Dict<string, CachedGame>, docs: Dict<string, StoredGame>,
                        saleData: Option<SaleResponse>, coll: seq<PriceDoc>, query: string): (r: SearchReply)
    requires games.Valid() && TitlesOk(Entries(games)) && DocsOk(coll)
    requires saleData.Some? ==> WellFormed(saleData.value)
    ensures r == Suggestions <==> !IsListed(query, Attribute(Entries(games)).0)
    ensures r.PriceEmbed? ==> Matches(query, r.title)
  {
    var lists := Attribute(Entries(games));
    if !IsListed(query, lists.0) then Suggestions
    else
      var found := FirstMatch(lists.1, query);
      var gameId := if found.Some? then found.value.0 else "";
      var gameName := if found.Some? then found.value.1 else "";
      if gameId == "" || gameName == "" then SearchError
      else
        var doc := if gameId in docs.vals then Some(docs.vals[gameId]) else None;
        match Description(saleData, doc, PricesFor(coll, gameId))
        case Crash(f) => Raised(f)
        case Done(desc) => PriceEmbed(gameName, desc)
  }

  /** A listed query names the first cached game, in cache order, that has a
      matching title; an unlisted one gets the suggestions. */
  lemma SearchNamesFirstOwner(games: Dict<string, CachedGame>, docs: Dict<string, StoredGame>,
                              saleData: Option<SaleResponse>, coll: seq<PriceDoc>, query: string)
    requires games.Valid() && TitlesOk(Entries(games)) && DocsOk(coll)
    requires saleData.Some? ==> WellFormed(saleData.value)
    ensures var gs := Entries(games);
      && (SearchResult(games, docs, saleData, coll, query) == Suggestions <==> !IsListed(query, Attribute(gs).0))
      && (SearchResult(games, docs, saleData, coll, query).PriceEmbed? ==>
            exists j :: (0 <= j < |gs| && Some(SearchResult(games, docs, saleData, coll, query).title) in TitlesOf(gs[j])
              && Matches(query, SearchResult(games, docs, saleData, coll, query).title)
              && forall i, t :: 0 <= i < j && Some(t) in TitlesOf(gs[i]) ==> !Matches(query, t)))
  {
    ExactLookupFindsFirstOwner(Entries(games), query);
  }

  /** A found game without price documents gets the no-data notice. */
  lemma SearchWithoutPrices(games: Dict<string, CachedGame>, docs: Dict<string, StoredGame>,
                            saleData: Option<SaleResponse>, coll: seq<PriceDoc>, query: string)
    requires games.Valid() && TitlesOk(Entries(games)) && DocsOk(coll)
    requires saleData.Some? ==> WellFormed(saleData.value)
    requires var f := FirstMatch(Attribute(Entries(games)).1, query); f.Some? && f.value.0 != "" && f.value.1 != ""
    requires forall d :: d in coll ==> d.gameId != FirstMatch(Attribute(Entries(games)).1, query).value.0
    ensures SearchResult(games, docs, saleData, coll, query)
      == PriceEmbed(FirstMatch(Attribute(Entries(games)).1, query).value.1, NoPriceData)
  {
    var f := FirstMatch(Attribute(Entries(games)).1, query);
    ExactLookupFindsFirstOwner(Entries(games), query);
    NoPricesFor(coll, f.value.0);
  }

  class NintenDeals {
    /** `self.games`: the cache of projected games, keyed by id. */
    var games: Dict<string, CachedGame>
    /** `self.dealMessages`: the messages of the current deals list. */
    var dealMessages: seq<string>
    var gamesReady: bool
    var saleData: Option<SaleResponse>

    ghost predicate Valid()
      reads this
    {
      games.Valid() && (saleData.Some? ==> WellFormed(saleData.value))
    }

    constructor ()
      ensures Valid() && games == EmptyDict() && dealMessages == [] && !gamesReady && saleData == None
    {
      games := EmptyDict();
      dealMessages := [];
      gamesReady := false;
      saleData := None;
    }

    /** `update_game_info` (lines 84-120) over the upstream documents `upstream`. */
    method UpdateGameInfo(upstream: seq<UpstreamGame>, store: GameStore)
      requires Valid() && store.Valid()
      modifies this, store
      ensures Valid() && store.Valid()
      ensures State(games, store.docs, store.log)
        == Sync(State(old(games), old(store.docs), old(store.log)), SwitchGames(upstream))
      ensures gamesReady
      ensures dealMessages == old(dealMessages) && saleData == old(saleData)
    {
      var ups := SwitchGames(upstream);
      ghost var st0 := State(games, store.docs, store.log);
      var i := 0;
      assert ups[..0] == [];
      while i < |ups|
        invariant i <= |ups| && SyncedTo(st0, ups, i, store)
        modifies this`games, store
      {
        ReconcileNext(ups, i, st0, store);
        i := i + 1;
      }
      assert ups[..|ups|] == ups;
      gamesReady := true;
    }

    /** The cache and the store hold the pass of `st0` over the first `i` games of `ups`. */
    ghost predicate SyncedTo(st0: State, ups: seq<UpstreamGame>, i: nat, store: GameStore)
      reads this, store
    {
      Valid() && store.Valid() && StateOk(st0) && i <= |ups|
      && State(games, store.docs, store.log) == Sync(st0, ups[..i])
    }

    /** One turn of the loop of lines 85-118: the pass over the first `i`
        games becomes the pass over the first `i + 1`. */
    method ReconcileNext(ups: seq<UpstreamGame>, i: nat, ghost st0: State, store: GameStore)
      requires i < |ups| && SyncedTo(st0, ups, i, store)
      modifies this`games, store
      ensures SyncedTo(st0, ups, i + 1, store)
    {
      SyncStep(st0, ups, i);
      ReconcileOne(ups[i], store);
    }

    /** The body of the loop of lines 85-118 for one upstream game: the
        projection is cached, then inserted when the id is new, or its
        stored fields are `$set` back when the stored projection differs. */
    method ReconcileOne(game: UpstreamGame, store: GameStore)
      requires Valid() && store.Valid()
      modifies this`games, store
      ensures Valid() && store.Valid()
      ensures State(games, store.docs, store.log) == Visit(old(State(games, store.docs, store.log)), game)
    {
      VisitAsWritten(State(games, store.docs, store.log), game);
      var gameEntry := Project(game);
      var known := game.id in store.docs.vals;
      games := games.Put(game.id, CachedGame(gameEntry, None));
      if !known {
        // the cached object is the inserted one, so it has `released` too
        games := games.Put(game.id, CachedGame(gameEntry, Some(false)));
        var doc := StoredGame(gameEntry, false);
        store.docs := store.docs.Put(game.id, doc);
        store.log := store.log + [Insert(doc)];
      } else {
        var ourGame := store.docs.vals[game.id];
        var comparison := ourGame.entry;
        if !Same(comparison, gameEntry) {
          store.docs := store.docs.Put(game.id, SetFields(ourGame, comparison));
          store.log := store.log + [Update(game.id, comparison)];
        }
      }
    }

    /** `query_deals` (lines 184-287): the old list is dropped; a reply other
        than 200 ends the task; a body that does not decode leaves `saleData`
        as it was and the task fails before posting; otherwise the response
        becomes `saleData` and the new list is posted after `header`. */
    method QueryDeals(reply: Reply, header: string)
      requires Valid() && (reply.status == 200 && reply.body.Some? ==> DealsPriced(reply.body.value))
      modifies this
      ensures Valid()
      ensures games == old(games) && gamesReady == old(gamesReady)
      ensures reply.status != 200 || reply.body.None? ==> dealMessages == [] && saleData == old(saleData)
      ensures reply.status == 200 && reply.body.Some? ==>
        saleData == reply.body && dealMessages == DealMessages(reply.body.value, header)
    {
      dealMessages := [];
      if reply.status != 200 {
        return;
      }
      if reply.body.None? {
        return;
      }
      var resp := reply.body.value;
      saleData := Some(resp);
      dealMessages := BuildDealMessages(resp, header);
    }

    /** `new_release_posting` (lines 123-181): nothing before the catalog is
        ready; then, in collection order, an announcement for every stored game
        that is not flagged released but has a passed release date. */
    method NewReleasePosting(store: GameStore, now: int) returns (posts: seq<Announcement>)
      requires store.Valid() && Announceable(store.docs, now)
      ensures !gamesReady ==> posts == []
      ensures gamesReady ==> posts == Announcements(store.docs, now, |store.docs.keys|)
    {
      posts := [];
      if !gamesReady {
        return;
      }
      var i := 0;
      while i < |store.docs.keys|
        invariant 0 <= i <= |store.docs.keys|
        invariant posts == Announcements(store.docs, now, i)
      {
        var game := store.docs.vals[store.docs.keys[i]];
        i := i + 1;
        if game.released {
          continue;
        }
        var nowReleased := IsReleased(game.entry.releaseDates, now);
        if !nowReleased {
          continue;
        }
        var name := ReleaseName(game.entry.titles.vals);
        var siteUrl := SiteUrl(game.entry.websites);
        posts := posts + [Announcement(name, siteUrl)];
      }
    }

    /** `games search` (lines 296-400) in the order the command works: the
        title lists, the exact lookup, the stored document and the price
        documents of the game, then the price sheet. */
    method GamesSearch(query: string, store: GameStore, coll: seq<PriceDoc>) returns (reply: SearchReply)
      requires Valid() && TitlesOk(Entries(games)) && DocsOk(coll)
      ensures reply == SearchResult(games, store.docs, saleData, coll, query)
    {
      var fuzzyList, titleList := BuildTitleLists(games);
      if !IsListed(query, fuzzyList) {
        return Suggestions;
      }
      var gameID, gameName := ExactLookup(titleList, query);
      if gameID == "" || gameName == "" {
        return SearchError;
      }
      var doc := if gameID in store.docs.vals then Some(store.docs.vals[gameID]) else None;
      var prices := PricesFor(coll, gameID);
      var desc := PriceDescription(doc, prices);
      if desc.Crash? {
        return Raised(desc.failure);
      }
      return PriceEmbed(gameName, desc.value);
    }

    /** Lines 358-397: the notice when the game has no price documents,
        otherwise the merged prices rendered. */
    method PriceDescription(doc: Option<StoredGame>, prices: seq<PriceDoc>) returns (desc: Outcome<string>)
      requires Valid() && DocsOk(prices)
      ensures desc == Description(saleData, doc, prices)
    {
      if |prices| == 0 {
        return Done(NoPriceData);
      }
      var live := FindLive(saleData, doc);
      if live.Crash? {
        return Crash(live.failure);
      }
      var gamePrices := MergeHistory(live.value, prices);
      desc := Describe(gamePrices.Items(), saleData.value.currencies);
    }
  }
}
