/** The game catalog that `update_game_info` keeps (cogs/utility.py:84-120):
    every Switch game of the upstream deals database is projected onto the
    fields the bot keeps, stored in the in-memory cache `self.games`, and
    reconciled with the bot's own `games` collection. */
module Catalog {
  import opened Py

  datatype Scores = Scores(metascore: string, userscore: string)

  /** `gameEntry`: the projection of an upstream game onto the kept fields.
      The titles keep their dict order, which the title search walks. */
  datatype GameEntry = GameEntry(
    id: string,
    nsuids: map<string, Option<string>>,
    titles: Dict<string, Option<string>>,
    releaseDates: map<string, Option<int>>,
    categories: seq<string>,
    websites: map<string, Option<string>>,
    scores: Scores,
    freeToPlay: bool)

  /** A document of the upstream deals database. `extra` stands for every
      field the projection drops, scores other than the two kept among them. */
  datatype UpstreamGame = UpstreamGame(
    id: string,
    system: string,
    nsuids: map<string, Option<string>>,
    titles: Dict<string, Option<string>>,
    releaseDates: map<string, Option<int>>,
    categories: seq<string>,
    websites: map<string, Option<string>>,
    scores: Scores,
    freeToPlay: bool,
    extra: map<string, string>)

  /** A document of the bot's `games` collection: the kept fields and the
      `released` flag that the release task reads. */
  datatype StoredGame = StoredGame(entry: GameEntry, released: bool)

  /** A cache value. The cache holds the same dict object that is inserted
      into the collection for a new game, so that object also has
      `released = False` (lines 99-103); for a known game it has no such key. */
  datatype CachedGame = CachedGame(entry: GameEntry, released: Option<bool>)

  /** A write to the `games` collection. */
  datatype Write = Insert(doc: StoredGame) | Update(id: string, fields: GameEntry)

  /** The cache, the collection in its natural order, and the writes issued. */
  datatype State = State(cache: Dict<string, CachedGame>, docs: Dict<string, StoredGame>, log: seq<Write>)

  ghost predicate StateOk(st: State) {
    st.cache.Valid() && st.docs.Valid()
  }

  /** The documents `find({'system': 'Switch'})` returns, in order (line 84). */
  function SwitchGames(all: seq<UpstreamGame>): (r: seq<UpstreamGame>)
    ensures forall g :: g in r <==> g in all && g.system == "Switch"
    decreases |all|
  {
    if all == [] then []
    else SwitchGames(all[..|all| - 1]) + if all[|all| - 1].system == "Switch" then [all[|all| - 1]] else []
  }

  /** `gameEntry` (lines 87-97). */
  function Project(g: UpstreamGame): (e: GameEntry)
    ensures e.id == g.id && e.titles == g.titles && e.releaseDates == g.releaseDates
    ensures e.websites == g.websites && e.scores == g.scores
  {
    GameEntry(g.id, g.nsuids, g.titles, g.releaseDates, g.categories, g.websites, g.scores, g.freeToPlay)
  }

  /** Python's `==` on two projections: dict fields compare by contents, not order. */
  predicate Same(a: GameEntry, b: GameEntry): (r: bool)
    ensures r <==> a.(titles := b.titles) == b && a.titles.vals == b.titles.vals
  {
    && a.id == b.id && a.nsuids == b.nsuids && a.titles.vals == b.titles.vals
    && a.releaseDates == b.releaseDates && a.categories == b.categories
    && a.websites == b.websites && a.scores == b.scores && a.freeToPlay == b.freeToPlay
  }

  /** `update_one(..., {'$set': fields})`: the kept fields are replaced and the
      rest of the document stays. */
  function SetFields(doc: StoredGame, fields: GameEntry): (d: StoredGame)
    ensures d.released == doc.released && d.entry == fields
  {
    StoredGame(fields, doc.released)
  }

  /** One iteration of the reconciliation loop (lines 85-118) for upstream game `g`. */
  function Visit(st: State, g: UpstreamGame): (r: State)
    requires StateOk(st)
    ensures StateOk(r)
    ensures g.id in r.cache.vals && g.id in r.docs.vals
    ensures |st.log| <= |r.log| <= |st.log| + 1
  {
    var e := Project(g);
    if g.id !in st.docs.vals then
      var doc := StoredGame(e, false);
      State(st.cache.Put(g.id, CachedGame(e, Some(false))), st.docs.Put(g.id, doc), st.log + [Insert(doc)])
    else
      var cache := st.cache.Put(g.id, CachedGame(e, None));
      var ourGame := st.docs.vals[g.id];
      var comparison := ourGame.entry;
      if !Same(comparison, e) then
        State(cache, st.docs.Put(g.id, SetFields(ourGame, comparison)), st.log + [Update(g.id, comparison)])
      else State(cache, st.docs, st.log)
  }

  /** The state after the loop has visited `ups` in order. */
  function Sync(st: State, ups: seq<UpstreamGame>): (r: State)
    requires StateOk(st)
    ensures StateOk(r)
    ensures |st.log| <= |r.log| <= |st.log| + |ups|
    ensures st.docs.vals.Keys <= r.docs.vals.Keys
    decreases |ups|
  {
    if ups == [] then st else Visit(Sync(st, ups[..|ups| - 1]), ups[|ups| - 1])
  }

  /** The first game of `ups` with id `id`, if any. */
  function FirstWithId(ups: seq<UpstreamGame>, id: string): (r: Option<UpstreamGame>)
    ensures r.Some? ==> r.value in ups && r.value.id == id
    ensures r.None? ==> forall g :: g in ups ==> g.id != id
    decreases |ups|
  {
    if ups == [] then None
    else if ups[0].id == id then Some(ups[0])
    else FirstWithId(ups[1..], id)
  }

  /** The last game of `ups` with id `id`, if any. */
  function LastWithId(ups: seq<UpstreamGame>, id: string): (r: Option<UpstreamGame>)
    ensures r.Some? ==> r.value in ups && r.value.id == id
    ensures r.None? ==> forall g :: g in ups ==> g.id != id
    decreases |ups|
  {
    if ups == [] then None
    else if ups[|ups| - 1].id == id then Some(ups[|ups| - 1])
    else LastWithId(ups[..|ups| - 1], id)
  }

  lemma SyncStep(st: State, ups: seq<UpstreamGame>, i: nat)
    requires StateOk(st) && i < |ups|
    ensures Sync(st, ups[..i + 1]) == Visit(Sync(st, ups[..i]), ups[i])
  {
    assert ups[..i + 1][..i] == ups[..i];
  }

  /** After a pass every upstream game is in the cache, holding the projection
      of the last upstream game with its id; other cache entries are kept. */
  lemma {:induction false} SyncCache(st: State, ups: seq<UpstreamGame>, id: string)
    requires StateOk(st)
    ensures LastWithId(ups, id).Some? ==>
      id in Sync(st, ups).cache.vals && Sync(st, ups).cache.vals[id].entry == Project(LastWithId(ups, id).value)
    ensures LastWithId(ups, id).None? ==>
      (id in Sync(st, ups).cache.vals <==> id in st.cache.vals)
      && (id in st.cache.vals ==> Sync(st, ups).cache.vals[id] == st.cache.vals[id])
    decreases |ups|
  {
    if ups != [] {
      var init := ups[..|ups| - 1];
      SyncCache(st, init, id);
      VisitCache(Sync(st, init), ups[|ups| - 1], id);
    }
  }

  /** What a visit does to the cache entry of `id`. */
  lemma VisitCache(st: State, g: UpstreamGame, id: string)
    requires StateOk(st)
    ensures var r := Visit(st, g).cache.vals;
      && (id == g.id ==> id in r && r[id].entry == Project(g))
      && (id != g.id ==> (id in r <==> id in st.cache.vals) && (id in st.cache.vals ==> r[id] == st.cache.vals[id]))
  {
  }

  /** What a visit does to the document of `id`: a new game's document is
      inserted with `released = false`, and a stored document stays as it is. */
  lemma VisitDoc(st: State, g: UpstreamGame, id: string)
    requires StateOk(st)
    ensures var r := Visit(st, g).docs.vals;
      && (id in st.docs.vals ==> id in r && r[id] == st.docs.vals[id])
      && (id !in st.docs.vals && id == g.id ==> id in r && r[id] == StoredGame(Project(g), false))
      && (id !in st.docs.vals && id != g.id ==> id !in r)
  {
    if id in st.docs.vals && id == g.id {
      var ourGame := st.docs.vals[id];
      assert SetFields(ourGame, ourGame.entry) == ourGame;
    }
  }

  /** A document already in the collection is never changed by a pass: an
      update `$set`s the values it just read from that document (line 118). */
  lemma {:induction false} SyncKeepsStored(st: State, ups: seq<UpstreamGame>, id: string)
    requires StateOk(st) && id in st.docs.vals
    ensures id in Sync(st, ups).docs.vals && Sync(st, ups).docs.vals[id] == st.docs.vals[id]
    decreases |ups|
  {
    if ups != [] {
      var init := ups[..|ups| - 1];
      SyncKeepsStored(st, init, id);
      VisitDoc(Sync(st, init), ups[|ups| - 1], id);
    }
  }

  /** A game missing from the collection is inserted with `released = false`,
      holding the projection of the first upstream game with its id; an id
      that is nowhere upstream stays missing. */
  lemma {:induction false} SyncInsertsNew(st: State, ups: seq<UpstreamGame>, id: string)
    requires StateOk(st) && id !in st.docs.vals
    ensures FirstWithId(ups, id).Some? ==>
      id in Sync(st, ups).docs.vals && Sync(st, ups).docs.vals[id] == StoredGame(Project(FirstWithId(ups, id).value), false)
    ensures FirstWithId(ups, id).None? ==> id !in Sync(st, ups).docs.vals
    decreases |ups|
  {
    if ups != [] {
      var init := ups[..|ups| - 1];
      SyncInsertsNew(st, init, id);
      InsertsNewStep(Sync(st, init), ups, id);
    }
  }

  lemma InsertsNewStep(s: State, ups: seq<UpstreamGame>, id: string)
    requires StateOk(s) && ups != []
    requires FirstWithId(ups[..|ups| - 1], id).Some? ==>
      id in s.docs.vals && s.docs.vals[id] == StoredGame(Project(FirstWithId(ups[..|ups| - 1], id).value), false)
    requires FirstWithId(ups[..|ups| - 1], id).None? ==> id !in s.docs.vals
    ensures var g := ups[|ups| - 1]; FirstWithId(ups, id).Some? ==>
      id in Visit(s, g).docs.vals && Visit(s, g).docs.vals[id] == StoredGame(Project(FirstWithId(ups, id).value), false)
    ensures FirstWithId(ups, id).None? ==> id !in Visit(s, ups[|ups| - 1]).docs.vals
  {
    FirstWithIdSnoc(ups, id);
    VisitDoc(s, ups[|ups| - 1], id);
  }

  lemma FirstWithIdSnoc(ups: seq<UpstreamGame>, id: string)
    requires ups != []
    ensures var init := ups[..|ups| - 1]; FirstWithId(ups, id) == if FirstWithId(init, id).Some? then FirstWithId(init, id)
      else if ups[|ups| - 1].id == id then Some(ups[|ups| - 1]) else None
  {
    FirstWithIdAppend(ups[..|ups| - 1], ups[|ups| - 1], id);
    assert ups[..|ups| - 1] + [ups[|ups| - 1]] == ups;
  }

  lemma {:induction false} FirstWithIdAppend(ups: seq<UpstreamGame>, g: UpstreamGame, id: string)
    ensures FirstWithId(ups + [g], id) == if FirstWithId(ups, id).Some? then FirstWithId(ups, id)
      else if g.id == id then Some(g) else None
    decreases |ups|
  {
    if ups == [] {
      assert [g][1..] == [];
    } else {
      assert (ups + [g])[1..] == ups[1..] + [g];
      FirstWithIdAppend(ups[1..], g, id);
    }
  }

  /** A pass writes nothing when every upstream game is stored with equal fields. */
  lemma {:induction false} SyncQuietWhenCurrent(st: State, ups: seq<UpstreamGame>)
    requires StateOk(st)
    requires forall g :: g in ups ==> g.id in st.docs.vals && Same(st.docs.vals[g.id].entry, Project(g))
    ensures Sync(st, ups).log == st.log && Sync(st, ups).docs == st.docs
    decreases |ups|
  {
    if ups != [] {
      SyncQuietWhenCurrent(st, ups[..|ups| - 1]);
      assert ups[|ups| - 1] in ups;
    }
  }

  /** A write issued by a pass that started from the documents `before` and
      ended with the documents `after`: the insert of a game that was not
      stored, with `released = false`, or an update whose fields are what the
      document holds after the pass. */
  predicate WriteOk(w: Write, before: map<string, StoredGame>, after: map<string, StoredGame>) {
    match w
    case Insert(doc) => doc.entry.id !in before && !doc.released
    case Update(id, fields) => id in after && fields == after[id].entry
  }

  /** A pass only appends to the write log, and every write it appends is
      `WriteOk`; so no update ever changes a document. */
  lemma {:induction false} SyncWrites(st: State, ups: seq<UpstreamGame>)
    requires StateOk(st)
    ensures |Sync(st, ups).log| >= |st.log| && Sync(st, ups).log[..|st.log|] == st.log
    ensures forall j :: |st.log| <= j < |Sync(st, ups).log| ==>
      WriteOk(Sync(st, ups).log[j], st.docs.vals, Sync(st, ups).docs.vals)
    decreases |ups|
  {
    if ups != [] {
      var init := ups[..|ups| - 1];
      SyncWrites(st, init);
      var s := Sync(st, init);
      var g := ups[|ups| - 1];
      var r := Visit(s, g);
      assert r == Sync(st, ups);
      VisitKeepsStored(s, g);
      assert r.log[..|s.log|] == s.log;
      assert r.log[..|st.log|] == r.log[..|s.log|][..|st.log|] == s.log[..|st.log|] == st.log;
      if g.id in st.docs.vals {
        SyncKeepsStored(st, init, g.id);
      }
      VisitWriteOk(st.docs.vals, s, g);
      forall j | |st.log| <= j < |r.log| ensures WriteOk(r.log[j], st.docs.vals, r.docs.vals) {
        if j < |s.log| {
          assert r.log[j] == r.log[..|s.log|][j];
          WriteOkAfterVisit(s.log[j], st.docs.vals, s, g);
        }
      }
    }
  }

  /** The write a visit issues is `WriteOk` against any earlier collection
      that the visited state extends. */
  lemma VisitWriteOk(before: map<string, StoredGame>, s: State, g: UpstreamGame)
    requires StateOk(s)
    requires g.id in before ==> g.id in s.docs.vals
    ensures forall j :: |s.log| <= j < |Visit(s, g).log| ==> WriteOk(Visit(s, g).log[j], before, Visit(s, g).docs.vals)
  {
  }

  /** A write that was `WriteOk` stays so after one more visit. */
  lemma WriteOkAfterVisit(w: Write, before: map<string, StoredGame>, s: State, g: UpstreamGame)
    requires StateOk(s) && WriteOk(w, before, s.docs.vals)
    ensures WriteOk(w, before, Visit(s, g).docs.vals)
  {
    VisitKeepsStored(s, g);
  }

  /** A visit keeps every stored document as it is. */
  lemma VisitKeepsStored(st: State, g: UpstreamGame)
    requires StateOk(st)
    ensures |Visit(st, g).log| >= |st.log| && Visit(st, g).log[..|st.log|] == st.log
    ensures forall id :: id in st.docs.vals ==> id in Visit(st, g).docs.vals && Visit(st, g).docs.vals[id] == st.docs.vals[id]
  {
  }

  /** A second pass over the same upstream games leaves the collection as the
      first pass left it. */
  lemma SecondPassKeepsDocs(st: State, ups: seq<UpstreamGame>)
    requires StateOk(st)
    ensures Sync(Sync(st, ups), ups).docs.vals == Sync(st, ups).docs.vals
  {
    var s := Sync(st, ups).docs.vals;
    var t := Sync(Sync(st, ups), ups).docs.vals;
    forall id ensures (id in t <==> id in s) && (id in s ==> t[id] == s[id]) {
      SecondPassDoc(st, ups, id);
    }
  }

  lemma SecondPassDoc(st: State, ups: seq<UpstreamGame>, id: string)
    requires StateOk(st)
    ensures var s := Sync(st, ups);
      (id in Sync(s, ups).docs.vals <==> id in s.docs.vals)
      && (id in s.docs.vals ==> Sync(s, ups).docs.vals[id] == s.docs.vals[id])
  {
    var s := Sync(st, ups);
    if id in s.docs.vals {
      SyncKeepsStored(s, ups, id);
    } else {
      SyncInsertsNew(s, ups, id);
      if FirstWithId(ups, id).Some? {
        SyncKeepsStoredIfAbsent(st, ups, id);
      }
    }
  }

  /** When each upstream id names one game and every stored upstream game
      already holds its current projection, a second pass issues no write
      and changes no document: the first pass inserted the new games with
      exactly the fields the second pass compares them with. A stored game
      whose fields differ is updated again by every pass (line 118 writes
      back the stored values), which is why the requirement is there. */
  lemma SecondPassQuiet(st: State, ups: seq<UpstreamGame>)
    requires StateOk(st)
    requires forall a, b :: a in ups && b in ups && a.id == b.id ==> a == b
    requires forall g :: g in ups && g.id in st.docs.vals ==> Same(st.docs.vals[g.id].entry, Project(g))
    ensures Sync(Sync(st, ups), ups).log == Sync(st, ups).log
    ensures Sync(Sync(st, ups), ups).docs == Sync(st, ups).docs
  {
    var s := Sync(st, ups);
    forall g | g in ups ensures g.id in s.docs.vals && Same(s.docs.vals[g.id].entry, Project(g)) {
      if g.id in st.docs.vals {
        SyncKeepsStored(st, ups, g.id);
      } else {
        SyncInsertsNew(st, ups, g.id);
      }
    }
    SyncQuietWhenCurrent(s, ups);
  }

  /** The id a write is about. */
  function WriteId(w: Write): string {
    match w
    case Insert(doc) => doc.entry.id
    case Update(id, _) => id
  }

  /** One visit writes only about the visited id, and about a stored id
      whose fields are `Same` as the projection it does not write at all. */
  lemma VisitQuietFor(st: State, g: UpstreamGame, id: string)
    requires StateOk(st) && id in st.docs.vals
    requires g.id == id ==> Same(st.docs.vals[id].entry, Project(g))
    ensures forall j :: |st.log| <= j < |Visit(st, g).log| ==> WriteId(Visit(st, g).log[j]) != id
  {
  }

  /** Per id: a stored game whose fields equal the projection of every
      upstream game with its id gets no write in a pass. */
  lemma {:induction false} SyncQuietFor(st: State, ups: seq<UpstreamGame>, id: string)
    requires StateOk(st) && id in st.docs.vals
    requires forall g :: g in ups && g.id == id ==> Same(st.docs.vals[id].entry, Project(g))
    ensures forall j :: |st.log| <= j < |Sync(st, ups).log| ==> WriteId(Sync(st, ups).log[j]) != id
    decreases |ups|
  {
    if ups != [] {
      var init := ups[..|ups| - 1];
      var g := ups[|ups| - 1];
      assert forall h :: h in init ==> h in ups;
      SyncQuietFor(st, init, id);
      var s := Sync(st, init);
      SyncKeepsStored(st, init, id);
      assert g in ups;
      VisitQuietFor(s, g, id);
      VisitKeepsStored(s, g);
      var r := Visit(s, g);
      assert r == Sync(st, ups);
      forall j | |st.log| <= j < |r.log| ensures WriteId(r.log[j]) != id {
        if j < |s.log| {
          assert r.log[j] == r.log[..|s.log|][j];
        }
      }
    }
  }

  /** An id that some upstream game has is in the collection after a pass. */
  lemma SyncKeepsStoredIfAbsent(st: State, ups: seq<UpstreamGame>, id: string)
    requires StateOk(st) && FirstWithId(ups, id).Some?
    ensures id in Sync(st, ups).docs.vals
  {
    if id in st.docs.vals {
      SyncKeepsStored(st, ups, id);
    } else {
      SyncInsertsNew(st, ups, id);
    }
  }

  /** The collection, the writes issued and the `released` flag of the documents. */
  class GameStore {
    var docs: Dict<string, StoredGame>
    var log: seq<Write>

    ghost predicate Valid()
      reads this
    {
      docs.Valid()
    }

    constructor (docs: Dict<string, StoredGame>)
      requires docs.Valid()
      ensures Valid() && this.docs == docs && log == []
    {
      this.docs := docs;
      log := [];
    }
  }
}
