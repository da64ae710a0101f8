/** The `games search` command (cogs/utility.py:294-400): the exact title
    lookup over the cached catalog and the merge of live and historical prices. */
module Search {
  import opened Py
  import opened Deals
  import opened Catalog

  // ---------------------------------------------------------------------
  // The title lists (lines 304-316)
  // ---------------------------------------------------------------------

  /** The cached entries in cache order (`self.games.values()`). */
  function Entries(games: Dict<string, CachedGame>): (gs: seq<GameEntry>)
    requires games.Valid()
    ensures |gs| == |games.keys|
    ensures forall i :: 0 <= i < |gs| ==> gs[i] == games.vals[games.keys[i]].entry
  {
    seq(|games.keys|, i requires 0 <= i < |games.keys| => games.vals[games.keys[i]].entry)
  }

  /** Every entry's titles form a dict. */
  ghost predicate TitlesOk(gs: seq<GameEntry>) {
    forall i :: 0 <= i < |gs| ==> gs[i].titles.Valid()
  }

  /** The title values of an entry, in dict order. */
  function TitlesOf(e: GameEntry): seq<Option<string>>
    requires e.titles.Valid()
  {
    e.titles.Values()
  }

  /** The titles of `ys` the inner loop keeps when `seen` is `fuzzyList` so
      far: the non-null ones not seen before, each once, in order. */
  function Fresh(ys: seq<Option<string>>, seen: seq<string>): (added: seq<string>)
    ensures forall t :: t in added <==> t !in seen && Some(t) in ys
    ensures Distinct(seen) ==> Distinct(seen + added)
    decreases |ys|
  {
    if ys == [] then []
    else
      var a := Fresh(ys[..|ys| - 1], seen);
      var y := ys[|ys| - 1];
      assert forall t :: Some(t) in ys <==> Some(t) in ys[..|ys| - 1] || y == Some(t);
      if y.None? || y.value in seen + a then a
      else
        assert seen + (a + [y.value]) == (seen + a) + [y.value];
        a + [y.value]
  }

  /** `fuzzyList` and `titleList` after the outer loop has visited `gs`:
      each game is listed with the titles attributed to it. */
  function Attribute(gs: seq<GameEntry>): (r: (seq<string>, seq<(string, seq<string>)>))
    requires TitlesOk(gs)
    ensures |r.1| == |gs|
    decreases |gs|
  {
    if gs == [] then ([], [])
    else
      var prev := Attribute(gs[..|gs| - 1]);
      var g := gs[|gs| - 1];
      var added := Fresh(TitlesOf(g), prev.0);
      (prev.0 + added, prev.1 + [(g.id, added)])
  }

  /** The nested loops of lines 304-316. */
  method BuildTitleLists(games: Dict<string, CachedGame>) returns (fuzzyList: seq<string>, titleList: seq<(string, seq<string>)>)
    requires games.Valid() && TitlesOk(Entries(games))
    ensures (fuzzyList, titleList) == Attribute(Entries(games))
  {
    ghost var gs := Entries(games);
    fuzzyList, titleList := [], [];
    var n := 0;
    assert gs[..0] == [];
    while n < |games.keys|
      invariant 0 <= n <= |games.keys|
      invariant (fuzzyList, titleList) == Attribute(gs[..n])
    {
      var x := games.vals[games.keys[n]].entry;
      AttributeStep(gs, n);
      var titles;
      fuzzyList, titles := AddTitles(x.titles.Values(), fuzzyList);
      titleList := titleList + [(x.id, titles)];
      n := n + 1;
    }
    assert gs[..|games.keys|] == gs;
  }

  /** The inner loop of lines 307-312 over one game's title values `ys`:
      each non-null title not yet in `fuzzyList` is appended to it and to the
      game's own `titles`. */
  method AddTitles(ys: seq<Option<string>>, seen: seq<string>) returns (fuzzyList: seq<string>, titles: seq<string>)
    ensures titles == Fresh(ys, seen) && fuzzyList == seen + titles
  {
    fuzzyList, titles := seen, [];
    var j := 0;
    assert ys[..0] == [];
    while j < |ys|
      invariant 0 <= j <= |ys|
      invariant titles == Fresh(ys[..j], seen)
      invariant fuzzyList == seen + titles
    {
      var y := ys[j];
      FreshStep(ys, j, seen);
      j := j + 1;
      if y == None {
        continue;
      }
      if y.value in fuzzyList {
        continue;
      }
      fuzzyList := fuzzyList + [y.value];
      titles := titles + [y.value];
    }
    assert ys[..|ys|] == ys;
  }

  /** One pass of the outer loop. */
  lemma AttributeStep(gs: seq<GameEntry>, n: nat)
    requires TitlesOk(gs) && n < |gs|
    ensures TitlesOk(gs[..n]) && TitlesOk(gs[..n + 1])
    ensures var prev := Attribute(gs[..n]);
      var added := Fresh(TitlesOf(gs[n]), prev.0);
      Attribute(gs[..n + 1]) == (prev.0 + added, prev.1 + [(gs[n].id, added)])
  {
    assert gs[..n + 1][..n] == gs[..n];
  }

  /** One pass of the inner loop. */
  lemma FreshStep(ys: seq<Option<string>>, j: nat, seen: seq<string>)
    requires j < |ys|
    ensures var a := Fresh(ys[..j], seen);
      Fresh(ys[..j + 1], seen) ==
        if ys[j].None? || ys[j].value in seen + a then a else a + [ys[j].value]
  {
    assert ys[..j + 1][..j] == ys[..j];
  }

  /** `fuzzyList` lists every non-null title of the catalog exactly once. */
  lemma FuzzyListIsAllTitles(gs: seq<GameEntry>, t: string)
    requires TitlesOk(gs)
    ensures Distinct(Attribute(gs).0)
    ensures t in Attribute(gs).0 <==> exists i :: 0 <= i < |gs| && Some(t) in TitlesOf(gs[i])
  {
    FuzzyListDistinct(gs);
    FuzzyListHas(gs, t);
  }

  lemma {:induction false} FuzzyListDistinct(gs: seq<GameEntry>)
    requires TitlesOk(gs)
    ensures Distinct(Attribute(gs).0)
    decreases |gs|
  {
    if gs != [] {
      FuzzyListDistinct(gs[..|gs| - 1]);
    }
  }

  lemma {:induction false} FuzzyListHas(gs: seq<GameEntry>, t: string)
    requires TitlesOk(gs)
    ensures t in Attribute(gs).0 <==> exists i :: 0 <= i < |gs| && Some(t) in TitlesOf(gs[i])
    decreases |gs|
  {
    if gs != [] {
      FuzzyListHas(gs[..|gs| - 1], t);
      HasTitleSnoc(gs, t);
    }
  }

  /** Some game of `gs` has title `t` exactly when one before the last has
      it or the last one has it. */
  lemma HasTitleSnoc(gs: seq<GameEntry>, t: string)
    requires TitlesOk(gs) && gs != []
    ensures var gs' := gs[..|gs| - 1];
      TitlesOk(gs') &&
      ((exists i :: 0 <= i < |gs| && Some(t) in TitlesOf(gs[i])) <==>
       (exists i :: 0 <= i < |gs'| && Some(t) in TitlesOf(gs'[i])) || Some(t) in TitlesOf(gs[|gs| - 1]))
  {
    var gs' := gs[..|gs| - 1];
    if exists i :: 0 <= i < |gs| && Some(t) in TitlesOf(gs[i]) {
      var i :| 0 <= i < |gs| && Some(t) in TitlesOf(gs[i]);
      if i < |gs| - 1 {
        assert gs'[i] == gs[i];
      }
    }
    if exists i :: 0 <= i < |gs'| && Some(t) in TitlesOf(gs'[i]) {
      var i :| 0 <= i < |gs'| && Some(t) in TitlesOf(gs'[i]);
      assert gs[i] == gs'[i];
    }
  }

  /** The titles listed with game `j` are its own non-null titles that no
      earlier game has, and each one of its non-null titles is listed with it
      or with an earlier game. */
  lemma {:induction false} AttributedToFirstOwner(gs: seq<GameEntry>, j: nat, t: string)
    requires TitlesOk(gs) && j < |gs|
    ensures Attribute(gs).1[j].0 == gs[j].id
    ensures t in Attribute(gs).1[j].1 <==>
      Some(t) in TitlesOf(gs[j]) && forall i :: 0 <= i < j ==> Some(t) !in TitlesOf(gs[i])
    decreases |gs|
  {
    var gs' := gs[..|gs| - 1];
    if j < |gs| - 1 {
      AttributedToFirstOwner(gs', j, t);
      assert Attribute(gs).1[j] == Attribute(gs').1[j];
      assert gs'[j] == gs[j];
      forall i | 0 <= i < j ensures gs'[i] == gs[i] { }
    } else {
      FuzzyListIsAllTitles(gs', t);
      forall i | 0 <= i < j ensures gs'[i] == gs[i] { }
    }
  }

  // ---------------------------------------------------------------------
  // The exact lookup (lines 316-327)
  // ---------------------------------------------------------------------

  /** `game.upper() == y.upper()`. */
  predicate Matches(query: string, t: string) {
    Upper(query) == Upper(t)
  }

  /** The condition of line 316: the query is some listed title, ignoring case. */
  predicate IsListed(query: string, fuzzyList: seq<string>) {
    exists t :: t in fuzzyList && Matches(query, t)
  }

  /** The first title of `ts` that matches. */
  function FirstMatchIn(ts: seq<string>, query: string): (r: Option<nat>)
    ensures r.Some? ==> r.value < |ts| && Matches(query, ts[r.value])
    ensures r.Some? ==> forall k :: 0 <= k < r.value ==> !Matches(query, ts[k])
    ensures r.None? ==> forall k :: 0 <= k < |ts| ==> !Matches(query, ts[k])
    decreases |ts|
  {
    if ts == [] then None
    else if Matches(query, ts[0]) then Some(0)
    else match FirstMatchIn(ts[1..], query)
      case None => None
      case Some(k) => Some(k + 1)
  }

  /** The game id and title the nested search loop settles on: the first
      listed game with a matching title, and its first matching title. */
  function FirstMatch(titleList: seq<(string, seq<string>)>, query: string): (r: Option<(string, string)>)
    ensures r.Some? ==> exists j :: (0 <= j < |titleList| && r.value.0 == titleList[j].0
      && r.value.1 in titleList[j].1 && Matches(query, r.value.1)
      && forall i, t :: 0 <= i < j && t in titleList[i].1 ==> !Matches(query, t))
    ensures r.None? ==> forall i, t :: 0 <= i < |titleList| && t in titleList[i].1 ==> !Matches(query, t)
    decreases |titleList|
  {
    if titleList == [] then None
    else match FirstMatchIn(titleList[0].1, query)
      case Some(k) =>
        Some((titleList[0].0, titleList[0].1[k]))
      case None =>
        var r := FirstMatch(titleList[1..], query);
        assert forall i :: 1 <= i < |titleList| ==> titleList[i] == titleList[1..][i - 1];
        if r.Some? then
          var j :| 0 <= j < |titleList[1..]| && r.value.0 == titleList[1..][j].0
            && r.value.1 in titleList[1..][j].1 && Matches(query, r.value.1)
            && forall i, t :: 0 <= i < j && t in titleList[1..][i].1 ==> !Matches(query, t);
          assert r.value.0 == titleList[j + 1].0;
          r
        else r
  }

  /** Lines 316-327 once the query is listed: the nested loops with the
      `done` flag; `gameID` and `gameName` stay empty when nothing matches. */
  method ExactLookup(titleList: seq<(string, seq<string>)>, game: string) returns (gameID: string, gameName: string)
    ensures FirstMatch(titleList, game).Some? ==> (gameID, gameName) == FirstMatch(titleList, game).value
    ensures FirstMatch(titleList, game).None? ==> gameID == "" && gameName == ""
  {
    gameID, gameName := "", "";
    var done := false;
    var n := 0;
    while n < |titleList|
      invariant 0 <= n <= |titleList|
      invariant !done ==> gameID == "" && gameName == ""
      invariant !done ==> FirstMatch(titleList, game) == FirstMatch(titleList[n..], game)
      invariant done ==> FirstMatch(titleList, game) == Some((gameID, gameName))
      decreases |titleList| - n, if done then 0 else 1
    {
      if done {
        break;
      }
      var key := titleList[n].0;
      var value := titleList[n].1;
      assert titleList[n..][0] == titleList[n] && titleList[n..][1..] == titleList[n + 1..];
      var k := MatchingTitle(value, game);
      if k.Some? {
        gameID, gameName := key, value[k.value];
        done := true;
      }
      n := n + 1;
    }
    if !done {
      assert titleList[n..] == [];
    }
  }

  /** The inner loop of lines 320-325: the index of the first title of `ts`
      that matches the query, if any. */
  method MatchingTitle(ts: seq<string>, query: string) returns (k: Option<nat>)
    ensures k == FirstMatchIn(ts, query)
  {
    var m := 0;
    while m < |ts|
      invariant 0 <= m <= |ts|
      invariant forall i :: 0 <= i < m ==> !Matches(query, ts[i])
    {
      if Upper(query) == Upper(ts[m]) {
        FirstMatchInAt(ts, query, m);
        return Some(m);
      }
      m := m + 1;
    }
    NoMatchIn(ts, query);
    return None;
  }

  lemma FirstMatchInAt(ts: seq<string>, query: string, k: nat)
    requires k < |ts| && Matches(query, ts[k])
    requires forall m :: 0 <= m < k ==> !Matches(query, ts[m])
    ensures FirstMatchIn(ts, query) == Some(k)
  {
  }

  lemma NoMatchIn(ts: seq<string>, query: string)
    requires forall m :: 0 <= m < |ts| ==> !Matches(query, ts[m])
    ensures FirstMatchIn(ts, query).None?
  {
  }

  /** The exact lookup finds a game exactly when the query is listed, and then
      it is the first game in cache order with a matching non-null title; the
      title found is one of that game's. */
  lemma ExactLookupFindsFirstOwner(gs: seq<GameEntry>, query: string)
    requires TitlesOk(gs)
    ensures var r := FirstMatch(Attribute(gs).1, query);
      && (r.Some? <==> IsListed(query, Attribute(gs).0))
      && (r.Some? ==> exists j :: (0 <= j < |gs| && r.value.0 == gs[j].id
            && Some(r.value.1) in TitlesOf(gs[j]) && Matches(query, r.value.1)
            && forall i, t :: 0 <= i < j && Some(t) in TitlesOf(gs[i]) ==> !Matches(query, t)))
  {
    var fz := Attribute(gs).0;
    var tl := Attribute(gs).1;
    var r := FirstMatch(tl, query);
    if r.Some? {
      var j :| 0 <= j < |tl| && r.value.0 == tl[j].0 && r.value.1 in tl[j].1 && Matches(query, r.value.1)
        && forall i, t :: 0 <= i < j && t in tl[i].1 ==> !Matches(query, t);
      AttributedToFirstOwner(gs, j, r.value.1);
      FuzzyListIsAllTitles(gs, r.value.1);
      forall i, t | 0 <= i < j && Some(t) in TitlesOf(gs[i]) ensures !Matches(query, t) {
        var k := FirstOwner(gs, i, t);
        AttributedToFirstOwner(gs, k, t);
      }
    } else {
      forall t | t in fz ensures !Matches(query, t) {
        FuzzyListIsAllTitles(gs, t);
        var i :| 0 <= i < |gs| && Some(t) in TitlesOf(gs[i]);
        var k := FirstOwner(gs, i, t);
        AttributedToFirstOwner(gs, k, t);
      }
    }
  }

  /** The first game, at or before `i`, that has title `t`. */
  lemma FirstOwner(gs: seq<GameEntry>, i: nat, t: string) returns (k: nat)
    requires TitlesOk(gs) && i < |gs| && Some(t) in TitlesOf(gs[i])
    ensures k <= i && Some(t) in TitlesOf(gs[k])
    ensures forall m :: 0 <= m < k ==> Some(t) !in TitlesOf(gs[m])
  {
    k := i;
    while exists m :: 0 <= m < k && Some(t) in TitlesOf(gs[m])
      invariant k <= i && Some(t) in TitlesOf(gs[k])
      decreases k
    {
      var m :| 0 <= m < k && Some(t) in TitlesOf(gs[m]);
      k := m;
    }
  }
}
