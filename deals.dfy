/** The deals list that `NintenDeals.query_deals` posts every four hours:
    sale listings without an English title or a US price are dropped, the
    rest are scored by metascore, stably sorted best first, rendered into at
    most twenty entries of regional prices, and packed after a header into
    chat messages of at most 1990 characters. */
module Deals {
  import opened Py

  /** Character budget of one posted message (line 273). */
  const Budget: nat := 1990
  /** Number of entries the list shows at most (line 213). */
  const MaxEntries: nat := 20
  /** U+200B, which starts every entry and every continuation message. */
  const ZeroWidthSpace: char := '\U{200B}'
  /** The regions whose prices an entry shows (line 254). */
  const ShownRegions: set<string> := {"US", "EU", "GB", "AU"}

  /** A metascore: `'-'` when the listing has none. */
  datatype Score = Dash | Rated(n: nat)

  /** The sale part of a regional price; the API sends `discount` and
      `sale_price` only for regions where the game is on sale. */
  datatype Sale = Sale(discount: string, salePrice: string)

  datatype RegionPrice = RegionPrice(fullPrice: string, sale: Option<Sale>)

  /** One element of `games_on_sale`: regional titles, scores (the userscore
      as the text the API sends, `'-'` for none) and the prices by region. */
  datatype Listing = Listing(
    titles: map<string, Option<string>>,
    metascore: Score,
    userscore: string,
    prices: Dict<string, RegionPrice>)

  /** The JSON body of the deals API: the listings and each region's currency symbol. */
  datatype SaleResponse = SaleResponse(gamesOnSale: seq<Listing>, currencies: map<string, string>)

  /** An element of `gameScore.items()`: a title and its score. */
  type Item = (string, int)

  /** Every listing's price dict is a dict. */
  ghost predicate WellFormed(r: SaleResponse) {
    forall l :: l in r.gamesOnSale ==> l.prices.Valid()
  }

  /** Line 262 finds a currency for every price token it renders: each region
      that a chosen listing offers on sale has one. Listings that are not
      chosen are never rendered and need none. */
  ghost predicate DealsPriced(r: SaleResponse) {
    WellFormed(r) && PricedItems(Chosen(r), Collect(r.gamesOnSale), r.currencies)
  }

  /** Every region of `vals` that gets a price token has a currency: line 262
      reads `resp["countries"][key]` for those regions only. */
  ghost predicate Priced(vals: map<string, RegionPrice>, currencies: map<string, string>) {
    forall k :: OnSale(k, vals) ==> k in currencies
  }

  /** The listings of `items` are in `gameInfo` and are `Priced`. */
  ghost predicate PricedItems(items: seq<Item>, info: Dict<string, Listing>, currencies: map<string, string>) {
    forall it :: it in items ==> it.0 in info.vals && Priced(info.vals[it.0].prices.vals, currencies)
  }

  /** `gameInfo` is a dict of listings whose price dicts are dicts. */
  ghost predicate InfoOk(info: Dict<string, Listing>) {
    info.Valid() && forall k :: k in info.vals ==> info.vals[k].prices.Valid()
  }

  // ---------------------------------------------------------------------
  // Stage 1: filtering and scoring (lines 217-233)
  // ---------------------------------------------------------------------

  /** The English title: the NA title when it is non-empty, else the EU title
      when it is non-empty, else none (lines 219-224). */
  function EnglishTitle(titles: map<string, Option<string>>): (t: Option<string>)
    ensures t.Some? ==> t.value != ""
  {
    if "NA" in titles && Truthy(titles["NA"]) then titles["NA"]
    else if "EU" in titles && Truthy(titles["EU"]) then titles["EU"]
    else None
  }

  /** A listing enters `gameInfo` only with an English title and a US price. */
  predicate Eligible(l: Listing) {
    EnglishTitle(l.titles).Some? && "US" in l.prices.vals
  }

  /** The sort key: the metascore, with `'-'` counted as 0 (line 233). */
  function Rank(l: Listing): (r: int)
    ensures 0 <= r
    ensures l.metascore.Dash? ==> r == 0
  {
    match l.metascore
    case Dash => 0
    case Rated(n) => n
  }

  /** `gameInfo` once the filtering loop has seen `ls`: each eligible listing
      is stored under its English title, a later listing replacing an earlier
      one of the same title in the earlier one's position. */
  function Collect(ls: seq<Listing>): (d: Dict<string, Listing>)
    ensures d.Valid()
    ensures forall k :: k in d.vals ==>
      d.vals[k] in ls && Eligible(d.vals[k]) && EnglishTitle(d.vals[k].titles) == Some(k)
    decreases |ls|
  {
    if ls == [] then EmptyDict()
    else
      var d := Collect(ls[..|ls| - 1]);
      var l := ls[|ls| - 1];
      if Eligible(l) then d.Put(EnglishTitle(l.titles).value, l) else d
  }

  /** `gameScore`, which has the keys of `gameInfo`, in the same order, mapped to their scores. */
  function ScoreTable(info: Dict<string, Listing>): (s: Dict<string, int>)
    requires info.Valid()
    ensures s.Valid() && s.keys == info.keys
    ensures forall k :: k in info.vals ==> k in s.vals && s.vals[k] == Rank(info.vals[k])
  {
    Dict(info.keys, map k | k in info.vals :: Rank(info.vals[k]))
  }

  /** The English titles of the eligible listings, in order. */
  function EligibleTitles(ls: seq<Listing>): seq<string>
    decreases |ls|
  {
    if ls == [] then []
    else
      var l := ls[|ls| - 1];
      EligibleTitles(ls[..|ls| - 1]) + if Eligible(l) then [EnglishTitle(l.titles).value] else []
  }

  /** `s` with every element after its first occurrence removed. */
  function Dedup(s: seq<string>): (r: seq<string>)
    ensures forall x :: x in r <==> x in s
    decreases |s|
  {
    if s == [] then []
    else
      var d := Dedup(s[..|s| - 1]);
      if s[|s| - 1] in d then d else d + [s[|s| - 1]]
  }

  /** The last eligible listing whose English title is `k`, if any. */
  function LastWithTitle(ls: seq<Listing>, k: string): Option<Listing>
    decreases |ls|
  {
    if ls == [] then None
    else
      var l := ls[|ls| - 1];
      if Eligible(l) && EnglishTitle(l.titles) == Some(k) then Some(l)
      else LastWithTitle(ls[..|ls| - 1], k)
  }

  /** The keys of `gameInfo` are the English titles of the eligible listings,
      each once, in the order they first occur. */
  lemma {:induction false} CollectKeys(ls: seq<Listing>)
    ensures Collect(ls).keys == Dedup(EligibleTitles(ls))
    decreases |ls|
  {
    if ls != [] {
      var ls' := ls[..|ls| - 1];
      CollectKeys(ls');
      var l := ls[|ls| - 1];
      if Eligible(l) {
        var t := EnglishTitle(l.titles).value;
        var d := Collect(ls');
        assert t in d.vals <==> t in d.keys;
        assert EligibleTitles(ls) == EligibleTitles(ls') + [t];
        assert EligibleTitles(ls)[..|EligibleTitles(ls)| - 1] == EligibleTitles(ls');
      } else {
        assert EligibleTitles(ls) == EligibleTitles(ls');
      }
    }
  }

  /** Each title in `gameInfo` holds the LAST eligible listing with that
      title, and a title is present exactly when there is one. */
  lemma {:induction false} CollectValues(ls: seq<Listing>, k: string)
    ensures k in Collect(ls).vals <==> LastWithTitle(ls, k).Some?
    ensures k in Collect(ls).vals ==> Collect(ls).vals[k] == LastWithTitle(ls, k).value
    decreases |ls|
  {
    if ls != [] {
      CollectValues(ls[..|ls| - 1], k);
    }
  }

  /** The filtering loop of lines 217-233, filling `gameInfo` and `gameScore`. */
  method CollectSaleGames(ls: seq<Listing>) returns (gameInfo: Dict<string, Listing>, gameScore: Dict<string, int>)
    ensures gameInfo == Collect(ls)
    ensures gameScore == ScoreTable(gameInfo)
  {
    gameInfo, gameScore := EmptyDict(), EmptyDict();
    var i := 0;
    assert ls[..0] == [];
    while i < |ls|
      invariant 0 <= i <= |ls|
      invariant gameInfo == Collect(ls[..i])
      invariant gameScore == ScoreTable(gameInfo)
    {
      var x := ls[i];
      CollectStep(ls, i);
      var title := TitleOf(x.titles);
      if !Truthy(title) || "US" !in x.prices.vals {
        i := i + 1;
        continue;
      }
      ScoreTablePut(gameInfo, title.value, x);
      gameInfo := gameInfo.Put(title.value, x);
      gameScore := gameScore.Put(title.value, Rank(x));
      i := i + 1;
    }
    assert ls[..|ls|] == ls;
  }

  /** Lines 219-226: the NA title if it is non-empty, else the EU one. */
  method TitleOf(titles: map<string, Option<string>>) returns (title: Option<string>)
    ensures Truthy(title) <==> EnglishTitle(titles).Some?
    ensures Truthy(title) ==> title == EnglishTitle(titles)
  {
    title := None;
    if "NA" in titles {
      title := if Truthy(titles["NA"]) then titles["NA"] else None;
    }
    if !Truthy(title) && "EU" in titles {
      title := if Truthy(titles["EU"]) then titles["EU"] else None;
    }
  }

  /** One step of `Collect`. */
  lemma CollectStep(ls: seq<Listing>, i: nat)
    requires i < |ls|
    ensures Collect(ls[..i + 1])
      == if Eligible(ls[i]) then Collect(ls[..i]).Put(EnglishTitle(ls[i].titles).value, ls[i]) else Collect(ls[..i])
  {
    assert ls[..i + 1][..i] == ls[..i];
  }

  /** Storing a listing in `gameInfo` and its score in `gameScore` keeps the two in step. */
  lemma ScoreTablePut(info: Dict<string, Listing>, k: string, l: Listing)
    requires info.Valid()
    ensures ScoreTable(info.Put(k, l)) == ScoreTable(info).Put(k, Rank(l))
  {
    var m := info.Put(k, l);
    var lhs := ScoreTable(m);
    var rhs := ScoreTable(info).Put(k, Rank(l));
    assert lhs.keys == rhs.keys;
    assert lhs.vals.Keys == m.vals.Keys == rhs.vals.Keys;
    forall j | j in lhs.vals ensures lhs.vals[j] == rhs.vals[j] {
      if j != k {
        assert m.vals[j] == info.vals[j];
      }
    }
    assert lhs.vals == rhs.vals;
  }

  // ---------------------------------------------------------------------
  // Stage 2: the stable sort, best score first (line 235)
  // ---------------------------------------------------------------------

  /** Inserts `x` before the first element whose score is not above its own. */
  function Insert(x: Item, t: seq<Item>): (r: seq<Item>)
    ensures multiset(r) == multiset([x] + t)
    ensures |r| == |t| + 1
  {
    if t == [] then [x]
    else if x.1 >= t[0].1 then [x] + t
    else
      assert t == [t[0]] + t[1..];
      [t[0]] + Insert(x, t[1..])
  }

  /** `sorted(items, key=score, reverse=True)`, Python's stable sort: insertion
      sort, in which an element goes ahead of the later elements of equal score. */
  function SortByScore(s: seq<Item>): (r: seq<Item>)
    ensures multiset(r) == multiset(s)
    ensures |r| == |s|
  {
    if s == [] then []
    else
      assert s == [s[0]] + s[1..];
      Insert(s[0], SortByScore(s[1..]))
  }

  /** Position of `k` in `order`, or `|order|` when it is absent. */
  function IndexOf(order: seq<string>, k: string): (i: nat)
    ensures i <= |order|
    ensures i < |order| ==> order[i] == k
    ensures forall j :: 0 <= j < i ==> order[j] != k
  {
    if order == [] then 0
    else if order[0] == k then 0
    else 1 + IndexOf(order[1..], k)
  }

  /** `a` comes before `b`: a higher score, or the same score and an earlier title in `order`. */
  predicate Before(a: Item, b: Item, order: seq<string>) {
    a.1 > b.1 || (a.1 == b.1 && IndexOf(order, a.0) < IndexOf(order, b.0))
  }

  /** Scores never increase along `s`, and equal scores keep the order of `order`. */
  ghost predicate Ranked(s: seq<Item>, order: seq<string>) {
    forall i, j :: 0 <= i < j < |s| ==> Before(s[i], s[j], order)
  }

  lemma {:induction false} InsertRanked(x: Item, t: seq<Item>, order: seq<string>)
    requires Ranked(t, order)
    requires forall y :: y in t ==> IndexOf(order, x.0) < IndexOf(order, y.0)
    ensures Ranked(Insert(x, t), order)
  {
    if t != [] && x.1 < t[0].1 {
      InsertRanked(x, t[1..], order);
      InsertBehind(x, t, order);
    } else if t != [] {
      forall j | 0 <= j < |t| ensures Before(x, t[j], order) {
        if j > 0 {
          assert Before(t[0], t[j], order);
        }
        assert t[j] in t;
      }
      RankedCons(x, t, order);
    }
  }

  /** `x` goes behind the head of `t`, which ranks before everything else. */
  lemma InsertBehind(x: Item, t: seq<Item>, order: seq<string>)
    requires t != [] && x.1 < t[0].1
    requires Ranked(t, order) && Ranked(Insert(x, t[1..]), order)
    ensures Ranked(Insert(x, t), order)
  {
    var r := Insert(x, t[1..]);
    forall j | 0 <= j < |r| ensures Before(t[0], r[j], order) {
      assert r[j] in multiset(r);
      if r[j] != x {
        assert r[j] in t[1..];
        var k :| 0 <= k < |t[1..]| && t[1..][k] == r[j];
        assert Before(t[0], t[k + 1], order);
      }
    }
    assert Insert(x, t) == [t[0]] + r;
    RankedCons(t[0], r, order);
  }

  lemma RankedCons(a: Item, r: seq<Item>, order: seq<string>)
    requires Ranked(r, order)
    requires forall j :: 0 <= j < |r| ==> Before(a, r[j], order)
    ensures Ranked([a] + r, order)
  {
    forall i, j | 0 <= i < j < |[a] + r| ensures Before(([a] + r)[i], ([a] + r)[j], order) {
      assert ([a] + r)[j] == r[j - 1];
      if i > 0 {
        assert ([a] + r)[i] == r[i - 1];
      }
    }
  }

  /** Sorting items listed in the order of `order` ranks them: best score first,
      ties in their original order. */
  lemma {:induction false} SortRanked(s: seq<Item>, order: seq<string>)
    requires forall i, j :: 0 <= i < j < |s| ==> IndexOf(order, s[i].0) < IndexOf(order, s[j].0)
    ensures Ranked(SortByScore(s), order)
  {
    if s != [] {
      SortRanked(s[1..], order);
      var t := SortByScore(s[1..]);
      forall y | y in t ensures IndexOf(order, s[0].0) < IndexOf(order, y.0) {
        assert y in multiset(t);
        assert y in s[1..];
        var k :| 0 <= k < |s[1..]| && s[1..][k] == y;
        assert s[k + 1] == y;
      }
      InsertRanked(s[0], t, order);
    }
  }

  // ---------------------------------------------------------------------
  // Stage 3: rendering the entries (lines 236-268)
  // ---------------------------------------------------------------------

  /** The flag glyph of a shown region: its entry in `self.codepoints`
      (lines 45-62). */
  function Flag(region: string): string
    requires region in ShownRegions
  {
    if region == "US" then "\U{1F1FA}\U{1F1F8}"
    else if region == "EU" then "\U{1F1EA}\U{1F1FA}"
    else if region == "GB" then "\U{1F1EC}\U{1F1E7}"
    else "\U{1F1E6}\U{1F1FA}"
  }

  /** Region `k` is one of the shown regions and its price carries a discount
      (lines 254-255). */
  predicate OnSale(k: string, vals: map<string, RegionPrice>) {
    k in ShownRegions && k in vals && vals[k].sale.Some?
  }

  /** The regions among the first `n` of `ks` that are shown and on sale, in dict order. */
  function OfferedTo(ks: seq<string>, vals: map<string, RegionPrice>, n: nat): (r: seq<string>)
    requires n <= |ks|
    ensures |r| <= n
    decreases n
  {
    if n == 0 then []
    else OfferedTo(ks, vals, n - 1) + if OnSale(ks[n - 1], vals) then [ks[n - 1]] else []
  }

  /** The regions among `ks` that are shown and on sale, in dict order. */
  function Offered(ks: seq<string>, vals: map<string, RegionPrice>): (r: seq<string>)
    ensures |r| <= |ks|
    ensures forall x :: x in r ==> x in ks && OnSale(x, vals)
  {
    OfferedWithin(ks, vals, |ks|);
    assert ks[..|ks|] == ks;
    OfferedTo(ks, vals, |ks|)
  }

  lemma {:induction false} OfferedWithin(ks: seq<string>, vals: map<string, RegionPrice>, n: nat)
    requires n <= |ks|
    ensures forall x :: x in OfferedTo(ks, vals, n) ==> x in ks[..n] && OnSale(x, vals)
    decreases n
  {
    if n > 0 {
      OfferedWithin(ks, vals, n - 1);
      assert ks[..n] == ks[..n - 1] + [ks[n - 1]];
    }
  }

  /** One price token: flag, currency, sale price and discount (line 262). */
  function Token(region: string, sale: Sale, currencies: map<string, string>): (r: string)
    requires region in ShownRegions && region in currencies
    ensures |r| >= |Flag(region)| + 3
    ensures r[..|Flag(region)|] == Flag(region) && r[|r| - 3..] == "%) "
  {
    Flag(region) + " " + currencies[region] + sale.salePrice + " (-" + sale.discount + "%) "
  }

  /** The price tokens of the first `n` regions of `ks` that are shown and on sale. */
  function TokensTo(ks: seq<string>, vals: map<string, RegionPrice>, currencies: map<string, string>, n: nat): (ts: seq<string>)
    requires n <= |ks| && Priced(vals, currencies)
    ensures |ts| == |OfferedTo(ks, vals, n)|
    decreases n
  {
    if n == 0 then []
    else
      var k := ks[n - 1];
      TokensTo(ks, vals, currencies, n - 1) + if OnSale(k, vals) then [Token(k, vals[k].sale.value, currencies)] else []
  }

  /** The price tokens of the regions among `ks` that are shown and on sale. */
  function Tokens(ks: seq<string>, vals: map<string, RegionPrice>, currencies: map<string, string>): (ts: seq<string>)
    requires Priced(vals, currencies)
    ensures |ts| == |Offered(ks, vals)|
  {
    TokensTo(ks, vals, currencies, |ks|)
  }

  /** The tokens laid out in rows: the first two, and from the third on a second row. */
  function Rows(ts: seq<string>): (r: string)
    ensures |r| == |Concat(ts)| + (if |ts| > 2 then 1 else 0)
  {
    if |ts| <= 2 then Concat(ts)
    else
      assert ts == ts[..2] + ts[2..];
      ConcatAppend(ts[..2], ts[2..]);
      Concat(ts[..2]) + "\n" + Concat(ts[2..])
  }

  lemma RowsAppend(ts: seq<string>, t: string)
    ensures Rows(ts + [t]) == Rows(ts) + (if |ts| == 2 then "\n" else "") + t
  {
    var u := ts + [t];
    if |ts| < 2 {
      assert u[..|u| - 1] == ts;
      assert Rows(u) == Concat(ts) + t;
    } else if |ts| == 2 {
      assert u[..2] == ts;
      assert u[2..] == [t];
      ConcatOne(t);
      assert Rows(u) == Concat(ts) + "\n" + t;
    } else {
      assert u[..2] == ts[..2];
      assert u[2..] == ts[2..] + [t];
      ConcatAppend(ts[2..], [t]);
      ConcatOne(t);
      assert Rows(u) == Concat(ts[..2]) + "\n" + (Concat(ts[2..]) + t);
    }
  }

  /** A listing gets an entry only when some shown region is on sale. */
  predicate HasOffer(l: Listing) {
    Offered(l.prices.keys, l.prices.vals) != []
  }

  /** `N/a` for a missing score (lines 240-241). */
  function MetascoreText(s: Score): string {
    match s
    case Dash => "N/a"
    case Rated(n) => NatToString(n)
  }

  function UserscoreText(u: string): string {
    if u == "-" then "N/a" else u
  }

  /** The header line of an entry (line 250). */
  function Header(title: string, l: Listing): (r: string)
    ensures |r| >= |title| + 7
    ensures r[..|title| + 5] == "**" + title + "**\n" && r[|r| - 2..] == "*\n"
  {
    var open := "**" + title + "**\n";
    var rest := "<:barchart:612724385505083392> ___Metascore:___ *" + MetascoreText(l.metascore)
      + "* ___Userscore:___ *" + UserscoreText(l.userscore);
    assert (open + rest + "*\n")[..|open|] == open;
    open + rest + "*\n"
  }

  /** One rendered entry: a zero-width space, a blank line, the header and the price rows (line 268). */
  function Entry(title: string, l: Listing, currencies: map<string, string>): (r: string)
    requires Priced(l.prices.vals, currencies)
    ensures |r| >= 3 + |Header(title, l)|
    ensures r[..3] == [ZeroWidthSpace] + "\n\n"
    ensures r[3..3 + |Header(title, l)|] == Header(title, l)
  {
    [ZeroWidthSpace] + "\n\n" + Header(title, l) + Rows(Tokens(l.prices.keys, l.prices.vals, currencies))
  }

  /** The items the rendering loop turns into entries, visiting `items` with
      `quota` entries still to fill: an item without an offer is skipped and
      does not use up the quota. */
  function Select(items: seq<Item>, info: Dict<string, Listing>, quota: int): (r: seq<Item>)
    ensures |r| <= if quota <= 0 then 0 else quota
    ensures forall it :: it in r ==> it in items && Offers(it, info)
    decreases |items|
  {
    if items == [] || quota <= 0 then []
    else if Offers(items[0], info) then [items[0]] + Select(items[1..], info, quota - 1)
    else Select(items[1..], info, quota)
  }

  /** The item's listing is in `gameInfo` and has an offer. */
  predicate Offers(it: Item, info: Dict<string, Listing>) {
    it.0 in info.vals && HasOffer(info.vals[it.0])
  }

  /** The items that have an offer, in order. */
  function Qualifying(items: seq<Item>, info: Dict<string, Listing>): (r: seq<Item>)
    decreases |items|
  {
    if items == [] then []
    else (if Offers(items[0], info) then [items[0]] else []) + Qualifying(items[1..], info)
  }

  /** Rendering takes the first `quota` items that have an offer. */
  lemma {:induction false} SelectTakesQualifying(items: seq<Item>, info: Dict<string, Listing>, quota: nat)
    ensures var q := Qualifying(items, info);
      Select(items, info, quota) == q[..if quota < |q| then quota else |q|]
    decreases |items|
  {
    if items != [] && quota > 0 {
      SelectTakesQualifying(items[1..], info, if Offers(items[0], info) then quota - 1 else quota);
    }
  }

  /** Selection keeps the ranking of the sorted items. */
  lemma {:induction false} SelectRanked(items: seq<Item>, info: Dict<string, Listing>, quota: int, order: seq<string>)
    requires Ranked(items, order)
    ensures Ranked(Select(items, info, quota), order)
    decreases |items|
  {
    if items != [] && quota > 0 {
      assert Ranked(items[1..], order) by {
        forall i, j | 0 <= i < j < |items[1..]| ensures Before(items[1..][i], items[1..][j], order) {
          assert Before(items[i + 1], items[j + 1], order);
        }
      }
      var q := if Offers(items[0], info) then quota - 1 else quota;
      SelectRanked(items[1..], info, q, order);
      if Offers(items[0], info) {
        var r := Select(items[1..], info, q);
        forall j | 0 <= j < |r| ensures Before(items[0], r[j], order) {
          assert r[j] in items[1..];
          var k :| 0 <= k < |items[1..]| && items[1..][k] == r[j];
          assert Before(items[0], items[k + 1], order);
        }
        assert Select(items, info, quota) == [items[0]] + r;
      }
    }
  }

  /** The entries for the selected items, each under its own title. */
  function Pieces(chosen: seq<Item>, info: Dict<string, Listing>, currencies: map<string, string>): (ps: seq<string>)
    requires PricedItems(chosen, info, currencies)
    ensures |ps| == |chosen|
  {
    seq(|chosen|, i requires 0 <= i < |chosen| => Entry(chosen[i].0, info.vals[chosen[i].0], currencies))
  }

  /** A distinct sequence drawn from a set is no longer than the set is large. */
  lemma {:induction false} DistinctWithin(s: seq<string>, a: set<string>)
    requires Distinct(s)
    requires forall x :: x in s ==> x in a
    ensures |s| <= |a|
    decreases |s|
  {
    if s != [] {
      var x := s[|s| - 1];
      var s' := s[..|s| - 1];
      forall y | y in s' ensures y in a - {x} {
        var k :| 0 <= k < |s'| && s'[k] == y;
        assert s[k] == y;
      }
      DistinctWithin(s', a - {x});
    }
  }

  lemma OfferedDistinct(ks: seq<string>, vals: map<string, RegionPrice>)
    requires Distinct(ks)
    ensures Distinct(Offered(ks, vals))
  {
    OfferedToDistinct(ks, vals, |ks|);
  }

  lemma {:induction false} OfferedToDistinct(ks: seq<string>, vals: map<string, RegionPrice>, n: nat)
    requires Distinct(ks) && n <= |ks|
    ensures Distinct(OfferedTo(ks, vals, n))
    decreases n
  {
    if n > 0 {
      OfferedToDistinct(ks, vals, n - 1);
      OfferedWithin(ks, vals, n - 1);
      var k := ks[n - 1];
      var pre := ks[..n - 1];
      forall j | 0 <= j < |pre| ensures pre[j] != k {
        assert pre[j] == ks[j];
      }
    }
  }

  /** An entry carries at most four price tokens: one per shown region. */
  lemma AtMostFourTokens(l: Listing, currencies: map<string, string>)
    requires l.prices.Valid() && Priced(l.prices.vals, currencies)
    ensures |Tokens(l.prices.keys, l.prices.vals, currencies)| <= 4
  {
    var r := Offered(l.prices.keys, l.prices.vals);
    OfferedDistinct(l.prices.keys, l.prices.vals);
    DistinctWithin(r, ShownRegions);
    assert |ShownRegions| == 4;
  }

  /** The inner loop of lines 252-262 over the items of a price dictionary:
      appends the price tokens to `text`, a newline before the third, and
      counts them in `entry`. */
  method AppendPrices(text: string, keys: seq<string>, vals: map<string, RegionPrice>, currencies: map<string, string>)
    returns (gameText: string, entry: nat)
    requires forall i :: 0 <= i < |keys| ==> keys[i] in vals
    requires Priced(vals, currencies)
    ensures gameText == text + Rows(Tokens(keys, vals, currencies))
    ensures entry == |Offered(keys, vals)|
  {
    gameText, entry := text, 0;
    var i := 0;
    assert Rows([]) == "" && text + "" == text;
    while i < |keys|
      invariant 0 <= i <= |keys|
      invariant (gameText, entry) == AppendedTo(text, keys, vals, currencies, i)
    {
      var key := keys[i];
      var value := vals[key];
      AppendStep(text, keys, vals, currencies, i);
      if key in ShownRegions && value.sale.Some? {
        var token := Token(key, value.sale.value, currencies);
        gameText, entry := EmitToken(gameText, entry, token);
      }
      i := i + 1;
    }
  }

  /** The text and the count after the inner loop has seen the first `n` regions. */
  ghost function AppendedTo(text: string, ks: seq<string>, vals: map<string, RegionPrice>,
                            currencies: map<string, string>, n: nat): (string, nat)
    requires n <= |ks| && Priced(vals, currencies)
  {
    var ts := TokensTo(ks, vals, currencies, n);
    (text + Rows(ts), |ts|)
  }

  /** The body of the inner loop for an offered region. */
  method EmitToken(text: string, count: nat, token: string) returns (gameText: string, entry: nat)
    ensures (gameText, entry) == Emit((text, count), token)
  {
    gameText, entry := text, count + 1;
    if entry == 3 {
      gameText := gameText + "\n";
    }
    gameText := gameText + token;
  }

  /** One turn of the inner loop keeps `gameText` and `entry` in step with the tokens. */
  lemma AppendStep(text: string, ks: seq<string>, vals: map<string, RegionPrice>,
                   currencies: map<string, string>, n: nat)
    requires n < |ks| && Priced(vals, currencies)
    ensures OnSale(ks[n], vals) ==>
      Emit(AppendedTo(text, ks, vals, currencies, n), Token(ks[n], vals[ks[n]].sale.value, currencies))
        == AppendedTo(text, ks, vals, currencies, n + 1)
    ensures !OnSale(ks[n], vals) ==>
      AppendedTo(text, ks, vals, currencies, n + 1) == AppendedTo(text, ks, vals, currencies, n)
  {
    TokensToStep(ks, vals, currencies, n);
    if OnSale(ks[n], vals) {
      EmitRows(text, TokensTo(ks, vals, currencies, n), Token(ks[n], vals[ks[n]].sale.value, currencies));
    }
  }

  lemma TokensToStep(ks: seq<string>, vals: map<string, RegionPrice>, currencies: map<string, string>, n: nat)
    requires n < |ks| && Priced(vals, currencies)
    ensures OnSale(ks[n], vals) ==>
      TokensTo(ks, vals, currencies, n + 1) == TokensTo(ks, vals, currencies, n) + [Token(ks[n], vals[ks[n]].sale.value, currencies)]
    ensures !OnSale(ks[n], vals) ==> TokensTo(ks, vals, currencies, n + 1) == TokensTo(ks, vals, currencies, n)
  {
    assert TokensTo(ks, vals, currencies, n) + [] == TokensTo(ks, vals, currencies, n);
  }

  /** One token emitted by the inner loop: counted, and preceded by a newline when it is the third. */
  function Emit(prev: (string, nat), token: string): (string, nat) {
    ((if prev.1 + 1 == 3 then prev.0 + "\n" else prev.0) + token, prev.1 + 1)
  }

  lemma EmitRows(text: string, ts: seq<string>, token: string)
    ensures Emit((text + Rows(ts), |ts|), token) == (text + Rows(ts + [token]), |ts| + 1)
  {
    RowsAppend(ts, token);
    var r := Rows(ts);
    if |ts| == 2 {
      assert text + (r + "\n" + token) == text + r + "\n" + token;
    } else {
      assert r + "" + token == r + token;
      assert text + (r + token) == text + r + token;
    }
  }

  /** The outer rendering loop of lines 236-268, with the `maxAmt` quota. */
  method RenderEntries(sorted: seq<Item>, info: Dict<string, Listing>, currencies: map<string, string>)
    returns (games: seq<string>)
    requires InfoOk(info) && PricedItems(Select(sorted, info, MaxEntries), info, currencies)
    requires forall it :: it in sorted ==> it.0 in info.vals
    ensures games == Pieces(Select(sorted, info, MaxEntries), info, currencies)
  {
    games := [];
    var maxAmt: int := MaxEntries;
    ghost var chosen: seq<Item> := [];
    var i := 0;
    while i < |sorted|
      invariant RenderedText(sorted, info, currencies, i, maxAmt, chosen, games)
    {
      if maxAmt <= 0 {
        break;
      }
      assert sorted[i] in sorted;
      VisitedPriced(sorted, info, currencies, i, maxAmt, chosen, games);
      maxAmt, chosen, games := RenderNext(sorted, info, currencies, i, maxAmt, chosen, games);
      i := i + 1;
    }
    RenderedDone(sorted, info, i, maxAmt, chosen);
  }

  /** The body of the loop of lines 237-268 for `sorted[i]`: an item without
      a price token is skipped (line 265), one with tokens adds its entry and
      uses up one of the quota. */
  method RenderNext(sorted: seq<Item>, info: Dict<string, Listing>, currencies: map<string, string>,
                    i: nat, quota: int, ghost chosen: seq<Item>, games: seq<string>)
    returns (quota': int, ghost chosen': seq<Item>, games': seq<string>)
    requires RenderedText(sorted, info, currencies, i, quota, chosen, games) && i < |sorted| && quota > 0
    requires sorted[i].0 in info.vals && info.vals[sorted[i].0].prices.Valid()
    requires Priced(info.vals[sorted[i].0].prices.vals, currencies)
    ensures Offers(sorted[i], info) ==>
      quota' == quota - 1 && games' == games + [Entry(sorted[i].0, info.vals[sorted[i].0], currencies)]
    ensures !Offers(sorted[i], info) ==> quota' == quota && games' == games
    ensures RenderedText(sorted, info, currencies, i + 1, quota', chosen', games')
  {
    var y := sorted[i];
    var x := info.vals[y.0];
    var piece, entry := RenderEntry(y.0, x, currencies);
    RenderedTextStep(sorted, info, currencies, i, quota, chosen, games, piece, entry);
    if entry == 0 {
      return quota, chosen, games;
    }
    return quota - 1, chosen + [y], games + [piece];
  }

  /** `Rendered`, and the texts so far are the entries of the chosen items. */
  ghost predicate RenderedText(sorted: seq<Item>, info: Dict<string, Listing>, currencies: map<string, string>,
                               i: nat, quota: int, chosen: seq<Item>, games: seq<string>) {
    && PricedItems(Select(sorted, info, MaxEntries), info, currencies) && Rendered(sorted, info, i, quota, chosen)
    && PricedItems(chosen, info, currencies) && games == Pieces(chosen, info, currencies)
  }

  /** The listing the rendering loop visits next is `Priced`: it is either
      the next selected one or has no offer, and then no token is rendered. */
  lemma VisitedPriced(sorted: seq<Item>, info: Dict<string, Listing>, currencies: map<string, string>,
                      i: nat, quota: int, chosen: seq<Item>, games: seq<string>)
    requires RenderedText(sorted, info, currencies, i, quota, chosen, games) && i < |sorted| && quota > 0
    requires sorted[i].0 in info.vals && info.vals[sorted[i].0].prices.Valid()
    ensures Priced(info.vals[sorted[i].0].prices.vals, currencies)
  {
    var y := sorted[i];
    if Offers(y, info) {
      assert sorted[i..][0] == y;
      var rest := Select(sorted[i..], info, quota);
      assert rest == [y] + Select(sorted[i..][1..], info, quota - 1);
      assert (chosen + rest)[|chosen|] == y;
      assert y in Select(sorted, info, MaxEntries);
    } else {
      NoOfferPriced(info.vals[y.0], currencies);
    }
  }

  /** A listing without an offer gets no price token, so it needs no currency. */
  lemma NoOfferPriced(l: Listing, currencies: map<string, string>)
    requires l.prices.Valid() && !HasOffer(l)
    ensures Priced(l.prices.vals, currencies)
  {
    OfferedComplete(l.prices.keys, l.prices.vals);
  }

  /** `Offered` misses no shown region on sale. */
  lemma OfferedComplete(ks: seq<string>, vals: map<string, RegionPrice>)
    ensures forall k :: k in ks && OnSale(k, vals) ==> k in Offered(ks, vals)
  {
    assert ks[..|ks|] == ks;
    forall k | k in ks && OnSale(k, vals) ensures k in Offered(ks, vals) {
      OfferedToHas(ks, vals, |ks|, k);
    }
  }

  /** Every shown region on sale among the first `n` keys is offered. */
  lemma {:induction false} OfferedToHas(ks: seq<string>, vals: map<string, RegionPrice>, n: nat, k: string)
    requires n <= |ks| && k in ks[..n] && OnSale(k, vals)
    ensures k in OfferedTo(ks, vals, n)
    decreases n
  {
    assert ks[..n] == ks[..n - 1] + [ks[n - 1]];
    if k != ks[n - 1] {
      OfferedToHas(ks, vals, n - 1, k);
    }
  }

  /** One turn of the rendering loop: an item with no price token is skipped,
      one with tokens adds its entry and uses up one of the quota. */
  lemma RenderedTextStep(sorted: seq<Item>, info: Dict<string, Listing>, currencies: map<string, string>,
                         i: nat, quota: int, chosen: seq<Item>, games: seq<string>, piece: string, entry: nat)
    requires RenderedText(sorted, info, currencies, i, quota, chosen, games) && i < |sorted| && quota > 0
    requires sorted[i].0 in info.vals && Priced(info.vals[sorted[i].0].prices.vals, currencies)
    requires entry == |Offered(info.vals[sorted[i].0].prices.keys, info.vals[sorted[i].0].prices.vals)|
    requires piece == Entry(sorted[i].0, info.vals[sorted[i].0], currencies)
    ensures entry == 0 ==> RenderedText(sorted, info, currencies, i + 1, quota, chosen, games)
    ensures entry != 0 ==> RenderedText(sorted, info, currencies, i + 1, quota - 1, chosen + [sorted[i]], games + [piece])
  {
    RenderedStep(sorted, info, i, quota, chosen);
    if entry != 0 {
      PiecesAppend(chosen, sorted[i], info, currencies);
    }
  }

  /** The loop has visited `sorted[..i]`, chosen `chosen` and has `quota`
      entries left to fill; the rest of the selection comes from `sorted[i..]`. */
  predicate Rendered(sorted: seq<Item>, info: Dict<string, Listing>, i: nat, quota: int, chosen: seq<Item>) {
    && i <= |sorted|
    && (forall it :: it in chosen ==> it.0 in info.vals)
    && chosen + Select(sorted[i..], info, quota) == Select(sorted, info, MaxEntries)
  }

  /** A visit to `sorted[i]` with quota left keeps `Rendered`. */
  lemma RenderedStep(sorted: seq<Item>, info: Dict<string, Listing>, i: nat, quota: int, chosen: seq<Item>)
    requires Rendered(sorted, info, i, quota, chosen) && i < |sorted| && quota > 0
    ensures Offers(sorted[i], info) ==> Rendered(sorted, info, i + 1, quota - 1, chosen + [sorted[i]])
    ensures !Offers(sorted[i], info) ==> Rendered(sorted, info, i + 1, quota, chosen)
  {
    assert sorted[i..][1..] == sorted[i + 1..];
    var y := sorted[i];
    if Offers(y, info) {
      var rest := Select(sorted[i + 1..], info, quota - 1);
      assert Select(sorted[i..], info, quota) == [y] + rest;
      assert chosen + [y] + rest == chosen + ([y] + rest);
    }
  }

  /** When the loop stops, by running out of items or of quota, it has chosen the selection. */
  lemma RenderedDone(sorted: seq<Item>, info: Dict<string, Listing>, i: nat, quota: int, chosen: seq<Item>)
    requires Rendered(sorted, info, i, quota, chosen) && (i == |sorted| || quota <= 0)
    ensures chosen == Select(sorted, info, MaxEntries)
  {
    assert Select(sorted[i..], info, quota) == [];
    assert chosen + [] == chosen;
  }

  /** The body of the rendering loop for one listing (lines 240-262 and the
      text appended at line 268): the entry text and the number of price tokens. */
  method RenderEntry(title: string, x: Listing, currencies: map<string, string>) returns (piece: string, entry: nat)
    requires x.prices.Valid() && Priced(x.prices.vals, currencies)
    ensures entry == |Offered(x.prices.keys, x.prices.vals)|
    ensures piece == Entry(title, x, currencies)
  {
    var gameText := Header(title, x);
    gameText, entry := AppendPrices(gameText, x.prices.keys, x.prices.vals, currencies);
    EntryText(title, x, currencies, gameText);
    piece := [ZeroWidthSpace] + "\n\n" + gameText;
  }

  /** The text the loop appends for a listing is its entry. */
  lemma EntryText(title: string, l: Listing, currencies: map<string, string>, gameText: string)
    requires Priced(l.prices.vals, currencies)
    requires gameText == Header(title, l) + Rows(Tokens(l.prices.keys, l.prices.vals, currencies))
    ensures [ZeroWidthSpace] + "\n\n" + gameText == Entry(title, l, currencies)
  {
  }

  lemma PiecesAppend(chosen: seq<Item>, y: Item, info: Dict<string, Listing>, currencies: map<string, string>)
    requires PricedItems(chosen, info, currencies)
    requires y.0 in info.vals && Priced(info.vals[y.0].prices.vals, currencies)
    ensures Pieces(chosen + [y], info, currencies) == Pieces(chosen, info, currencies) + [Entry(y.0, info.vals[y.0], currencies)]
  {
    var c := chosen + [y];
    forall i | 0 <= i < |c| ensures c[i].0 in info.vals && Priced(info.vals[c[i].0].prices.vals, currencies) {
      if i < |chosen| {
        assert c[i] == chosen[i];
      }
    }
    assert Pieces(c, info, currencies)[..|chosen|] == Pieces(chosen, info, currencies);
  }

  // ---------------------------------------------------------------------
  // Stage 4: packing into messages (lines 270-287)
  // ---------------------------------------------------------------------

  /** How the packing loop groups the header and the entries into messages:
      a piece joins the current group while the group's text stays within
      the budget, and otherwise starts a new group. */
  function Pack(header: string, pieces: seq<string>): (g: seq<seq<string>>)
    ensures |g| >= 1
    ensures g[0] != [] && g[0][0] == header
    decreases |pieces|
  {
    if pieces == [] then [[header]]
    else
      var g := Pack(header, pieces[..|pieces| - 1]);
      var x := pieces[|pieces| - 1];
      var last := g[|g| - 1];
      if |Concat(last)| + |x| <= Budget then g[..|g| - 1] + [last + [x]] else g + [[x]]
  }

  /** The groups laid end to end. */
  function Flatten(g: seq<seq<string>>): seq<string>
    decreases |g|
  {
    if g == [] then [] else Flatten(g[..|g| - 1]) + g[|g| - 1]
  }

  /** The text sent for group number `i`: the first as it is, a later one with
      its first two characters replaced by a zero-width space (lines 277-278, 284-285). */
  function Message(group: seq<string>, i: nat): (r: string)
    ensures i > 0 ==> |r| >= 1 && r[0] == ZeroWidthSpace
    ensures i > 0 && |Concat(group)| >= 2 ==> |r| == |Concat(group)| - 1 && r[1..] == Concat(group)[2..]
    ensures |Concat(group)| >= 1 ==> |r| <= |Concat(group)|
  {
    if i == 0 then Concat(group) else [ZeroWidthSpace] + DropFront(Concat(group), 2)
  }

  function Messages(g: seq<seq<string>>): (ms: seq<string>)
    ensures |ms| == |g|
  {
    seq(|g|, i requires 0 <= i < |g| => Message(g[i], i))
  }

  /** Packing loses, duplicates and reorders nothing. */
  lemma {:induction false} PackFlatten(header: string, pieces: seq<string>)
    ensures Flatten(Pack(header, pieces)) == [header] + pieces
    decreases |pieces|
  {
    if pieces == [] {
      FlattenSnoc([], [header]);
    } else {
      var ps := pieces[..|pieces| - 1];
      PackFlatten(header, ps);
      assert pieces == ps + [pieces[|pieces| - 1]];
      PackFlattenStep(header, ps, pieces[|pieces| - 1]);
    }
  }

  /** Packing one more piece appends it to the flattened groups. */
  lemma PackFlattenStep(header: string, ps: seq<string>, x: string)
    requires Flatten(Pack(header, ps)) == [header] + ps
    ensures Flatten(Pack(header, ps + [x])) == [header] + ps + [x]
  {
    var g := Pack(header, ps);
    var last := g[|g| - 1];
    var init := g[..|g| - 1];
    PackSnoc(header, ps, x);
    assert g == init + [last];
    if |Concat(last)| + |x| <= Budget {
      FlattenJoin(init, last, x);
    } else {
      FlattenSnoc(g, [x]);
    }
  }

  lemma PackSnoc(header: string, ps: seq<string>, x: string)
    ensures var g := Pack(header, ps);
      Pack(header, ps + [x])
        == if |Concat(g[|g| - 1])| + |x| <= Budget then g[..|g| - 1] + [g[|g| - 1] + [x]] else g + [[x]]
  {
    assert (ps + [x])[..|ps|] == ps;
  }

  lemma FlattenJoin(init: seq<seq<string>>, last: seq<string>, x: string)
    ensures Flatten(init + [last + [x]]) == Flatten(init + [last]) + [x]
  {
    FlattenSnoc(init, last);
    FlattenSnoc(init, last + [x]);
    assert Flatten(init) + (last + [x]) == (Flatten(init) + last) + [x];
  }

  lemma FlattenSnoc(g: seq<seq<string>>, s: seq<string>)
    ensures Flatten(g + [s]) == Flatten(g) + s
  {
    assert (g + [s])[..|g|] == g;
  }

  /** No group is empty, and a group over the budget is a single piece. */
  predicate GroupsOk(g: seq<seq<string>>) {
    forall i :: 0 <= i < |g| ==> g[i] != [] && (|g[i]| == 1 || |Concat(g[i])| <= Budget)
  }

  lemma {:induction false} PackGroups(header: string, pieces: seq<string>)
    ensures GroupsOk(Pack(header, pieces))
    decreases |pieces|
  {
    if pieces != [] {
      var ps := pieces[..|pieces| - 1];
      PackGroups(header, ps);
      var g := Pack(header, ps);
      var x := pieces[|pieces| - 1];
      var last := g[|g| - 1];
      var init := g[..|g| - 1];
      if |Concat(last)| + |x| <= Budget {
        ConcatAppend(last, [x]);
        ConcatOne(x);
        var g' := init + [last + [x]];
        assert Pack(header, pieces) == g';
        forall i | 0 <= i < |g'|
          ensures g'[i] != [] && (|g'[i]| == 1 || |Concat(g'[i])| <= Budget)
        {
          if i < |init| {
            assert g'[i] == g[i];
          }
        }
      } else {
        var g' := g + [[x]];
        assert Pack(header, pieces) == g';
        forall i | 0 <= i < |g'|
          ensures g'[i] != [] && (|g'[i]| == 1 || |Concat(g'[i])| <= Budget)
        {
          if i < |g| {
            assert g'[i] == g[i];
            assert g[i] != [];
          } else {
            assert g'[i] == [x];
          }
        }
      }
    }
  }

  /** The packing loop of lines 270-287: it sends `chunk` whenever the next
      piece would take it over the budget, and once more at the end. */
  method PackMessages(header: string, pieces: seq<string>) returns (sent: seq<string>)
    ensures sent == Messages(Pack(header, pieces))
  {
    var chunk := header;
    var num := 0;
    sent := [];
    var i := 0;
    PackedStart(header, pieces);
    while i < |pieces|
      invariant 0 <= i <= |pieces|
      invariant Packed(header, pieces, i, num, chunk, sent)
    {
      var x := pieces[i];
      if |chunk| + |x| <= Budget {
        PackedJoin(header, pieces, i, num, chunk, sent);
        chunk := chunk + x;
      } else {
        PackedOpen(header, pieces, i, num, chunk, sent);
        if num >= 1 {
          chunk := [ZeroWidthSpace] + DropFront(chunk, 2);
        }
        sent := sent + [chunk];
        chunk := x;
        num := num + 1;
      }
      i := i + 1;
    }
    PackedDone(header, pieces, num, chunk, sent);
    if num >= 1 {
      chunk := [ZeroWidthSpace] + DropFront(chunk, 2);
    }
    sent := sent + [chunk];
  }

  /** The packing loop has grouped `pieces[..i]`: `num` messages are sent, and
      `chunk` is the text of the open group. */
  ghost predicate Packed(header: string, pieces: seq<string>, i: nat, num: nat, chunk: string, sent: seq<string>) {
    && i <= |pieces|
    && |Pack(header, pieces[..i])| == num + 1
    && chunk == Concat(Pack(header, pieces[..i])[num])
    && sent == Messages(Pack(header, pieces[..i]))[..num]
  }

  lemma PackedStart(header: string, pieces: seq<string>)
    ensures Packed(header, pieces, 0, 0, header, [])
  {
    assert pieces[..0] == [];
    ConcatOne(header);
  }

  /** The next piece fits, and joins the open group. */
  lemma PackedJoin(header: string, pieces: seq<string>, i: nat, num: nat, chunk: string, sent: seq<string>)
    requires i < |pieces| && Packed(header, pieces, i, num, chunk, sent) && |chunk| + |pieces[i]| <= Budget
    ensures Packed(header, pieces, i + 1, num, chunk + pieces[i], sent)
  {
    var g := Pack(header, pieces[..i]);
    PackStep(header, pieces, i);
    ConcatAppend(g[num], [pieces[i]]);
    ConcatOne(pieces[i]);
    MessagesPrefix(g, Pack(header, pieces[..i + 1]), num);
  }

  /** The next piece does not fit: the open group is sent and the piece opens the next. */
  lemma PackedOpen(header: string, pieces: seq<string>, i: nat, num: nat, chunk: string, sent: seq<string>)
    requires i < |pieces| && Packed(header, pieces, i, num, chunk, sent) && |chunk| + |pieces[i]| > Budget
    ensures Packed(header, pieces, i + 1, num + 1, pieces[i],
                   sent + [if num >= 1 then [ZeroWidthSpace] + DropFront(chunk, 2) else chunk])
  {
    var g := Pack(header, pieces[..i]);
    var h := Pack(header, pieces[..i + 1]);
    PackStep(header, pieces, i);
    assert h == g + [[pieces[i]]];
    ConcatOne(pieces[i]);
    assert h[..num + 1] == g;
    MessagesPrefix(g, h, num + 1);
    MessagesLast(g);
  }

  /** The messages of all groups are those of all but the last, then the last one's. */
  lemma MessagesLast(g: seq<seq<string>>)
    requires |g| >= 1
    ensures var n := |g| - 1;
      Messages(g)[..n + 1] == Messages(g)[..n]
        + [if n >= 1 then [ZeroWidthSpace] + DropFront(Concat(g[n]), 2) else Concat(g[n])]
  {
    var n := |g| - 1;
    assert Messages(g)[n] == Message(g[n], n);
  }

  /** After the last piece, sending the open group completes the messages. */
  lemma PackedDone(header: string, pieces: seq<string>, num: nat, chunk: string, sent: seq<string>)
    requires Packed(header, pieces, |pieces|, num, chunk, sent)
    ensures sent + [if num >= 1 then [ZeroWidthSpace] + DropFront(chunk, 2) else chunk] == Messages(Pack(header, pieces))
  {
    assert pieces[..|pieces|] == pieces;
    var g := Pack(header, pieces);
    assert Messages(g) == Messages(g)[..num] + [Message(g[num], num)];
  }

  /** One step of `Pack`: the next piece joins the last group or opens a new one. */
  lemma PackStep(header: string, pieces: seq<string>, i: nat)
    requires i < |pieces|
    ensures var g := Pack(header, pieces[..i]);
      Pack(header, pieces[..i + 1])
        == if |Concat(g[|g| - 1])| + |pieces[i]| <= Budget then g[..|g| - 1] + [g[|g| - 1] + [pieces[i]]]
           else g + [[pieces[i]]]
  {
    assert pieces[..i + 1] == pieces[..i] + [pieces[i]];
    PackSnoc(header, pieces[..i], pieces[i]);
  }

  /** Groupings that agree on their first `n` groups send the same first `n` messages. */
  lemma MessagesPrefix(g: seq<seq<string>>, h: seq<seq<string>>, n: nat)
    requires n <= |g| && n <= |h| && g[..n] == h[..n]
    ensures Messages(g)[..n] == Messages(h)[..n]
  {
    forall i | 0 <= i < n ensures Messages(g)[i] == Messages(h)[i] {
      assert g[i] == g[..n][i];
      assert h[i] == h[..n][i];
    }
  }

  /** Every sent message is within the budget unless its group is a single
      piece: the header alone or one entry. */
  lemma MessagesWithinBudget(header: string, pieces: seq<string>)
    ensures var g := Pack(header, pieces);
      forall i :: 0 <= i < |g| ==> |Messages(g)[i]| <= Budget || |g[i]| == 1
  {
    PackGroups(header, pieces);
  }

  // ---------------------------------------------------------------------
  // The whole pipeline
  // ---------------------------------------------------------------------

  /** The score table of `info`, sorted best score first. */
  function SortedItems(info: Dict<string, Listing>): (r: seq<Item>)
    requires info.Valid()
    ensures multiset(r) == multiset(ScoreTable(info).Items())
    ensures forall it :: it in r ==> it.0 in info.vals && it.1 == Rank(info.vals[it.0])
  {
    var items := ScoreTable(info).Items();
    var r := SortByScore(items);
    assert forall it :: it in r ==> it in multiset(r);
    assert forall it :: it in multiset(items) ==> it in items;
    r
  }

  /** The items that get entries: the sorted score table, filtered for offers
      and cut at twenty. */
  function Chosen(resp: SaleResponse): (c: seq<Item>)
    requires WellFormed(resp)
    ensures forall it :: it in c ==> it.0 in Collect(resp.gamesOnSale).vals
  {
    var info := Collect(resp.gamesOnSale);
    Select(SortedItems(info), info, MaxEntries)
  }

  /** What the deals task posts for `resp` after the given header. */
  function DealMessages(resp: SaleResponse, header: string): (ms: seq<string>)
    requires DealsPriced(resp)
    ensures |ms| >= 1 && |ms[0]| >= |header| && ms[0][..|header|] == header
  {
    var g := Pack(header, Pieces(Chosen(resp), Collect(resp.gamesOnSale), resp.currencies));
    assert g[0] == [header] + g[0][1..];
    ConcatAppend([header], g[0][1..]);
    ConcatOne(header);
    Messages(g)
  }

  /** Lines 217-287 for a fetched response: filter and score, sort, render
      and pack. */
  method BuildDealMessages(resp: SaleResponse, header: string) returns (sent: seq<string>)
    requires DealsPriced(resp)
    ensures sent == DealMessages(resp, header)
  {
    var gameInfo, gameScore := CollectSaleGames(resp.gamesOnSale);
    var sortedScores := SortByScore(gameScore.Items());
    assert sortedScores == SortedItems(gameInfo);
    var games := RenderEntries(sortedScores, gameInfo, resp.currencies);
    sent := PackMessages(header, games);
  }

  /** The chosen entries: at most twenty; each one an eligible input listing
      with an offer, under its English title and scored by its metascore;
      best score first, ties in first-insertion order of their titles; and
      exactly the first twenty offering items of the sorted table. */
  lemma {:induction false} ChosenProperties(resp: SaleResponse)
    requires WellFormed(resp)
    ensures var info := Collect(resp.gamesOnSale);
      var c := Chosen(resp);
      && |c| <= MaxEntries
      && (forall it :: it in c ==>
            && it.0 in info.vals
            && info.vals[it.0] in resp.gamesOnSale
            && Eligible(info.vals[it.0])
            && EnglishTitle(info.vals[it.0].titles) == Some(it.0)
            && HasOffer(info.vals[it.0])
            && it.1 == Rank(info.vals[it.0]))
      && Ranked(c, info.keys)
  {
    var info := Collect(resp.gamesOnSale);
    var items := ScoreTable(info).Items();
    forall i, j | 0 <= i < j < |items| ensures IndexOf(info.keys, items[i].0) < IndexOf(info.keys, items[j].0) {
      IndexOfDistinct(info.keys, i);
      IndexOfDistinct(info.keys, j);
    }
    SortRanked(items, info.keys);
    SelectRanked(SortedItems(info), info, MaxEntries, info.keys);
  }

  lemma IndexOfDistinct(order: seq<string>, i: nat)
    requires Distinct(order) && i < |order|
    ensures IndexOf(order, order[i]) == i
  {
  }

  /** A listing without a non-empty NA or EU title, or without a US price,
      never appears among the rendered entries. */
  lemma IneligibleNeverRendered(resp: SaleResponse, l: Listing)
    requires WellFormed(resp)
    requires !Eligible(l)
    ensures forall it :: it in Chosen(resp) ==> Collect(resp.gamesOnSale).vals[it.0] != l
  {
  }

  /** Offering items are never skipped for lack of quota before twenty are
      taken: the chosen items are the first twenty that have an offer. */
  lemma ChosenIsFirstTwentyOffers(resp: SaleResponse)
    requires WellFormed(resp)
    ensures var info := Collect(resp.gamesOnSale);
      var q := Qualifying(SortedItems(info), info);
      Chosen(resp) == q[..if MaxEntries < |q| then MaxEntries else |q|]
  {
    var info := Collect(resp.gamesOnSale);
    SelectTakesQualifying(SortedItems(info), info, MaxEntries);
  }

  /** The posted messages hold the header and every rendered entry, each once
      and in order; the first message is its group's text, every later one
      has the first two characters of its group's text replaced by a
      zero-width space; and each message is within the budget or is a single
      piece. */
  lemma DealMessagesShape(resp: SaleResponse, header: string)
    requires DealsPriced(resp)
    ensures var info := Collect(resp.gamesOnSale);
      var pieces := Pieces(Chosen(resp), info, resp.currencies);
      var g := Pack(header, pieces);
      var ms := DealMessages(resp, header);
      && |ms| == |g| >= 1
      && Flatten(g) == [header] + pieces
      && ms[0] == Concat(g[0])
      && (forall i :: 1 <= i < |ms| ==> ms[i] == [ZeroWidthSpace] + DropFront(Concat(g[i]), 2))
      && (forall i :: 0 <= i < |ms| ==> |ms[i]| <= Budget || |g[i]| == 1)
  {
    var pieces := Pieces(Chosen(resp), Collect(resp.gamesOnSale), resp.currencies);
    var g := Pack(header, pieces);
    PackFlatten(header, pieces);
    MessagesWithinBudget(header, pieces);
    assert DealMessages(resp, header) == Messages(g);
  }

  // ---------------------------------------------------------------------
  // The entry title as written (lines 244-248)
  // ---------------------------------------------------------------------

  /** The title the rendering loop puts in an entry's header AS WRITTEN:
      `title` is reassigned from the NA title only when the listing has an
      NA key, so without one it keeps `prev`, the previous iteration's title,
      and the EU fallback is consulted only when `prev` is falsy. */
  function HeaderTitleAsWritten(prev: Option<string>, titles: map<string, Option<string>>): Option<string> {
    var t := if "NA" in titles then (if Truthy(titles["NA"]) then titles["NA"] else None) else prev;
    if !Truthy(t) && "EU" in titles then (if Truthy(titles["EU"]) then titles["EU"] else None) else t
  }

  /** The header titles AS WRITTEN. `ls` is every listing the rendering loop
      visits, in order, including those it then skips at line 265 for having
      no offer, since the title is reassigned before that skip; `prev` is the
      title the collection loop (lines 217-227) left behind. */
  function HeaderTitlesAsWritten(prev: Option<string>, ls: seq<Listing>): (ts: seq<Option<string>>)
    ensures |ts| == |ls|
    decreases |ls|
  {
    if ls == [] then []
    else
      var t := HeaderTitleAsWritten(prev, ls[0].titles);
      [t] + HeaderTitlesAsWritten(t, ls[1..])
  }

  /** As written, the header title is the English title whenever the listing has an NA key. */
  lemma HeaderTitleWithNAKey(prev: Option<string>, titles: map<string, Option<string>>)
    requires "NA" in titles
    ensures HeaderTitleAsWritten(prev, titles) == EnglishTitle(titles)
  {
  }

  /** Two eligible listings on sale in the US, one titled in NA and one only
      in EU: whatever title the collection loop left, the second is headed
      with the first one's title as written. */
  lemma StaleTitleCounterexample(prev: Option<string>)
    ensures var us := Dict(["US"], map["US" := RegionPrice("59.99", Some(Sale("50", "29.99")))]);
      var alpha := Listing(map["NA" := Some("Alpha")], Rated(90), "8.0", us);
      var beta := Listing(map["EU" := Some("Beta")], Rated(80), "7.5", us);
      && Eligible(alpha) && Eligible(beta) && HasOffer(alpha) && HasOffer(beta)
      && HeaderTitlesAsWritten(prev, [alpha, beta]) == [Some("Alpha"), Some("Alpha")]
      && EnglishTitle(beta.titles) == Some("Beta")
  {
    var us := Dict(["US"], map["US" := RegionPrice("59.99", Some(Sale("50", "29.99")))]);
    var alpha := Listing(map["NA" := Some("Alpha")], Rated(90), "8.0", us);
    var beta := Listing(map["EU" := Some("Beta")], Rated(80), "7.5", us);
    assert "NA" !in beta.titles;
    assert [alpha, beta][1..] == [beta];
  }

  /** The corrected rendering heads every entry with the English title of its
      own listing, since each entry is rendered under its `gameInfo` key. */
  lemma EntryTitleIsOwnTitle(resp: SaleResponse, i: nat)
    requires DealsPriced(resp)
    requires i < |Chosen(resp)|
    ensures var info := Collect(resp.gamesOnSale);
      var k := Chosen(resp)[i].0;
      && k in info.vals
      && EnglishTitle(info.vals[k].titles) == Some(k)
      && Pieces(Chosen(resp), info, resp.currencies)[i]
           == [ZeroWidthSpace] + "\n\n" + Header(EnglishTitle(info.vals[k].titles).value, info.vals[k])
              + Rows(Tokens(info.vals[k].prices.keys, info.vals[k].prices.vals, resp.currencies))
  {
    assert Chosen(resp)[i] in Chosen(resp);
  }
}
