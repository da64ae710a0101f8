/** The price sheet of the `games search` command (cogs/utility.py:355-397):
    the live prices of the game's current sale listing, completed with the
    full prices of the stored price documents, rendered two per row. */
module PriceSheet {
  import opened Py
  import opened Deals
  import opened Catalog

  /** One value of `gamePrices`: a live price has its discount and sale
      price, a historical one only the full price. */
  datatype Quote = Quote(discount: Option<string>, salePrice: Option<string>, price: string)

  /** The exceptions the command can stop with. `NoneSubscript` is indexing
      `None` (`self.saleData` before the first deals fetch, or the game's
      missing document); `CursorSubscript` is indexing the price cursor with a
      region (line 394). */
  datatype Failure = KeyError(key: string) | NoneSubscript | CursorSubscript

  /** A computation that either finishes or raises. */
  datatype Outcome<T> = Done(value: T) | Crash(failure: Failure)

  /** A document of the deals database's price collection: the game it
      prices and the full price of each region, in document order. */
  datatype PriceDoc = PriceDoc(gameId: string, fullPrices: Dict<string, string>)

  ghost predicate DocsOk(docs: seq<PriceDoc>) {
    forall i :: 0 <= i < |docs| ==> docs[i].fullPrices.Valid()
  }

  /** `find({'game_id': id})` (line 356): the documents of game `id`, in
      collection order. */
  function PricesFor(coll: seq<PriceDoc>, id: string): (docs: seq<PriceDoc>)
    ensures forall d :: d in docs <==> d in coll && d.gameId == id
    ensures DocsOk(coll) ==> DocsOk(docs)
    decreases |coll|
  {
    if coll == [] then []
    else
      var init := coll[..|coll| - 1];
      var d := coll[|coll| - 1];
      var r := PricesFor(init, id);
      assert forall e :: e in coll <==> e in init || e == d;
      assert DocsOk(coll) ==> DocsOk(init) by {
        if DocsOk(coll) {
          forall i | 0 <= i < |init| ensures init[i].fullPrices.Valid() {
            assert init[i] == coll[i];
          }
        }
      }
      if d.gameId == id then
        assert DocsOk(coll) && DocsOk(r) ==> DocsOk(r + [d]) by {
          if DocsOk(coll) && DocsOk(r) {
            forall i | 0 <= i < |r| + 1 ensures (r + [d])[i].fullPrices.Valid() {
              if i == |r| { assert coll[|coll| - 1] == d; }
            }
          }
        }
        r + [d]
      else r
  }

  /** A game no document names has no price history. */
  lemma {:induction false} NoPricesFor(coll: seq<PriceDoc>, id: string)
    requires forall d :: d in coll ==> d.gameId != id
    ensures PricesFor(coll, id) == []
    decreases |coll|
  {
    if coll != [] {
      var init := coll[..|coll| - 1];
      assert forall d :: d in init ==> d in coll;
      NoPricesFor(init, id);
      assert coll[|coll| - 1] in coll;
    }
  }

  // ---------------------------------------------------------------------
  // The live prices (lines 365-374)
  // ---------------------------------------------------------------------

  /** The index of the first listing whose titles equal `titles`; Python
      compares the two dicts by contents. */
  function FirstSameTitles(ls: seq<Listing>, titles: map<string, Option<string>>): (r: Option<nat>)
    ensures r.Some? ==> r.value < |ls| && ls[r.value].titles == titles
    ensures r.Some? ==> forall i :: 0 <= i < r.value ==> ls[i].titles != titles
    ensures r.None? ==> forall i :: 0 <= i < |ls| ==> ls[i].titles != titles
    decreases |ls|
  {
    if ls == [] then None
    else if ls[0].titles == titles then Some(0)
    else match FirstSameTitles(ls[1..], titles)
      case None => None
      case Some(i) => Some(i + 1)
  }

  /** The live entry of a region on sale (lines 368-372). */
  function LiveQuote(p: RegionPrice): (q: Quote)
    requires p.sale.Some?
    ensures q.discount == Some(p.sale.value.discount) && q.salePrice == Some(p.sale.value.salePrice)
    ensures q.price == p.fullPrice
  {
    Quote(Some(p.sale.value.discount), Some(p.sale.value.salePrice), p.fullPrice)
  }

  /** `gamePrices` after the loop of lines 367-372 has seen the first `n`
      regions of `prices`; a region that is not on sale has no `discount`
      and raises `KeyError`. */
  function LiveTo(prices: Dict<string, RegionPrice>, n: nat): (r: Outcome<Dict<string, Quote>>)
    requires prices.Valid() && n <= |prices.keys|
    ensures r.Done? ==> r.value.Valid()
    ensures r.Crash? ==> r.failure == KeyError("discount")
    decreases n
  {
    if n == 0 then Done(EmptyDict())
    else match LiveTo(prices, n - 1)
      case Crash(f) => Crash(f)
      case Done(gp) =>
        var key := prices.keys[n - 1];
        var value := prices.vals[key];
        if value.sale.None? then Crash(KeyError("discount"))
        else Done(gp.Put(key, LiveQuote(value)))
  }

  /** The live prices are complete exactly when every region is on sale;
      otherwise the lookup of `discount` raises. */
  lemma {:induction false} LiveToDone(prices: Dict<string, RegionPrice>, n: nat)
    requires prices.Valid() && n <= |prices.keys|
    ensures LiveTo(prices, n).Done? <==> forall i :: 0 <= i < n ==> prices.vals[prices.keys[i]].sale.Some?
    ensures LiveTo(prices, n).Crash? ==> LiveTo(prices, n).failure == KeyError("discount")
    decreases n
  {
    if n > 0 {
      LiveToDone(prices, n - 1);
      if LiveTo(prices, n - 1).Crash? {
        assert !(forall i :: 0 <= i < n - 1 ==> prices.vals[prices.keys[i]].sale.Some?);
      } else if prices.vals[prices.keys[n - 1]].sale.None? {
        assert LiveTo(prices, n).Crash?;
      } else {
        assert forall i :: 0 <= i < n ==> prices.vals[prices.keys[i]].sale.Some?;
      }
    }
  }

  /** Complete live prices list the regions in the listing's order. */
  lemma {:induction false} LiveToKeys(prices: Dict<string, RegionPrice>, n: nat)
    requires prices.Valid() && n <= |prices.keys| && LiveTo(prices, n).Done?
    ensures |LiveTo(prices, n).value.keys| == n
    ensures forall i :: 0 <= i < n ==> LiveTo(prices, n).value.keys[i] == prices.keys[i]
    decreases n
  {
    if n > 0 {
      LiveToKeys(prices, n - 1);
      var gp := LiveTo(prices, n - 1).value;
      var key := prices.keys[n - 1];
      assert key !in gp.vals by {
        assert gp.keys == prices.keys[..n - 1];
        assert key !in prices.keys[..n - 1];
      }
      assert LiveTo(prices, n) == Done(gp.Put(key, LiveQuote(prices.vals[key])));
    }
  }

  /** In complete live prices, each region has its live quote. */
  lemma {:induction false} LiveToValue(prices: Dict<string, RegionPrice>, n: nat, i: nat)
    requires prices.Valid() && i < n <= |prices.keys| && LiveTo(prices, n).Done?
    ensures prices.vals[prices.keys[i]].sale.Some?
    ensures prices.keys[i] in LiveTo(prices, n).value.vals
    ensures LiveTo(prices, n).value.vals[prices.keys[i]] == LiveQuote(prices.vals[prices.keys[i]])
    decreases n
  {
    var gp := LiveTo(prices, n - 1).value;
    var key := prices.keys[n - 1];
    assert LiveTo(prices, n).value.vals == gp.vals[key := LiveQuote(prices.vals[key])];
    if i < n - 1 {
      LiveToValue(prices, n - 1, i);
      assert prices.keys[i] != key;
    }
  }

  /** Once a region raises, the later regions are never reached. */
  lemma {:induction false} LiveToCrashes(prices: Dict<string, RegionPrice>, i: nat, m: nat)
    requires prices.Valid() && i <= m <= |prices.keys| && LiveTo(prices, i).Crash?
    ensures LiveTo(prices, m) == LiveTo(prices, i)
    decreases m
  {
    if m > i {
      LiveToCrashes(prices, i, m - 1);
    }
  }

  /** The live part of `gamePrices`: the prices of the first listing of the
      current sale with the game's titles, and nothing when no listing has
      them. With no sale data, or with listings but no stored document for
      the game, the indexing raises. */
  function Live(saleData: Option<SaleResponse>, doc: Option<StoredGame>): (r: Outcome<Dict<string, Quote>>)
    requires saleData.Some? ==> WellFormed(saleData.value)
    ensures r.Done? ==> saleData.Some? && r.value.Valid()
  {
    if saleData.None? then Crash(NoneSubscript)
    else
      var ls := saleData.value.gamesOnSale;
      if ls == [] then Done(EmptyDict())
      else if doc.None? then Crash(NoneSubscript)
      else match FirstSameTitles(ls, doc.value.entry.titles.vals)
        case None => Done(EmptyDict())
        case Some(i) =>
          assert ls[i] in ls;
          LiveTo(ls[i].prices, |ls[i].prices.keys|)
  }

  /** The loop of lines 365-374. */
  method FindLive(saleData: Option<SaleResponse>, doc: Option<StoredGame>) returns (r: Outcome<Dict<string, Quote>>)
    requires saleData.Some? ==> WellFormed(saleData.value)
    ensures r == Live(saleData, doc)
  {
    if saleData.None? {
      return Crash(NoneSubscript);
    }
    var ls := saleData.value.gamesOnSale;
    var gamePrices := EmptyDict();
    var n := 0;
    while n < |ls|
      invariant 0 <= n <= |ls|
      invariant doc.Some? ==> forall i :: 0 <= i < n ==> ls[i].titles != doc.value.entry.titles.vals
      invariant n > 0 ==> doc.Some?
    {
      var x := ls[n];
      if doc.None? {
        return Crash(NoneSubscript);
      }
      if x.titles == doc.value.entry.titles.vals {
        assert x in ls;
        FirstSameTitlesAt(ls, doc.value.entry.titles.vals, n);
        r := LiveQuotes(x.prices);
        return;
      }
      n := n + 1;
    }
    return Done(gamePrices);
  }

  lemma FirstSameTitlesAt(ls: seq<Listing>, titles: map<string, Option<string>>, n: nat)
    requires n < |ls| && ls[n].titles == titles
    requires forall i :: 0 <= i < n ==> ls[i].titles != titles
    ensures FirstSameTitles(ls, titles) == Some(n)
  {
  }

  /** The inner loop of lines 367-372 over one listing's regions. */
  method LiveQuotes(prices: Dict<string, RegionPrice>) returns (r: Outcome<Dict<string, Quote>>)
    requires prices.Valid()
    ensures r == LiveTo(prices, |prices.keys|)
  {
    var gamePrices := EmptyDict();
    var i := 0;
    while i < |prices.keys|
      invariant 0 <= i <= |prices.keys|
      invariant LiveTo(prices, i) == Done(gamePrices)
    {
      var step := LiveRegion(prices, i, gamePrices);
      if step.Crash? {
        return step;
      }
      gamePrices := step.value;
      i := i + 1;
    }
    return Done(gamePrices);
  }

  /** One turn of the loop of lines 367-372: the region's live quote is
      recorded, or reading its missing `discount` raises, which ends the
      whole loop. */
  method LiveRegion(prices: Dict<string, RegionPrice>, i: nat, gamePrices: Dict<string, Quote>)
    returns (r: Outcome<Dict<string, Quote>>)
    requires prices.Valid() && i < |prices.keys| && LiveTo(prices, i) == Done(gamePrices)
    ensures r == LiveTo(prices, i + 1)
    ensures r.Crash? ==> r == LiveTo(prices, |prices.keys|)
  {
    var key := prices.keys[i];
    assert key in prices.vals;
    var value := prices.vals[key];
    if value.sale.None? {
      LiveToCrashes(prices, i + 1, |prices.keys|);
      return Crash(KeyError("discount"));
    }
    return Done(gamePrices.Put(key, LiveQuote(value)));
  }

  // ---------------------------------------------------------------------
  // The historical prices (lines 376-383)
  // ---------------------------------------------------------------------

  /** `gamePrices` after the first `n` regions of document `d`: a region
      already present is skipped, a new one gets the full price alone. */
  function AddDoc(gp: Dict<string, Quote>, d: PriceDoc, n: nat): (r: Dict<string, Quote>)
    requires gp.Valid() && d.fullPrices.Valid() && n <= |d.fullPrices.keys|
    ensures r.Valid()
    decreases n
  {
    if n == 0 then gp
    else
      var prev := AddDoc(gp, d, n - 1);
      var key := d.fullPrices.keys[n - 1];
      if key in prev.vals then prev else prev.Put(key, Quote(None, None, d.fullPrices.vals[key]))
  }

  /** `gamePrices` after the outer loop has seen the first `n` documents. */
  function Merge(gp: Dict<string, Quote>, docs: seq<PriceDoc>, n: nat): (r: Dict<string, Quote>)
    requires gp.Valid() && DocsOk(docs) && n <= |docs|
    ensures r.Valid()
    decreases n
  {
    if n == 0 then gp
    else AddDoc(Merge(gp, docs, n - 1), docs[n - 1], |docs[n - 1].fullPrices.keys|)
  }

  /** `r` grows `gp`: the regions of `gp` keep their place and their quote. */
  ghost predicate Extends(r: Dict<string, Quote>, gp: Dict<string, Quote>) {
    && |gp.keys| <= |r.keys| && (forall i :: 0 <= i < |gp.keys| ==> r.keys[i] == gp.keys[i])
    && (forall k :: k in gp.vals ==> k in r.vals && r.vals[k] == gp.vals[k])
  }

  lemma ExtendsTrans(a: Dict<string, Quote>, b: Dict<string, Quote>, c: Dict<string, Quote>)
    requires Extends(a, b) && Extends(b, c)
    ensures Extends(a, c)
  {
  }

  /** The history only appends: the regions already present keep their
      place and their quote. */
  lemma {:induction false} AddDocKeeps(gp: Dict<string, Quote>, d: PriceDoc, n: nat)
    requires gp.Valid() && d.fullPrices.Valid() && n <= |d.fullPrices.keys|
    ensures Extends(AddDoc(gp, d, n), gp)
    decreases n
  {
    if n > 0 {
      AddDocKeeps(gp, d, n - 1);
      var prev := AddDoc(gp, d, n - 1);
      var key := d.fullPrices.keys[n - 1];
      if key !in prev.vals {
        assert Extends(prev.Put(key, Quote(None, None, d.fullPrices.vals[key])), prev);
      }
      ExtendsTrans(AddDoc(gp, d, n), prev, gp);
    }
  }

  lemma {:induction false} MergeKeeps(gp: Dict<string, Quote>, docs: seq<PriceDoc>, n: nat)
    requires gp.Valid() && DocsOk(docs) && n <= |docs|
    ensures Extends(Merge(gp, docs, n), gp)
    decreases n
  {
    if n > 0 {
      MergeKeeps(gp, docs, n - 1);
      var prev := Merge(gp, docs, n - 1);
      AddDocKeeps(prev, docs[n - 1], |docs[n - 1].fullPrices.keys|);
      ExtendsTrans(Merge(gp, docs, n), prev, gp);
    }
  }

  /** The first of the first `n` documents that has a price for region `k`. */
  function FirstDocWith(docs: seq<PriceDoc>, k: string, n: nat): (r: Option<nat>)
    requires n <= |docs|
    ensures r.Some? ==> r.value < n && k in docs[r.value].fullPrices.vals
    ensures r.Some? ==> forall i :: 0 <= i < r.value ==> k !in docs[i].fullPrices.vals
    ensures r.None? ==> forall i :: 0 <= i < n ==> k !in docs[i].fullPrices.vals
    decreases n
  {
    if n == 0 then None
    else match FirstDocWith(docs, k, n - 1)
      case Some(j) => Some(j)
      case None => if k in docs[n - 1].fullPrices.vals then Some(n - 1) else None
  }

  /** What `AddDoc` does to the map of quotes, apart from the key order. */
  function AddedVals(m: map<string, Quote>, d: PriceDoc, n: nat): map<string, Quote>
    requires n <= |d.fullPrices.keys|
    decreases n
  {
    if n == 0 then m
    else
      var prev := AddedVals(m, d, n - 1);
      var key := d.fullPrices.keys[n - 1];
      if key in prev || key !in d.fullPrices.vals then prev
      else prev[key := Quote(None, None, d.fullPrices.vals[key])]
  }

  lemma {:induction false} AddDocVals(gp: Dict<string, Quote>, d: PriceDoc, n: nat)
    requires gp.Valid() && d.fullPrices.Valid() && n <= |d.fullPrices.keys|
    ensures AddDoc(gp, d, n).vals == AddedVals(gp.vals, d, n)
    decreases n
  {
    if n > 0 {
      AddDocVals(gp, d, n - 1);
      AddDocStep(gp, d, n);
    }
  }

  /** One key of the inner loop: added with its full price unless present. */
  lemma AddDocStep(gp: Dict<string, Quote>, d: PriceDoc, n: nat)
    requires gp.Valid() && d.fullPrices.Valid() && 0 < n <= |d.fullPrices.keys|
    ensures var prev, key := AddDoc(gp, d, n - 1).vals, d.fullPrices.keys[n - 1];
      && key in d.fullPrices.vals
      && AddDoc(gp, d, n).vals == if key in prev then prev else prev[key := Quote(None, None, d.fullPrices.vals[key])]
  {
  }

  /** One document adds exactly its regions that were missing. */
  lemma {:induction false} AddedHas(m: map<string, Quote>, d: PriceDoc, n: nat, k: string)
    requires n <= |d.fullPrices.keys| && k !in m
    ensures k in AddedVals(m, d, n) <==> ListedIn(d.fullPrices.keys, k, n) && k in d.fullPrices.vals
    decreases n
  {
    if n > 0 {
      AddedHas(m, d, n - 1, k);
    }
  }

  /** `k` is among the first `n` elements of `ks`. */
  predicate ListedIn(ks: seq<string>, k: string, n: nat)
    requires n <= |ks|
  {
    n > 0 && (ks[n - 1] == k || ListedIn(ks, k, n - 1))
  }

  lemma {:induction false} ListedInAll(ks: seq<string>, k: string, n: nat)
    requires n <= |ks|
    ensures ListedIn(ks, k, n) <==> exists i :: 0 <= i < n && ks[i] == k
    decreases n
  {
    if n > 0 {
      ListedInAll(ks, k, n - 1);
      if ks[n - 1] != k {
        assert (exists i :: 0 <= i < n && ks[i] == k) ==> exists i :: 0 <= i < n - 1 && ks[i] == k;
      }
    }
  }

  /** Each region it adds carries its full price and no discount. */
  lemma {:induction false} AddedValue(m: map<string, Quote>, d: PriceDoc, n: nat, k: string)
    requires n <= |d.fullPrices.keys| && k !in m
    ensures k in AddedVals(m, d, n) ==>
      k in d.fullPrices.vals && AddedVals(m, d, n)[k] == Quote(None, None, d.fullPrices.vals[k])
    decreases n
  {
    if n > 0 {
      AddedValue(m, d, n - 1, k);
    }
  }

  /** The whole of a document adds its regions that were missing, each
      with its full price and no discount. */
  lemma AddedAll(m: map<string, Quote>, d: PriceDoc, k: string)
    requires d.fullPrices.Valid() && k !in m
    ensures var r := AddedVals(m, d, |d.fullPrices.keys|);
      (k in r <==> k in d.fullPrices.vals)
      && (k in r ==> r[k] == Quote(None, None, d.fullPrices.vals[k]))
  {
    AddedHas(m, d, |d.fullPrices.keys|, k);
    AddedValue(m, d, |d.fullPrices.keys|, k);
    ListedInAll(d.fullPrices.keys, k, |d.fullPrices.keys|);
    if k in d.fullPrices.vals {
      assert k in d.fullPrices.keys;
    }
  }

  /** A region already present keeps its quote. */
  lemma {:induction false} AddedKeeps(m: map<string, Quote>, d: PriceDoc, n: nat, k: string)
    requires n <= |d.fullPrices.keys| && k in m
    ensures k in AddedVals(m, d, n) && AddedVals(m, d, n)[k] == m[k]
    decreases n
  {
    if n > 0 {
      AddedKeeps(m, d, n - 1, k);
    }
  }

  /** What `Merge` does to the map of quotes. */
  function MergedVals(m: map<string, Quote>, docs: seq<PriceDoc>, n: nat): map<string, Quote>
    requires n <= |docs|
    decreases n
  {
    if n == 0 then m
    else AddedVals(MergedVals(m, docs, n - 1), docs[n - 1], |docs[n - 1].fullPrices.keys|)
  }

  lemma {:induction false} MergeVals(gp: Dict<string, Quote>, docs: seq<PriceDoc>, n: nat)
    requires gp.Valid() && DocsOk(docs) && n <= |docs|
    ensures Merge(gp, docs, n).vals == MergedVals(gp.vals, docs, n)
    decreases n
  {
    if n > 0 {
      MergeVals(gp, docs, n - 1);
      AddDocVals(Merge(gp, docs, n - 1), docs[n - 1], |docs[n - 1].fullPrices.keys|);
    }
  }

  lemma {:induction false} MergedFirstDocWins(m: map<string, Quote>, docs: seq<PriceDoc>, n: nat, k: string)
    requires DocsOk(docs) && n <= |docs| && k !in m
    ensures match FirstDocWith(docs, k, n)
      case None => k !in MergedVals(m, docs, n)
      case Some(j) => (k in MergedVals(m, docs, n)
        && MergedVals(m, docs, n)[k] == Quote(None, None, docs[j].fullPrices.vals[k]))
    decreases n
  {
    if n > 0 {
      MergedFirstDocWins(m, docs, n - 1, k);
      var prev := MergedVals(m, docs, n - 1);
      var d := docs[n - 1];
      assert d.fullPrices.Valid();
      if k !in prev {
        AddedAll(prev, d, k);
      } else {
        AddedKeeps(prev, d, |d.fullPrices.keys|, k);
      }
    }
  }

  /** A region without a live price takes the
      full price of the first document that has the region, without a
      discount; a region no document and no live listing has stays absent. */
  lemma MergeFirstDocWins(gp: Dict<string, Quote>, docs: seq<PriceDoc>, n: nat, k: string)
    requires gp.Valid() && DocsOk(docs) && n <= |docs|
    ensures k !in gp.vals ==> match FirstDocWith(docs, k, n)
      case None => k !in Merge(gp, docs, n).vals
      case Some(j) => (k in Merge(gp, docs, n).vals
        && Merge(gp, docs, n).vals[k] == Quote(None, None, docs[j].fullPrices.vals[k]))
  {
    if k !in gp.vals {
      MergeVals(gp, docs, n);
      MergedFirstDocWins(gp.vals, docs, n, k);
    }
  }

  /** The loop of lines 376-383. */
  method MergeHistory(gamePrices: Dict<string, Quote>, docs: seq<PriceDoc>) returns (r: Dict<string, Quote>)
    requires gamePrices.Valid() && DocsOk(docs)
    ensures r == Merge(gamePrices, docs, |docs|)
  {
    r := gamePrices;
    var n := 0;
    while n < |docs|
      invariant 0 <= n <= |docs|
      invariant r == Merge(gamePrices, docs, n)
    {
      MergeNext(gamePrices, docs, n);
      r := AddDocPrices(r, docs[n]);
      n := n + 1;
    }
  }

  /** One turn of the outer loop of lines 376-383 adds the next document. */
  lemma MergeNext(gp: Dict<string, Quote>, docs: seq<PriceDoc>, n: nat)
    requires gp.Valid() && DocsOk(docs) && n < |docs|
    ensures docs[n].fullPrices.Valid() && Merge(gp, docs, n).Valid()
    ensures Merge(gp, docs, n + 1) == AddDoc(Merge(gp, docs, n), docs[n], |docs[n].fullPrices.keys|)
  {
  }

  /** The inner loop of lines 377-383 over one document's regions. */
  method AddDocPrices(gamePrices: Dict<string, Quote>, d: PriceDoc) returns (r: Dict<string, Quote>)
    requires gamePrices.Valid() && d.fullPrices.Valid()
    ensures r == AddDoc(gamePrices, d, |d.fullPrices.keys|)
  {
    r := gamePrices;
    var i := 0;
    while i < |d.fullPrices.keys|
      invariant 0 <= i <= |d.fullPrices.keys|
      invariant r == AddDoc(gamePrices, d, i)
    {
      r := AddRegion(gamePrices, d, i, r);
      i := i + 1;
    }
  }

  /** One turn of the inner loop: a region already present is skipped
      (line 378), a new one is added with the document's full price (lines 379-383). */
  method AddRegion(gamePrices: Dict<string, Quote>, d: PriceDoc, i: nat, r: Dict<string, Quote>)
    returns (r': Dict<string, Quote>)
    requires gamePrices.Valid() && d.fullPrices.Valid() && i < |d.fullPrices.keys|
    requires r == AddDoc(gamePrices, d, i)
    ensures r' == AddDoc(gamePrices, d, i + 1)
  {
    var key := d.fullPrices.keys[i];
    if key in r.vals {
      return r;
    }
    assert key in d.fullPrices.vals;
    r' := r.Put(key, Quote(None, None, d.fullPrices.vals[key]));
  }

  // ---------------------------------------------------------------------
  // The rendering (lines 385-397)
  // ---------------------------------------------------------------------

  /** `self.codepoints` (lines 45-62): the flag of each region the bot knows. */
  function Codepoint(region: string): (c: Option<string>)
    ensures c.Some? ==> |c.value| == 2
  {
    if region == "CA" then Some("\U{1F1E8}\U{1F1E6}")
    else if region == "MX" then Some("\U{1F1F2}\U{1F1FD}")
    else if region == "US" then Some("\U{1F1FA}\U{1F1F8}")
    else if region == "CZ" then Some("\U{1F1E8}\U{1F1FF}")
    else if region == "DK" then Some("\U{1F1E9}\U{1F1F0}")
    else if region == "EU" then Some("\U{1F1EA}\U{1F1FA}")
    else if region == "GB" then Some("\U{1F1EC}\U{1F1E7}")
    else if region == "NO" then Some("\U{1F1F3}\U{1F1F4}")
    else if region == "PL" then Some("\U{1F1F5}\U{1F1F1}")
    else if region == "RU" then Some("\U{1F1F7}\U{1F1FA}")
    else if region == "ZA" then Some("\U{1F1FF}\U{1F1E6}")
    else if region == "SE" then Some("\U{1F1F8}\U{1F1EA}")
    else if region == "CH" then Some("\U{1F1E8}\U{1F1ED}")
    else if region == "AU" then Some("\U{1F1E6}\U{1F1FA}")
    else if region == "NZ" then Some("\U{1F1F3}\U{1F1FF}")
    else if region == "JP" then Some("\U{1F1EF}\U{1F1F5}")
    else None
  }

  /** The deals list and the price sheet draw the same flag for a shown region. */
  lemma CodepointIsFlag(region: string)
    requires region in ShownRegions
    ensures Codepoint(region) == Some(Flag(region))
  {
  }

  /** The text one price adds, or the exception it raises: the currency
      lookup first (line 387), then the flag; a truthy discount takes the
      branch of line 394, which indexes the price cursor with the region. */
  function PriceText(key: string, q: Quote, currencies: map<string, string>): (r: Outcome<string>)
    ensures r.Done? <==> key in currencies && Codepoint(key).Some? && !Truthy(q.discount)
    ensures r.Crash? ==> r.failure == KeyError(key) || r.failure == CursorSubscript
  {
    if key !in currencies then Crash(KeyError(key))
    else if Codepoint(key).None? then Crash(KeyError(key))
    else if Truthy(q.discount) then Crash(CursorSubscript)
    else Done(Codepoint(key).value + " " + currencies[key] + q.price + " ")
  }

  /** Once an item raises, the later items are never reached. */
  lemma {:induction false} RenderToCrashes(items: seq<(string, Quote)>, currencies: map<string, string>, i: nat, m: nat)
    requires i <= m <= |items| && RenderTo(items, currencies, i).Crash?
    ensures RenderTo(items, currencies, m) == RenderTo(items, currencies, i)
    decreases m
  {
    if m > i {
      RenderToCrashes(items, currencies, i, m - 1);
    }
  }

  /** The description after the first `n` items, or the first exception. */
  function RenderTo(items: seq<(string, Quote)>, currencies: map<string, string>, n: nat): (r: Outcome<string>)
    requires n <= |items|
    ensures r.Done? ==> |r.value| >= 13 && r.value[..13] == "Price data:\n\n"
    decreases n
  {
    if n == 0 then Done("Price data:\n\n")
    else match RenderTo(items, currencies, n - 1)
      case Crash(f) => Crash(f)
      case Done(desc) =>
        match PriceText(items[n - 1].0, items[n - 1].1, currencies)
        case Crash(f) => Crash(f)
        case Done(t) => Done(desc + Break(n - 1) + t)
  }

  /** What goes before the price with index `i`: a line break before the
      third, the fifth and so on (lines 388-391). */
  function Break(i: nat): string {
    if i >= 2 && i % 2 == 0 then "\n" else ""
  }

  /** The counter `entry` after `i` prices, and the step of lines 388-391:
      it reaches 3, and the line breaks, exactly before an even index from 2 on. */
  lemma EntryStep(i: nat, entry: int)
    requires entry == if i == 0 then 0 else 2 - i % 2
    ensures (entry + 1 == 3) == (i >= 2 && i % 2 == 0)
    ensures (if entry + 1 == 3 then 1 else entry + 1) == 2 - (i + 1) % 2
  {
  }

  /** The reference layout: the texts two to a line. */
  function Lines(ts: seq<string>): string
    decreases |ts|
  {
    if |ts| <= 2 then Concat(ts) else Concat(ts[..2]) + "\n" + Lines(ts[2..])
  }

  /** Adding a text to the layout starts a new line exactly when the last
      line already holds two. */
  lemma {:induction false} LinesSnoc(ts: seq<string>, t: string)
    ensures Lines(ts + [t]) == Lines(ts) + Break(|ts|) + t
    decreases |ts|
  {
    if |ts| < 2 {
      LinesSnocShort(ts, t);
    } else if |ts| == 2 {
      LinesSnocTwo(ts, t);
    } else {
      LinesSnoc(ts[2..], t);
      LinesSnocLong(ts, t);
    }
  }

  lemma LinesSnocShort(ts: seq<string>, t: string)
    requires |ts| < 2
    ensures Lines(ts + [t]) == Lines(ts) + Break(|ts|) + t
  {
    var u := ts + [t];
    assert u[..|u| - 1] == ts;
    assert Lines(u) == Concat(ts) + t;
    assert Concat(ts) + "" + t == Concat(ts) + t;
  }

  lemma LinesSnocTwo(ts: seq<string>, t: string)
    requires |ts| == 2
    ensures Lines(ts + [t]) == Lines(ts) + Break(|ts|) + t
  {
    var u := ts + [t];
    assert u[..2] == ts;
    assert u[2..] == [t];
    ConcatOne(t);
  }

  lemma LinesSnocLong(ts: seq<string>, t: string)
    requires |ts| > 2
    requires Lines(ts[2..] + [t]) == Lines(ts[2..]) + Break(|ts| - 2) + t
    ensures Lines(ts + [t]) == Lines(ts) + Break(|ts|) + t
  {
    var u := ts + [t];
    var head, rest := Concat(ts[..2]), ts[2..];
    SnocSlices(ts, t);
    LinesUnfold(u);
    LinesUnfold(ts);
    BreakShift(|rest|);
    Assoc(head + "\n", Lines(rest), Break(|ts|), t);
  }

  lemma SnocSlices(ts: seq<string>, t: string)
    requires |ts| >= 2
    ensures (ts + [t])[..2] == ts[..2] && (ts + [t])[2..] == ts[2..] + [t]
  {
    assert (ts + [t])[..2] == ts[..2];
    assert (ts + [t])[2..] == ts[2..] + [t];
  }

  lemma LinesUnfold(ts: seq<string>)
    requires |ts| > 2
    ensures Lines(ts) == Concat(ts[..2]) + "\n" + Lines(ts[2..])
  {
  }

  lemma BreakShift(i: nat)
    requires i >= 1
    ensures Break(i + 2) == Break(i)
  {
  }

  /** The texts of the first `n` items, or the first exception among them. */
  function TextsTo(items: seq<(string, Quote)>, currencies: map<string, string>, n: nat): (r: Outcome<seq<string>>)
    requires n <= |items|
    ensures r.Done? ==> |r.value| == n
    decreases n
  {
    if n == 0 then Done([])
    else match TextsTo(items, currencies, n - 1)
      case Crash(f) => Crash(f)
      case Done(ts) =>
        match PriceText(items[n - 1].0, items[n - 1].1, currencies)
        case Crash(f) => Crash(f)
        case Done(t) => Done(ts + [t])
  }

  /** Every price renders exactly when none raises. */
  lemma {:induction false} TextsToDone(items: seq<(string, Quote)>, currencies: map<string, string>, n: nat)
    requires n <= |items|
    ensures TextsTo(items, currencies, n).Done? <==>
      forall i :: 0 <= i < n ==> PriceText(items[i].0, items[i].1, currencies).Done?
    decreases n
  {
    if n > 0 {
      TextsToDone(items, currencies, n - 1);
    }
  }

  /** The description is the heading followed by the price texts two to a
      line, and raises with the first exception of a price. */
  lemma {:induction false} RenderLines(items: seq<(string, Quote)>, currencies: map<string, string>, n: nat)
    requires n <= |items|
    ensures RenderTo(items, currencies, n) == match TextsTo(items, currencies, n)
      case Crash(f) => Crash(f)
      case Done(ts) => Done("Price data:\n\n" + Lines(ts))
    decreases n
  {
    if n > 0 {
      RenderLines(items, currencies, n - 1);
      match TextsTo(items, currencies, n - 1)
      case Crash(_) =>
      case Done(ts) =>
        match PriceText(items[n - 1].0, items[n - 1].1, currencies)
        case Crash(_) =>
        case Done(t) =>
          LinesSnoc(ts, t);
          Assoc("Price data:\n\n", Lines(ts), Break(n - 1), t);
    } else {
      assert Lines([]) == "";
      assert "Price data:\n\n" + "" == "Price data:\n\n";
    }
  }

  /** A price that raises ends the description with its exception. */
  lemma RenderToStops(items: seq<(string, Quote)>, currencies: map<string, string>, i: nat, desc: string, f: Failure)
    requires i < |items| && RenderTo(items, currencies, i) == Done(desc)
    requires PriceText(items[i].0, items[i].1, currencies) == Crash(f)
    ensures RenderTo(items, currencies, |items|) == Crash(f)
  {
    RenderToCrashes(items, currencies, i + 1, |items|);
  }

  /** One price more in the description. */
  lemma RenderToNext(items: seq<(string, Quote)>, currencies: map<string, string>, i: nat, desc: string, t: string)
    requires i < |items| && RenderTo(items, currencies, i) == Done(desc)
    requires PriceText(items[i].0, items[i].1, currencies) == Done(t)
    ensures RenderTo(items, currencies, i + 1) == Done(desc + Break(i) + t)
  {
  }

  lemma Assoc(a: string, b: string, c: string, d: string)
    ensures a + (b + c + d) == a + b + c + d
  {
  }

  /** The loop of lines 385-397; `items` is `gamePrices.items()`. */
  method Describe(items: seq<(string, Quote)>, currencies: map<string, string>) returns (r: Outcome<string>)
    ensures r == RenderTo(items, currencies, |items|)
  {
    var desc := "Price data:\n\n";
    var entry := 0;
    var i := 0;
    while i < |items|
      invariant 0 <= i <= |items|
      invariant RenderTo(items, currencies, i) == Done(desc)
      invariant entry == if i == 0 then 0 else 2 - i % 2
    {
      var (key, value) := items[i];
      EntryStep(i, entry);
      var piece;
      piece, entry := DescribeOne(key, value, currencies, entry);
      if piece.Crash? {
        RenderToStops(items, currencies, i, desc, piece.failure);
        return Crash(piece.failure);
      }
      RenderToPiece(items, currencies, i, desc, piece.value);
      desc := desc + piece.value;
      i := i + 1;
    }
    return Done(desc);
  }

  /** One pass of the loop body (lines 386-397): the text it adds to `desc`,
      with the line break `entry` calls for, and the new `entry`. */
  method DescribeOne(key: string, value: Quote, currencies: map<string, string>, entry: int)
    returns (piece: Outcome<string>, next: int)
    ensures piece == match PriceText(key, value, currencies)
      case Crash(f) => Crash(f)
      case Done(t) => Done((if entry + 1 == 3 then "\n" else "") + t)
    ensures piece.Done? ==> next == if entry + 1 == 3 then 1 else entry + 1
  {
    if key !in currencies {
      return Crash(KeyError(key)), entry;
    }
    var currency := currencies[key];
    var lead := "";
    next := entry + 1;
    if next == 3 {
      lead := "\n";
      next := 1;
    }
    var flag := Codepoint(key);
    if flag.None? {
      return Crash(KeyError(key)), next;
    }
    if Truthy(value.discount) {
      return Crash(CursorSubscript), next;
    }
    piece := Done(lead + (flag.value + " " + currency + value.price + " "));
  }

  lemma RenderToPiece(items: seq<(string, Quote)>, currencies: map<string, string>, i: nat, desc: string, piece: string)
    requires i < |items| && RenderTo(items, currencies, i) == Done(desc)
    requires PriceText(items[i].0, items[i].1, currencies).Done?
    requires piece == Break(i) + PriceText(items[i].0, items[i].1, currencies).value
    ensures RenderTo(items, currencies, i + 1) == Done(desc + piece)
  {
    var t := PriceText(items[i].0, items[i].1, currencies).value;
    RenderToNext(items, currencies, i, desc, t);
    assert desc + (Break(i) + t) == desc + Break(i) + t;
  }

  /** Rendering never shows a live sale: an item with a discount makes the
      description raise. */
  lemma DiscountNeverShown(items: seq<(string, Quote)>, currencies: map<string, string>, i: nat)
    requires i < |items| && Truthy(items[i].1.discount)
    ensures RenderTo(items, currencies, |items|).Crash?
  {
    RenderLines(items, currencies, |items|);
    TextsToDone(items, currencies, |items|);
  }

  // ---------------------------------------------------------------------
  // The whole description (lines 355-397)
  // ---------------------------------------------------------------------

  const NoPriceData: string := "*This is no available price data for this game*"

  /** The description for a game with stored document `doc` and price
      documents `docs`: the notice when there are none, else the merged
      prices rendered. */
  function Description(saleData: Option<SaleResponse>, doc: Option<StoredGame>, docs: seq<PriceDoc>): (r: Outcome<string>)
    requires saleData.Some? ==> WellFormed(saleData.value)
    requires DocsOk(docs)
    ensures docs == [] ==> r == Done(NoPriceData)
  {
    if docs == [] then Done(NoPriceData)
    else match Live(saleData, doc)
      case Crash(f) => Crash(f)
      case Done(live) =>
        var gp := Merge(live, docs, |docs|);
        RenderTo(gp.Items(), saleData.value.currencies, |gp.keys|)
  }

  /** A game whose current sale listing has a discount in any region never
      gets its price sheet: the command raises instead. */
  lemma OnSaleGameNeverShown(saleData: Option<SaleResponse>, doc: Option<StoredGame>, docs: seq<PriceDoc>, k: string)
    requires saleData.Some? && WellFormed(saleData.value) && DocsOk(docs) && docs != []
    requires doc.Some?
    requires var i := FirstSameTitles(saleData.value.gamesOnSale, doc.value.entry.titles.vals);
      i.Some? && var p := saleData.value.gamesOnSale[i.value].prices;
      k in p.vals && p.vals[k].sale.Some? && p.vals[k].sale.value.discount != ""
    ensures Description(saleData, doc, docs).Crash?
  {
    var ls := saleData.value.gamesOnSale;
    var i := FirstSameTitles(ls, doc.value.entry.titles.vals).value;
    assert ls[i] in ls;
    var p := ls[i].prices;
    match Live(saleData, doc)
    case Crash(_) =>
    case Done(live) =>
      assert k in p.keys;
      var j :| 0 <= j < |p.keys| && p.keys[j] == k;
      LiveToValue(p, |p.keys|, j);
      var gp := Merge(live, docs, |docs|);
      MergeKeeps(live, docs, |docs|);
      var m :| 0 <= m < |gp.keys| && gp.keys[m] == k;
      DiscountNeverShown(gp.Items(), saleData.value.currencies, m);
  }
}
