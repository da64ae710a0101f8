# MechaBowser utility cog, modelled in Dafny

MechaBowser is a Discord moderation and utility bot for a Nintendo community
server. Its `cogs/utility.py` holds two cogs:

- **`NintenDeals`** keeps a catalog of Switch games mirrored from an upstream
  deals database. It posts a ranked deals list several times a day. Its
  `games search` command answers with a game's regional prices.
- **`ChatControl`** filters chat messages (affiliate links, Super Mario Maker 2
  level codes). It also holds the moderator commands `clean`, `info` and
  `blacklist`.

This project models the business logic inside those handlers. The model works
over plain values: sequences of records, insertion-ordered dictionaries,
sets of role ids and strings. It then proves what the code promises about them.
One module per part of the cog:

- **`Py`** (`py.dfy`): a Python `dict` as `Dict(keys, vals)`, an insertion-ordered key
  sequence plus a map. Assigning an existing key keeps its position. It also
  models `str.upper` on ASCII letters, `''.join` and `str(n)` for naturals.
- **`Deals`** (`deals.dfy`): the deals list of `query_deals`, as a pipeline of five steps:
  1. keep the listings with an English title and a US price;
  2. score them, with `'-'` counted as 0;
  3. sort stably by descending score;
  4. render at most 20 entries, skipping listings with no offer in US, EU,
     GB or AU. An entry has at most four price tokens, with a row break
     before the third;
  5. pack the entries after the header into messages of at most 1990
     characters. A continuation message drops the first two characters of
     its chunk and starts with a zero-width space instead. Its chunk starts
     with an entry, that is a zero-width space and two newlines, so the
     message reads as a zero-width space, one newline and the entry.

  The loops that fill `gameInfo`/`gameScore`, count `entry`, spend `maxAmt`
  and accumulate `chunk` are methods, each proved against the function that
  specifies it.
- **`Catalog`** (`catalog.dfy`) and the class `Cog.NintenDeals`: `update_game_info`. Each
  upstream Switch game is projected and cached in `self.games`. A new game is
  inserted into the `games` collection with `released = False`. A known game
  whose stored projection differs gets an update. The update `$set`s the
  values just read from the stored document, so no pass ever changes a stored
  document. The collection is the class `Catalog.GameStore`, with a write log.
- **`Search`** (`search.dfy`): the exact lookup of `games search`.
  - It builds a deduplicated list of non-null titles in catalog order.
  - Each title is attributed to the first game that has it.
  - A case-insensitive exact match answers with its first owner.
- **`PriceSheet`** (`prices.dfy`): the price sheet of `games search`. It takes the live
  prices of the game's current sale listing, adds the full prices of the
  stored price documents (the first document to name a region wins) and
  renders two prices per row. Every exception the code can raise on the way
  is modelled as an `Outcome`.
- **`Release`** (`release.dfy`): the helpers of `new_release_posting`:
  - the released test;
  - the name priority NA > EU > JP;
  - the fixed website priority;
  - the 2048-character cap on the description.
- **`Cog`** (`cog.dfy`): the cog's state as a class, and its tasks as methods over that
  state (`UpdateGameInfo`, `QueryDeals`, `NewReleasePosting`, `GamesSearch`).
- **`Blacklist`** (`blacklist.dfy`): the `blacklist` command. It toggles a member's blocking
  role for the suggestions or the spoilers channel. It records the change in
  the punishment collection; an unblacklist also closes the first open
  blacklist record. `Member` and `PunStore` are classes whose methods change
  them in place.
- **`ChatFilter`** (`chatfilter.dfy`): the decision `on_message` takes for one message, as the
  list of effects it performs. The level-ID pattern `xxx-xxx-xxx` is scanned
  concretely. What the three other regular expressions report reaches the
  model as input.
- **`Moderation`** (`moderation.dfy`): two commands.
  - `clean`: the confirmation rule for 100 or more messages, which messages
    the purge removes, and the archive order.
  - `info`: the punishment summary, which shows the newest five records.

Python's `dict` equality ignores order. The catalog comparison of line 116
is therefore modelled on the maps alone (`Catalog.Same`).

## Model

| member | source | states |
|---|---|---|
| Py.Dict.Put | cogs/utility.py:232-233 | `d[k] = v`: a new key goes last, an existing key keeps its place, and the value is replaced |
| Py.Dict.Items | cogs/utility.py:253 | `items()` yields each key in insertion order with its value |
| Py.Upper | cogs/utility.py:316 | `str.upper` keeps the length and upper-cases each character on its own |
| Deals.EnglishTitle | cogs/utility.py:219-227 | the title a listing is kept under is never empty |
| Deals.TitleOf | cogs/utility.py:219-226 | the title the collection loop computes is truthy exactly when the listing has an English title, and is then that title: NA if truthy, else EU |
| Deals.Eligible | cogs/utility.py:217-230 | a listing is kept exactly when it has an English title and a US price (definition; no contract) |
| Deals.Rank | cogs/utility.py:233 | a score is never negative, and `'-'` counts as 0 |
| Deals.Collect | cogs/utility.py:217-232 | `gameInfo` holds only listings of the response that pass both filters (English title, US price), each under its own English title |
| Deals.CollectKeys | cogs/utility.py:217-232 | the keys of `gameInfo` are the eligible titles in order of first occurrence |
| Deals.CollectValues | cogs/utility.py:232 | a title is kept exactly when some eligible listing has it, and it maps to the last such listing (later duplicates overwrite) |
| Deals.ScoreTable | cogs/utility.py:233 | `gameScore` has the keys of `gameInfo` in the same order, and each score is the metascore with `'-'` as 0 |
| Deals.ScoreTablePut | cogs/utility.py:232-233 | putting a listing into `gameInfo` puts its score into `gameScore` |
| Deals.CollectSaleGames | cogs/utility.py:217-233 | the collection loop builds exactly `Collect` and `ScoreTable` |
| Deals.Insert | cogs/utility.py:235 | one insertion step of the sort keeps the multiset and adds one item |
| Deals.SortByScore | cogs/utility.py:235 | `sorted` returns a permutation of the score items |
| Deals.InsertRanked | cogs/utility.py:235 | inserting an item that came earlier than all others keeps the result ranked |
| Deals.SortRanked | cogs/utility.py:235 | the sorted items are in non-increasing score order, and equal scores keep their insertion order (the sort is stable) |
| Deals.SortedItems | cogs/utility.py:235 | `sortedScores` is a permutation of `gameScore.items()`, each item scored by its own listing |
| Deals.Offered | cogs/utility.py:253-255 | the regions that get a token are among the listing's regions, shown (US, EU, GB, AU) and on sale |
| Deals.TokensTo | cogs/utility.py:253-262 | after the first `n` regions there is one token per offered region |
| Deals.AtMostFourTokens | cogs/utility.py:252-262 | an entry carries at most four price tokens |
| Deals.RowsAppend | cogs/utility.py:257-262 | appending a token adds a newline exactly when it is the third |
| Deals.EmitRows | cogs/utility.py:257-262 | one turn of the token loop (count, newline before the third, token) extends the rendered rows by that token |
| Deals.AppendStep | cogs/utility.py:253-262 | one turn of the inner loop keeps `gameText` and `entry` equal to the rows and the count of the tokens seen so far |
| Deals.AppendPrices | cogs/utility.py:252-262 | the inner loop appends the token rows to the entry text, and `entry` counts the offered regions |
| Deals.RenderEntry | cogs/utility.py:240-268 | the loop body renders header plus token rows behind the zero-width space and two newlines, and counts the tokens |
| Deals.Select | cogs/utility.py:236-267 | at most `maxAmt` listings are rendered, each one from the sorted input and with an offer |
| Deals.SelectTakesQualifying | cogs/utility.py:236-267 | the rendered listings are the first `maxAmt` of those with an offer, so a skipped listing does not spend the quota |
| Deals.SelectRanked | cogs/utility.py:235-267 | the rendered listings keep the sorted order |
| Deals.Pieces | cogs/utility.py:268 | one piece per rendered listing |
| Deals.PiecesAppend | cogs/utility.py:268 | appending a listing appends its entry |
| Deals.RenderedStep | cogs/utility.py:236-267 | a visit with quota left either renders the listing and spends one unit of quota or, with no offer, skips it |
| Deals.RenderedDone | cogs/utility.py:237 | when the items or the quota run out, the loop has rendered the selection |
| Deals.RenderEntries | cogs/utility.py:236-268 | the rendering loop yields exactly the pieces of the selection of 20 |
| Deals.VisitedPriced | cogs/utility.py:236-265 | every listing the rendering loop visits has a currency for each price token it renders: it is either the next selected one or has no offer |
| Deals.NoOfferPriced | cogs/utility.py:252-265 | a listing without an offer renders no price token, so it needs no currency |
| Deals.OfferedComplete | cogs/utility.py:253-262 | every region among US, EU, GB and AU with a `discount` is offered |
| Deals.RenderNext | cogs/utility.py:238-268 | one turn of the rendering loop: a listing without price tokens is skipped and keeps the quota, one with tokens appends its entry and uses one of the quota; the pieces stay the entries of the items chosen so far, and the rest of the selection comes from the remaining items |
| Deals.OfferedDistinct | cogs/utility.py:253 | no region gets two tokens, because dict keys are distinct |
| Deals.Token | cogs/utility.py:262 | a price token starts with the region's flag and ends with `%) ` |
| Deals.Rows | cogs/utility.py:257-262 | the rows are the tokens with one newline added when there are more than two |
| Deals.Header | cogs/utility.py:250 | the header starts with the bold title and a newline, and ends with `*` and a newline |
| Deals.Entry | cogs/utility.py:268 | an entry starts with the zero-width space and two newlines, then its header |
| Deals.Pack | cogs/utility.py:270-287 | the messages always include at least one group |
| Deals.Message | cogs/utility.py:277-285 | a later message is a zero-width space plus its chunk from the third character on; no message is longer than its chunk |
| Deals.Messages | cogs/utility.py:277-287 | one message per group |
| Deals.PackFlatten | cogs/utility.py:270-287 | the groups are the header and the pieces, in order, each exactly once |
| Deals.PackSnoc | cogs/utility.py:272-282 | a piece joins the open message when it fits in 1990 characters and otherwise opens a new one |
| Deals.PackGroups | cogs/utility.py:270-282 | every group is non-empty and is either within 1990 characters or a single piece |
| Deals.PackedJoin | cogs/utility.py:273-275 | a piece that fits is appended to `chunk` |
| Deals.PackedOpen | cogs/utility.py:277-282 | a piece that does not fit sends `chunk`, rewritten when it is not the first message, and starts a new chunk |
| Deals.PackedDone | cogs/utility.py:284-287 | the last chunk is sent, rewritten when it is not the first |
| Deals.PackMessages | cogs/utility.py:270-287 | the packing loop sends exactly the messages of `Pack` |
| Deals.MessagesWithinBudget | cogs/utility.py:273 | every sent message is within 1990 characters or holds a single piece |
| Deals.Chosen | cogs/utility.py:235-267 | every rendered item is a key of `gameInfo` |
| Deals.ChosenProperties | cogs/utility.py:217-267 | at most 20 entries; each one is a listing of the response with an English title, a US price and an offer, scored by its metascore; the entries are ranked and keep insertion order on equal scores |
| Deals.IneligibleNeverRendered | cogs/utility.py:217-230 | a listing with no English title or no `'US'` price is never rendered |
| Deals.ChosenIsFirstTwentyOffers | cogs/utility.py:213-267 | the rendered listings are the first 20 of the sorted ones that have an offer |
| Deals.DealMessagesShape | cogs/utility.py:270-287 | at least one message; the first is its chunk verbatim; later ones are a zero-width space plus the chunk without its first two characters; every message is within budget or a single piece; pieces stay in order |
| Deals.BuildDealMessages | cogs/utility.py:211-287 | the whole deals computation sends `DealMessages` |
| Deals.DealMessages | cogs/utility.py:211-287 | at least one message is sent, and the first starts with the header |
| Deals.HeaderTitlesAsWritten | cogs/utility.py:244-248 | the header titles as the code computes them over every visited listing, including those skipped at line 265, where `title` carries over from the previous iteration and starts from the title the collection loop left |
| Deals.HeaderTitleWithNAKey | cogs/utility.py:244-248 | as written, a listing with an `NA` key is headed with its English title |
| Deals.StaleTitleCounterexample | cogs/utility.py:244-248 | as written, for two eligible listings on sale in the US, an EU-only one visited after an NA-titled one is headed with the other listing's title, whatever title the collection loop left |
| Deals.EntryTitleIsOwnTitle | cogs/utility.py:244-250 | in the corrected rendering every entry is headed with its own listing's English title, the key it was collected under at line 232 |
| Catalog.SwitchGames | cogs/utility.py:84 | exactly the upstream games whose system is Switch, in order |
| Catalog.Same | cogs/utility.py:116 | two projections compare equal exactly when they are equal apart from the key order of their titles |
| Catalog.Visit | cogs/utility.py:85-118 | one iteration leaves the game cached and stored, and issues at most one write |
| Catalog.Sync | cogs/utility.py:84-118 | a pass keeps every stored id, and issues at most one write per upstream game |
| Catalog.FirstWithId | cogs/utility.py:98 | the first upstream game with an id, or none at all |
| Catalog.LastWithId | cogs/utility.py:99 | the last upstream game with an id, or none at all |
| Catalog.VisitCache | cogs/utility.py:99 | a visit caches the game's projection and leaves every other cache entry alone |
| Catalog.VisitDoc | cogs/utility.py:98-118 | a visit keeps every stored document and inserts only a new game, with `released = False` |
| Catalog.SyncCache | cogs/utility.py:85-99 | after a pass every upstream id is cached with the projection of its last occurrence; other ids keep their cache entries |
| Catalog.SyncKeepsStored | cogs/utility.py:105-118 | a document already in the collection is never changed by a pass |
| Catalog.SyncInsertsNew | cogs/utility.py:98-103 | an id absent from the collection is inserted with the projection of its first occurrence and `released = False`, and an id nobody has stays absent |
| Catalog.SyncQuietWhenCurrent | cogs/utility.py:116 | when every stored projection equals the upstream one, a pass issues no write and changes no document |
| Catalog.SyncWrites | cogs/utility.py:101-118 | a pass only appends to the write log; every insert is of an absent id with `released = False`, and every update writes the values the document holds afterwards |
| Catalog.VisitKeepsStored | cogs/utility.py:105-118 | one visit only appends to the log and changes no stored document |
| Catalog.SecondPassKeepsDocs | cogs/utility.py:84-118 | a second pass over the same upstream games leaves the collection as the first left it |
| Catalog.SecondPassDoc | cogs/utility.py:84-118 | per id, the second pass neither adds nor changes a document |
| Catalog.SecondPassQuiet | cogs/utility.py:84-118 | when each upstream id names one game and every stored one already holds its current projection, a second pass adds no write to the log and changes no document |
| Catalog.SyncQuietFor | cogs/utility.py:98-118 | a stored game whose fields equal the projection of every upstream game with its id gets no write in a pass |
| Catalog.SyncKeepsStoredIfAbsent | cogs/utility.py:98-103 | after a pass every upstream id is in the collection |
| Catalog.GameStore.constructor | cogs/utility.py:81 | the collection starts with the given documents and an empty write log |
| Search.Entries | cogs/utility.py:304 | `self.games.values()` in insertion order |
| Search.Fresh | cogs/utility.py:307-312 | the titles a game adds are its non-null titles not seen before, without duplicates |
| Search.Attribute | cogs/utility.py:304-316 | one `titleList` entry per game |
| Search.AddTitles | cogs/utility.py:307-312 | the inner loop adds exactly the fresh titles to `fuzzyList` and to the game's list |
| Search.FreshStep | cogs/utility.py:308-312 | a title is added unless it is null or already listed |
| Search.AttributeStep | cogs/utility.py:304-314 | one more game appends its fresh titles and its `{id: titles}` entry |
| Search.BuildTitleLists | cogs/utility.py:304-316 | the nested loops build exactly `Attribute` of the catalog |
| Search.FuzzyListIsAllTitles | cogs/utility.py:304-316 | `fuzzyList` has no duplicates and holds exactly the non-null titles of the catalog |
| Search.FuzzyListDistinct | cogs/utility.py:309-311 | `fuzzyList` has no duplicates |
| Search.FuzzyListHas | cogs/utility.py:304-312 | a title is in `fuzzyList` exactly when some game has it |
| Search.AttributedToFirstOwner | cogs/utility.py:304-314 | a title is attributed to game `j` exactly when `j` has it and no earlier game does |
| Search.FirstOwner | cogs/utility.py:304-314 | every title of a game has a first owner at or before it |
| Search.Matches | cogs/utility.py:321 | a title matches when both upper-case to the same text (definition; no contract) |
| Search.IsListed | cogs/utility.py:316 | the query matches some title of `fuzzyList` (definition; no contract) |
| Search.FirstMatchIn | cogs/utility.py:320-325 | the first title of a list equal to the query ignoring case |
| Search.FirstMatch | cogs/utility.py:318-327 | the first entry of `titleList` that holds a match, with that match, or none anywhere |
| Search.MatchingTitle | cogs/utility.py:320-325 | the innermost loop finds the first match |
| Search.ExactLookup | cogs/utility.py:316-327 | the search loops set `gameID`/`gameName` to the first match, and leave them empty without one |
| Search.ExactLookupFindsFirstOwner | cogs/utility.py:304-327 | a match exists exactly when the query is listed ignoring case; it is in the first game, in catalog order, holding a title equal to the query |
| PriceSheet.PricesFor | cogs/utility.py:356 | the price documents of the game and no other |
| PriceSheet.NoPricesFor | cogs/utility.py:356-360 | a game that no price document names gets an empty cursor, so the no-price-data branch is taken |
| PriceSheet.FirstSameTitles | cogs/utility.py:365-366 | the first sale listing whose titles equal the stored document's, or none |
| PriceSheet.LiveTo | cogs/utility.py:367-372 | the live prices stay a dict, and the only exception is the missing `discount` |
| PriceSheet.LiveToDone | cogs/utility.py:367-372 | the live prices are computed exactly when every region of the listing is on sale; otherwise `KeyError('discount')` |
| PriceSheet.LiveToKeys | cogs/utility.py:367-372 | the live prices have the listing's regions in order |
| PriceSheet.LiveToValue | cogs/utility.py:367-372 | each region's live quote is its sale entry |
| PriceSheet.LiveToCrashes | cogs/utility.py:367-372 | once a region raises, the loop stays raised |
| PriceSheet.LiveQuotes | cogs/utility.py:367-372 | the loop over the listing's prices computes `LiveTo` |
| PriceSheet.LiveRegion | cogs/utility.py:367-372 | one region: its live quote is recorded, or its missing `discount` raises and that error is the outcome of the whole loop |
| PriceSheet.Live | cogs/utility.py:364-374 | live prices exist only with sale data |
| PriceSheet.FindLive | cogs/utility.py:364-374 | the search over the sale listings computes `Live`, including the `None` subscripts |
| PriceSheet.AddDocKeeps | cogs/utility.py:378 | adding a document keeps every existing region, its place and its quote |
| PriceSheet.MergeKeeps | cogs/utility.py:376-383 | merging all documents keeps every live region, its place and its quote |
| PriceSheet.FirstDocWith | cogs/utility.py:376-378 | the first document that prices a region |
| PriceSheet.AddDocVals | cogs/utility.py:377-383 | the values after adding a document are `AddedVals` of those before |
| PriceSheet.AddDocStep | cogs/utility.py:377-383 | one more region is added only when absent, with its full price and no discount |
| PriceSheet.AddedHas | cogs/utility.py:377-383 | a new region appears exactly when the document lists it |
| PriceSheet.AddedValue | cogs/utility.py:379-383 | an added region carries the document's full price, no discount and no sale price |
| PriceSheet.AddedAll | cogs/utility.py:377-383 | after the whole document a new region appears exactly when the document prices it, with that full price |
| PriceSheet.AddedKeeps | cogs/utility.py:378 | an existing region is never overwritten |
| PriceSheet.MergeVals | cogs/utility.py:376-383 | the values after merging are `MergedVals` of the live ones |
| PriceSheet.MergedFirstDocWins | cogs/utility.py:376-383 | a region not live gets the full price of the first document that prices it, and is absent when none does |
| PriceSheet.MergeFirstDocWins | cogs/utility.py:376-383 | in the merged prices, a region not live gets the first document's full price, or is absent |
| PriceSheet.MergeHistory | cogs/utility.py:376-383 | the merge loop computes `Merge` |
| PriceSheet.AddDocPrices | cogs/utility.py:377-383 | the inner merge loop computes `AddDoc` |
| PriceSheet.AddRegion | cogs/utility.py:377-383 | one region of a document: a region already in `gamePrices` is skipped, a new one is added with its full price and no sale |
| PriceSheet.AddDoc | cogs/utility.py:377-383 | adding a document keeps `gamePrices` a dict |
| PriceSheet.Merge | cogs/utility.py:376-383 | merging the documents keeps `gamePrices` a dict |
| PriceSheet.Codepoint | cogs/utility.py:45-62 | each known region has a two-code-point flag |
| PriceSheet.CodepointIsFlag | cogs/utility.py:45-62 | the price sheet draws the same flag for a shown region as the deals list does at line 262 |
| PriceSheet.PriceText | cogs/utility.py:387-397 | a price renders exactly when its region has a currency and a flag and it has no truthy discount; otherwise the failure is the `KeyError` of the region or the cursor subscript |
| PriceSheet.Break | cogs/utility.py:388-391 | a newline before every even index from 2 on (definition; no contract) |
| PriceSheet.RenderTo | cogs/utility.py:385-397 | a rendered description starts with `Price data:` and two newlines |
| PriceSheet.RenderToCrashes | cogs/utility.py:386-397 | once a price raises, the rest is never reached |
| PriceSheet.EntryStep | cogs/utility.py:388-391 | the `entry` counter cycles 1, 2, 1, 2, …, so a newline is added before every odd-numbered price from the third on |
| PriceSheet.LinesSnoc | cogs/utility.py:388-397 | the text of one more price is the text so far, its break and the price |
| PriceSheet.TextsTo | cogs/utility.py:386-397 | one text per price |
| PriceSheet.TextsToDone | cogs/utility.py:386-397 | every price is rendered exactly when none raises |
| PriceSheet.RenderLines | cogs/utility.py:385-397 | the description is `Price data:` and two newlines, then the prices two per row; or it is the first exception |
| PriceSheet.RenderToStops | cogs/utility.py:386-397 | a price that raises ends the rendering in that exception |
| PriceSheet.RenderToNext | cogs/utility.py:386-397 | a price that renders extends the description by its break and text |
| PriceSheet.DescribeOne | cogs/utility.py:387-397 | the loop body adds the newline when the counter reaches 3, then the price text, or raises as `PriceText` does |
| PriceSheet.Describe | cogs/utility.py:385-397 | the rendering loop computes `RenderTo` over the merged prices |
| PriceSheet.DiscountNeverShown | cogs/utility.py:393-394 | a merged price with a truthy discount makes the rendering raise |
| PriceSheet.Description | cogs/utility.py:358-360 | with no price documents the description is the no-price-data notice |
| PriceSheet.OnSaleGameNeverShown | cogs/utility.py:365-394 | a game whose current sale listing has a discount in any region never gets its price sheet: the command raises |
| Release.IsReleased | cogs/utility.py:129-142 | the loop finds a game released exactly when some region has a date and that date is before now |
| Release.Released | cogs/utility.py:129-142 | some region has a date before now (definition; no contract) |
| Release.ReleaseName | cogs/utility.py:144-151 | there is no name exactly when none of the NA, EU and JP titles is set |
| Release.FirstSet | cogs/utility.py:144-151 | the first region of the order with a non-null title |
| Release.ReleaseNamePriority | cogs/utility.py:144-151 | the name is the NA title if non-null, else EU if non-null, else JP |
| Release.FirstTruthy | cogs/utility.py:155-165 | the first website in the order that is truthy, or none |
| Release.FirstTruthyStep | cogs/utility.py:156-165 | one step of the `elif` chain |
| Release.SiteUrl | cogs/utility.py:155-165 | the page chosen, if any, is truthy |
| Release.SiteUrlPriority | cogs/utility.py:155-165 | the chain picks the first truthy website in the order US, CA, EU, GB, AU, NZ, JP, CH, RU, ZA |
| Release.Truncate | cogs/utility.py:169 | a description of at most 2048 characters stays; a longer one becomes its first 2045 characters plus `...`, exactly 2048 characters |
| Release.TruncateIdempotent | cogs/utility.py:169 | truncating twice is truncating once, and the result never exceeds 2048 characters |
| Cog.AnnouncedIff | cogs/utility.py:128-151 | an announcement is made exactly for the stored games not flagged released whose release date has passed, with their name and site |
| Cog.Announce | cogs/utility.py:144-165 | an announcement's page, if any, is truthy, and it has a name whenever the NA title is set |
| Cog.Announcements | cogs/utility.py:128-151 | the announcements for the first games in collection order (definition; no contract) |
| Cog.VisitAsWritten | cogs/utility.py:98-118 | the visit in source order: cache first; then insert with `released = False`, or `$set` the stored values when they differ, or nothing |
| Cog.SearchNamesFirstOwner | cogs/utility.py:304-353 | the fuzzy branch is taken exactly when the query is not listed; a price embed is titled with a match from the first game that has one |
| Cog.SearchResult | cogs/utility.py:296-400 | the fuzzy branch is taken exactly when the query is not listed, and a price embed is titled with a title matching the query |
| Cog.SearchWithoutPrices | cogs/utility.py:350-360 | a found game with no price documents gets the no-price-data notice |
| Cog.NintenDeals.constructor | cogs/utility.py:36-40 | the cog starts with an empty cache, no deals messages, the catalog not ready and no sale data |
| Cog.NintenDeals.UpdateGameInfo | cogs/utility.py:84-120 | the cache, the collection and the write log become `Sync` over the Switch games; the catalog is ready afterwards |
| Cog.NintenDeals.ReconcileOne | cogs/utility.py:85-118 | one loop iteration is `Visit` |
| Cog.NintenDeals.ReconcileNext | cogs/utility.py:85-118 | one turn of the loop turns the pass over the first `i` games into the pass over the first `i + 1` |
| Cog.NintenDeals.QueryDeals | cogs/utility.py:184-287 | the old list is dropped; a reply other than 200, or a body that does not decode, posts nothing; otherwise the response becomes `saleData` and the new list is `DealMessages` |
| Cog.NintenDeals.NewReleasePosting | cogs/utility.py:123-151 | nothing before the catalog is ready; then the announcements of `AnnouncedIff`, in collection order |
| Cog.NintenDeals.GamesSearch | cogs/utility.py:296-400 | the command answers `SearchResult` |
| Cog.NintenDeals.PriceDescription | cogs/utility.py:358-397 | the description is `Description` of the sale data and the price documents |
| Blacklist.BlockingRole | cogs/utility.py:749-770 | a role exists exactly for the suggestions and spoilers channels; suggestions is tested first |
| Blacklist.FirstOpen | cogs/utility.py:777 | the first active `blacklist` record of the member for the channel, or none |
| Blacklist.Close | cogs/utility.py:777-779 | the update changes at most one record, the first open blacklist of the member for the channel, and makes it inactive |
| Blacklist.Toggle | cogs/utility.py:747-780 | the command refuses exactly the channels without a blocking role; otherwise the member holds the role exactly when the answer says blacklisted, and one record is appended whose type, active flag and channel match that answer |
| Blacklist.RefusedChangesNothing | cogs/utility.py:769-770 | the command refuses exactly the other channels, and then changes no role and no record |
| Blacklist.RoleFlips | cogs/utility.py:749-767 | on an allowed channel the blocking role flips and no other role changes |
| Blacklist.BlacklistAppends | cogs/utility.py:773-774 | blacklisting appends one active `blacklist` record with the channel as context and changes no other record |
| Blacklist.UnblacklistClosesOne | cogs/utility.py:776-780 | unblacklisting closes at most one record, an open blacklist of the member for that channel; it lowers the open count by one when there is one; it appends an inactive `unblacklist` record |
| Blacklist.OpenCountAppend | cogs/utility.py:780 | appending a record adds to the open count only if it is an open blacklist |
| Blacklist.OpenCountUpdate | cogs/utility.py:777-779 | closing an open record lowers the open count by one |
| Blacklist.Member.constructor | cogs/utility.py:747 | the member with its id and roles |
| Blacklist.PunStore.constructor | cogs/utility.py:772 | the collection with its records |
| Blacklist.PunStore.CloseFirst | cogs/utility.py:777-779 | `find_one_and_update` deactivates the first open record and no other |
| Blacklist.PunStore.Issue | cogs/utility.py:773-780 | `issue_pun` appends one record |
| Blacklist.RolesSet | cogs/utility.py:747-780 | the roles, the records and the answer become `Toggle` of the old ones |
| ChatFilter.SearchLevelId | cogs/utility.py:408 | a position found is where the level-ID pattern matches, as the search at line 443 needs |
| ChatFilter.SearchLevelIdLeftmost | cogs/utility.py:408 | the search finds a match at or before any matching position |
| ChatFilter.SearchLevelIdIff | cogs/utility.py:408 | the search succeeds exactly when the text holds a level ID, the condition of line 443 |
| ChatFilter.LevelIdInContext | cogs/utility.py:408 | surrounding text never hides a level ID |
| ChatFilter.LevelIdIgnoresCase | cogs/utility.py:408 | upper-casing the text does not change whether it holds a level ID (`re.I`) |
| ChatFilter.UpperCharKeepsClass | cogs/utility.py:408 | upper-casing keeps a character inside or outside the class and keeps the hyphen |
| ChatFilter.IdChar | cogs/utility.py:408 | the class `[0-9a-z]` under `re.I`: digits, both ASCII cases and the four non-ASCII letters that fold onto ASCII letters (definition; no contract) |
| ChatFilter.LevelIdAt | cogs/utility.py:408 | the pattern `xxx-xxx-xxx` matches at a position (definition; no contract) |
| ChatFilter.LevelFields | cogs/utility.py:477-487 | the embed has five to seven fields, no name twice |
| ChatFilter.Delete | cogs/utility.py:465 | deleting a message that is already deleted is a failure that ends the handler; otherwise the deletion and what follows it |
| ChatFilter.ChannelRule | cogs/utility.py:441-496 | the channel rules delete at most once; a message already deleted is never deleted successfully again, and the failing deletion is the last effect; they never repost |
| ChatFilter.OnMessage | cogs/utility.py:426-496 | the handler acts only on default messages by non-bots, has at most four effects, deletes the message successfully at most once, and a failing deletion happens only after an affiliate repost and is the last effect |
| ChatFilter.BotsIgnored | cogs/utility.py:427-428 | bots and non-default messages are never acted on |
| ChatFilter.AffiliateRepostedFirst | cogs/utility.py:431-439 | an affiliate link is deleted and reposted first, with the cleaned text, under the display name |
| ChatFilter.OtherChannelsOnlyAffiliate | cogs/utility.py:430-455 | outside `#mario` and `#smm2-levels` the handler acts exactly on affiliate links, and only by deleting and reposting |
| ChatFilter.MarioRule | cogs/utility.py:442-452 | in `#mario` a message is deleted exactly when it holds a level ID and no link; the warning follows and is removed after 20 seconds |
| ChatFilter.LevelsRule | cogs/utility.py:455-496 | in `#smm2-levels` a message is deleted exactly when it holds a level ID; a well-formed post is replaced by the level embed; any other post gets the format warning with a copy of its text, and the warning is removed after 25 seconds |
| ChatFilter.AffiliateLevelPostFails | cogs/utility.py:435-491 | an affiliate post in `#smm2-levels` holding a level ID is already deleted, so its second deletion raises and ends the handler; the format warning is then never removed |
| ChatFilter.MarioDeletesTwiceIff | cogs/utility.py:431-447 | in `#mario` the handler deletes a message twice exactly when an affiliate post holds a level ID and no link; the effects are then the deletion, the repost and the failing second deletion |
| ChatFilter.LevelFieldsShape | cogs/utility.py:477-487 | the embed has the five fixed fields in order, then Theme and Tags only when the post gives them |
| Moderation.Reverse | cogs/utility.py:578 | `reversed` puts element `i` at `n-1-i` |
| Moderation.Purged | cogs/utility.py:569-575 | only messages of the history that the filter selects are deleted |
| Moderation.Clean | cogs/utility.py:546-583 | a cancellation happens only from 100 messages on; after a purge the archive has as many messages as were deleted, and each deleted message is from the history and selected |
| Moderation.CleanConfirmation | cogs/utility.py:549-567 | the purge runs exactly below 100 messages or after the green tick; it reports a time-out exactly when 100 or more were asked and nobody answered |
| Moderation.PurgedIff | cogs/utility.py:569-575 | a message is deleted exactly when it is among the newest `messages` and, when members are named, by one of them |
| Moderation.PurgedAllWhenNoMembers | cogs/utility.py:569-575 | with no member named, the newest `messages` messages are all deleted |
| Moderation.PurgedBound | cogs/utility.py:575 | no more messages are deleted than the limit |
| Moderation.ArchiveIsChronological | cogs/utility.py:578 | the archive holds the deleted messages oldest first |
| Moderation.EntryLine | cogs/utility.py:666-672 | a line starts with `-` exactly for the lifting types, holds the stamp and the label, and ends with a newline |
| Moderation.EntriesTo | cogs/utility.py:661-672 | a failure names the type of one of the records looked up, and that type has no label |
| Moderation.Framed | cogs/utility.py:674-676 | the field ends with the lines of the entries and the closing of the `diff` block |
| Moderation.Punishments | cogs/utility.py:654-677 | no records give the no-punishments notice; a failure names the type of a shown record that has no label |
| Moderation.Shown | cogs/utility.py:661-665 | at most five records are shown, all of them when there are fewer |
| Moderation.EntriesToMeaning | cogs/utility.py:661-672 | the lines are built exactly when every shown type has a label; otherwise it is the `KeyError` of the first type without one |
| Moderation.EntriesUseFirstFive | cogs/utility.py:661-667 | only the first five records are ever looked up |
| Moderation.ShownAreNewest | cogs/utility.py:661-665 | when the records come newest first, the shown records are the newest ones |
| Moderation.EntriesToLines | cogs/utility.py:665-672 | each shown record adds its line |
| Moderation.EntriesToSticks | cogs/utility.py:667 | once a label is missing, the summary stays that failure |
| Moderation.EntriesToStep | cogs/utility.py:665-672 | one record adds its line, or raises when its type has no label |
| Moderation.PunishmentLines | cogs/utility.py:660-672 | the loop with its break at five shows `Shown(n)` records and builds their lines |
| Moderation.EntryNext | cogs/utility.py:665-672 | one shown record appends its line, or its type has no label and that failure is the outcome of the whole summary |
| Moderation.PunishmentSummary | cogs/utility.py:654-677 | the `Punishments` field is the no-punishments notice, the framed lines, or the first `KeyError` |

## Left out

- Discord, MongoDB and aiohttp. Sending, deleting, webhooks, reactions,
  `wait_for`, role changes as network calls, database cursors and the deals
  API request are not modelled. Their inputs and results enter as
  parameters (the upstream games, the stored documents, the price documents,
  the API reply, the moderator's answer, the channel history), and their
  effects leave as values (write logs, effect lists, the sent messages).
- Clocks and scheduling. `utcnow`, `strftime`, `asyncio.sleep` and the task
  loops are not modelled. "Now" is a parameter. The deals header and the
  punishment stamps are strings given as input.
- The fuzzy branch of `games search` (lines 329-348), which calls the
  `fuzzywuzzy` library. The model answers `Suggestions` where that branch
  starts.
- The regular expressions `linkRe`, `affiliateLinks` and `SMM2LevelPost`
  (lines 407-410). What they report reaches `ChatFilter.OnMessage` as a
  `Scan` input. Only the level-ID pattern of line 408 is scanned.
- `utils.scrape_nintendo`, `utils.issue_pun`, `utils.message_archive`,
  `utils.format_pundm` and `utils.mod_cmd_invoke_delete` are not part of
  this model. `issue_pun` is modelled as appending one record.
- The message texts of the embeds, DMs and confirmations of `blacklist`,
  `clean` and the release announcement (lines 167-181, 782-800, 553-583).
  `NewReleasePosting` yields each announcement's name and store page.
- The rest of `info` (roles, join date, message count and last message,
  lines 587-653 and 677), `history`, `roles`, `ping`, `setup`, `teardown`,
  `cog_unload` and the commented-out event code (lines 498-538).
- Blacklist.Toggle: the blacklist record is taken as active and without a
  timestamp, since the defaults of `issue_pun` are not part of this model.
- ChatFilter.OnMessage: when sending the level embed is `Forbidden`
  (lines 489-495), the source keeps the message; the model always reports
  the embed followed by the deletion.
- Moderation.Purged: a limit of zero or less is taken as inspecting no
  message.
- Moderation.ShownAreNewest: the cursor's sort by descending timestamp
  (line 661) is a precondition, not modelled: `Moderation.Punishments` takes
  the records in the order the cursor yields them.
- Release.IsReleased: the regions are visited in an arbitrary order, not in
  dict order. The result does not depend on the order.
- Release.ReleaseName, Release.SiteUrl and Cog.Announce require the title
  and website keys the chains read (`NameKeys`, `SiteKeys`); the source
  raises `KeyError` without them.
- Deals.Collect: the JSON keys the loops index directly are present by
  construction of `Listing`, so the `KeyError`s of a malformed response are
  not modelled.
- PriceSheet.PriceText: the link of line 394 indexes the price cursor with
  a region. It is modelled only as the exception this raises
  (`CursorSubscript`), not as a link.
- Catalog.Visit and Catalog.Sync: their own contracts state validity, which
  ids are kept and how many writes are issued. What a pass does is stated by
  the lemmas about them (`SyncCache`, `SyncKeepsStored`, `SyncInsertsNew`,
  `SyncWrites`, `SecondPassQuiet`).
- PriceSheet.AddDoc and PriceSheet.Merge: their own contracts state only
  that `gamePrices` stays a dict. The merge semantics are stated by
  `AddDocKeeps`, `AddedAll`, `MergeKeeps` and `MergeFirstDocWins`.
- Search.Matches: it compares with `Py.Upper`, which upper-cases ASCII
  letters only. Python's `str.upper` also maps other letters (`é` to `É`)
  and can lengthen a string (`ß` to `SS`). A query that differs from a title
  only in such letters matches in the source but not in the model.
- Search.FirstMatchIn: the ASCII-only case folding of `Search.Matches`.
- Search.ExactLookup: the ASCII-only case folding of `Search.Matches`.
- Search.ExactLookupFindsFirstOwner: the ASCII-only case folding of
  `Search.Matches`.
- Py.Upper: ASCII letters only, as described for `Search.Matches`.
- Deals.RenderEntries: every entry is headed with its own English title.
  This is the corrected header of the Findings row. The header as the code
  computes it, where an EU-only listing inherits the previous iteration's
  title, is `Deals.HeaderTitlesAsWritten`.
- Deals.RenderNext: the corrected header, as for `Deals.RenderEntries`.
- Deals.BuildDealMessages: the corrected header, as for `Deals.RenderEntries`.
- Deals.DealMessages: the corrected header, as for `Deals.RenderEntries`.
- Cog.NintenDeals.QueryDeals: the corrected header, as for
  `Deals.RenderEntries`.
- Deals.DealMessages: requires `DealsPriced`, that is, the response's `countries`
  holds a currency for every region among US, EU, GB and AU that a chosen
  listing has on sale. Without one, line 262 raises `KeyError` and the task
  fails before posting; that failure is not modelled. Listings that are not
  chosen need no currency.
- Deals.BuildDealMessages: requires `DealsPriced`, as for `Deals.DealMessages`.
- Deals.RenderEntries: requires a currency for the selected listings only, as
  for `Deals.DealMessages`.
- Cog.NintenDeals.QueryDeals: requires `DealsPriced` of a 200 reply's body,
  as for `Deals.DealMessages`.
- ChatFilter.OnMessage takes the three regular-expression results as
  independent inputs. They are independent in the source too: the affiliate
  pattern of line 410 is compiled with `re.I`, while the link pattern of
  line 407 is searched case-sensitively, so `HTTPS://amazon.com/dp?tag=x`
  matches the first and not the second. The patterns themselves are not
  modelled.
- PriceSheet.LiveToDone states the crash condition for the sale listing's
  own prices. When `saleData` is `None` or the stored document is missing,
  `Live` raises `NoneSubscript`.

## Findings

| source | as written | input that shows it | evidently intended | confidence | as-written member | corrected member |
|---|---|---|---|---|---|---|
| cogs/utility.py:244-248 | the entry header's `title` is reassigned only when the listing has an `NA` key, so an EU-only listing is headed with the title left over from the previous iteration | a listing titled `NA: Alpha` followed by one titled only `EU: Beta`, both with a US price on sale: both entries are headed `Alpha` | each entry is headed with its own English title, the `gameInfo` key it was collected under | not executed | Deals.StaleTitleCounterexample | Deals.EntryTitleIsOwnTitle |
