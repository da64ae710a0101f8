/** The chat filter `ChatControl.on_message` (cogs/utility.py:426-496): what
    the bot does with one incoming message. The affiliate-link, link and
    level-post regular expressions reach the model as facts about the text
    (`Scan`); the level-ID pattern of line 408 is scanned concretely. */
module ChatFilter {
  import opened Py

  /** Channel ids the handler compares against (lines 442 and 455). */
  const Mario := 325430144993067049
  const SmmLevels := 595203237108252672

  /** Characters the class `[0-9a-z]` accepts under `re.I` on a `str`
      pattern: the digits, both ASCII cases and the four non-ASCII letters
      whose simple case folding lands on ASCII (dotted capital I, dotless
      small i, long s and the Kelvin sign). */
  predicate IdChar(c: char) {
    '0' <= c <= '9' || 'a' <= c <= 'z' || 'A' <= c <= 'Z'
    || c == 'İ' || c == 'ı' || c == 'ſ' || c == 'K'
  }

  /** The pattern of line 408 matches at position `i`: `xxx-xxx-xxx`. */
  predicate LevelIdAt(s: string, i: nat) {
    i + 11 <= |s|
    && IdChar(s[i]) && IdChar(s[i + 1]) && IdChar(s[i + 2]) && s[i + 3] == '-'
    && IdChar(s[i + 4]) && IdChar(s[i + 5]) && IdChar(s[i + 6]) && s[i + 7] == '-'
    && IdChar(s[i + 8]) && IdChar(s[i + 9]) && IdChar(s[i + 10])
  }

  /** `re.search` of the level-ID pattern succeeds. */
  ghost predicate HasLevelId(s: string) {
    exists i: nat :: LevelIdAt(s, i)
  }

  /** The search itself: the leftmost position from `from` on where the
      pattern matches. */
  function SearchLevelId(s: string, from: nat): (r: Option<nat>)
    ensures r.Some? ==> from <= r.value && LevelIdAt(s, r.value)
    decreases |s| - from
  {
    if from + 11 > |s| then None
    else if LevelIdAt(s, from) then Some(from)
    else SearchLevelId(s, from + 1)
  }

  /** The search finds the leftmost match, and finds one exactly when the
      text holds a level ID from `from` on. */
  lemma {:induction false} SearchLevelIdLeftmost(s: string, from: nat, i: nat)
    requires from <= i && LevelIdAt(s, i)
    ensures SearchLevelId(s, from).Some? && SearchLevelId(s, from).value <= i
    decreases i - from
  {
    if !LevelIdAt(s, from) {
      SearchLevelIdLeftmost(s, from + 1, i);
    }
  }

  lemma SearchLevelIdIff(s: string)
    ensures SearchLevelId(s, 0).Some? <==> HasLevelId(s)
  {
    if HasLevelId(s) {
      var i: nat :| LevelIdAt(s, i);
      SearchLevelIdLeftmost(s, 0, i);
    }
  }

  /** Surrounding text never hides a level ID. */
  lemma LevelIdInContext(a: string, s: string, b: string)
    requires HasLevelId(s)
    ensures HasLevelId(a + s + b)
  {
    var i: nat :| LevelIdAt(s, i);
    var t := a + s + b;
    assert forall j :: |a| <= j < |a| + |s| ==> t[j] == s[j - |a|];
    assert LevelIdAt(t, |a| + i);
  }

  /** The search ignores case: upper-casing the text finds a level ID
      exactly when the original has one. */
  lemma LevelIdIgnoresCase(s: string)
    ensures HasLevelId(Upper(s)) <==> HasLevelId(s)
  {
    var u := Upper(s);
    forall i: nat
      ensures LevelIdAt(u, i) <==> LevelIdAt(s, i)
    {
      if i + 11 <= |s| {
        forall j | i <= j < i + 11
          ensures IdChar(u[j]) <==> IdChar(s[j])
          ensures u[j] == '-' <==> s[j] == '-'
        {
          UpperCharKeepsClass(s[j]);
        }
      }
    }
  }

  lemma UpperCharKeepsClass(c: char)
    ensures IdChar(UpperChar(c)) <==> IdChar(c)
    ensures UpperChar(c) == '-' <==> c == '-'
  {
  }

  /** The fields the level-post pattern of line 409 captures, groups 1-7;
      the theme and tag groups are optional. */
  datatype LevelPost = LevelPost(name: string, id: string, style: string, theme: Option<string>,
                                 tags: Option<string>, difficulty: string, description: string)

  /** What the three opaque regular expressions report about a message:
      the affiliate pattern (its `re.sub` result when it matches), the link
      pattern, and the level-post match. The three are independent: the
      affiliate pattern (line 410) is compiled with `re.I` and the link
      pattern (line 407) is searched case-sensitively, so a text such as
      `HTTPS://amazon.com/dp?tag=x` matches the first and not the second. */
  datatype Scan = Scan(affiliate: Option<string>, hasLink: bool, post: Option<LevelPost>)

  datatype Author = Author(id: int, name: string, nick: Option<string>, bot: bool)

  datatype Message = Message(author: Author, defaultType: bool, channel: int, content: string)

  datatype Field = Field(name: string, value: string, inline: bool)

  datatype Warning =
    | NoLevelCodesHere              // lines 448-449
    | BadLevelFormat(copy: string)  // lines 463-464, with a copy of the message

  /** One visible effect of the handler, in the order it happens. */
  datatype Effect =
    | Repost(content: string, username: string)
    | DeleteMessage
    | Warn(mention: int, warning: Warning)
    | ExpireWarning(seconds: nat)  // `response.delete(delay=...)`
    | PostLevel(fields: seq<Field>)
    | DeleteFailed                 // a second `message.delete()` raises `NotFound`, ending the handler

  /** The name the webhook repost goes under: the nickname when set. */
  function DisplayName(a: Author): (r: string)
    ensures Truthy(a.nick) ==> r == a.nick.value
    ensures !Truthy(a.nick) ==> r == a.name
  {
    if Truthy(a.nick) then a.nick.value else a.name
  }

  /** The embed of lines 477-487. */
  function LevelFields(p: LevelPost): (r: seq<Field>)
    ensures 5 <= |r| <= 7
    ensures forall i, j :: 0 <= i < j < |r| ==> r[i].name != r[j].name
  {
    [Field("Name", p.name, true), Field("Level ID", p.id, true),
     Field("Description", p.description, false), Field("Style", p.style, true),
     Field("Difficulty", p.difficulty, true)]
    + (if Truthy(p.theme) then [Field("Theme", p.theme.value, false)] else [])
    + (if Truthy(p.tags) then [Field("Tags", p.tags.value, false)] else [])
  }

  /** `message.delete()`, when `deleted` says whether line 435 already
      deleted the message: a second deletion raises `NotFound`, which no
      `except` of the handler catches, so nothing after it happens. */
  function Delete(deleted: bool, rest: seq<Effect>): (r: seq<Effect>)
    ensures r != [] && r[0] == (if deleted then DeleteFailed else DeleteMessage)
    ensures deleted ==> |r| == 1
    ensures !deleted ==> r[1..] == rest
  {
    if deleted then [DeleteFailed] else [DeleteMessage] + rest
  }

  /** Lines 441-496 after the bot and message-type test: the channel rules. */
  function ChannelRule(m: Message, scan: Scan, hasId: bool, deleted: bool): (r: seq<Effect>)
    ensures deleted ==> DeleteMessage !in r
    ensures !deleted ==> DeleteFailed !in r
    ensures DeleteFailed in r ==> r[|r| - 1] == DeleteFailed
    ensures forall e :: e in r ==> !e.Repost?
  {
    if m.channel == Mario then
      if hasId && !scan.hasLink then Delete(deleted, [Warn(m.author.id, NoLevelCodesHere), ExpireWarning(20)])
      else []
    else if m.channel == SmmLevels then
      if !hasId then []
      else match scan.post
        case None => [Warn(m.author.id, BadLevelFormat(m.content))] + Delete(deleted, [ExpireWarning(25)])
        case Some(p) => [PostLevel(LevelFields(p))] + Delete(deleted, [])
    else []
  }

  /** The whole handler. */
  function OnMessage(m: Message, scan: Scan): (r: seq<Effect>)
    ensures r != [] ==> !m.author.bot && m.defaultType
    ensures |r| <= 4
    ensures forall i, j :: 0 <= i < j < |r| && r[i] == DeleteMessage ==> r[j] != DeleteMessage
    ensures DeleteFailed in r ==> scan.affiliate.Some? && r[|r| - 1] == DeleteFailed
  {
    if m.author.bot || !m.defaultType then []
    else
      (match scan.affiliate
       case None => []
       case Some(cleaned) => [DeleteMessage, Repost(cleaned, DisplayName(m.author))])
      + ChannelRule(m, scan, SearchLevelId(m.content, 0).Some?, scan.affiliate.Some?)
  }

  /** Bots and system messages are never acted on. */
  lemma BotsIgnored(m: Message, scan: Scan)
    requires m.author.bot || !m.defaultType
    ensures OnMessage(m, scan) == []
  {
  }

  /** An affiliate link is removed and reposted first, in any channel. */
  lemma AffiliateRepostedFirst(m: Message, scan: Scan)
    requires !m.author.bot && m.defaultType && scan.affiliate.Some?
    ensures OnMessage(m, scan)[..2] == [DeleteMessage, Repost(scan.affiliate.value, DisplayName(m.author))]
  {
  }

  /** Outside the two filtered channels only the affiliate rule acts. */
  lemma OtherChannelsOnlyAffiliate(m: Message, scan: Scan)
    requires m.channel != Mario && m.channel != SmmLevels
    ensures OnMessage(m, scan) != [] <==> !m.author.bot && m.defaultType && scan.affiliate.Some?
    ensures forall e :: e in OnMessage(m, scan) ==> e.DeleteMessage? || e.Repost?
  {
  }

  /** In #mario a message is removed with a warning, itself removed after
      20 seconds, exactly when it holds a level ID and no link. */
  lemma MarioRule(m: Message, scan: Scan)
    requires !m.author.bot && m.defaultType && scan.affiliate.None? && m.channel == Mario
    ensures OnMessage(m, scan) != [] <==> HasLevelId(m.content) && !scan.hasLink
    ensures OnMessage(m, scan) != [] ==>
      OnMessage(m, scan) == [DeleteMessage, Warn(m.author.id, NoLevelCodesHere), ExpireWarning(20)]
  {
    SearchLevelIdIff(m.content);
  }

  /** In #smm2-levels every message holding a level ID is removed: a
      well-formed post is replaced by the level embed, any other one gets
      the format warning with a copy of its text, removed after 25 seconds. */
  lemma LevelsRule(m: Message, scan: Scan)
    requires !m.author.bot && m.defaultType && scan.affiliate.None? && m.channel == SmmLevels
    ensures OnMessage(m, scan) != [] <==> HasLevelId(m.content)
    ensures HasLevelId(m.content) && scan.post.None? ==>
      OnMessage(m, scan) == [Warn(m.author.id, BadLevelFormat(m.content)), DeleteMessage, ExpireWarning(25)]
    ensures HasLevelId(m.content) && scan.post.Some? ==>
      OnMessage(m, scan) == [PostLevel(LevelFields(scan.post.value)), DeleteMessage]
  {
    SearchLevelIdIff(m.content);
  }

  /** An affiliate post in #smm2-levels that holds a level ID is deleted at
      line 435, so the second deletion (line 465 or 491) raises: the handler
      ends there and a format warning is never removed. */
  lemma AffiliateLevelPostFails(m: Message, scan: Scan)
    requires !m.author.bot && m.defaultType && scan.affiliate.Some? && m.channel == SmmLevels
    requires HasLevelId(m.content)
    ensures var es := OnMessage(m, scan);
      && |es| == 4 && es[3] == DeleteFailed
      && forall e :: e in es ==> !e.ExpireWarning?
  {
    SearchLevelIdIff(m.content);
  }

  /** In #mario the handler deletes twice exactly when an affiliate post
      holds a level ID and no link the case-sensitive pattern of line 407
      sees: line 447 then raises and the warning is never sent. */
  lemma MarioDeletesTwiceIff(m: Message, scan: Scan)
    requires m.channel == Mario
    ensures DeleteFailed in OnMessage(m, scan) <==>
      !m.author.bot && m.defaultType && scan.affiliate.Some? && HasLevelId(m.content) && !scan.hasLink
    ensures DeleteFailed in OnMessage(m, scan) ==>
      OnMessage(m, scan) == [DeleteMessage, Repost(scan.affiliate.value, DisplayName(m.author)), DeleteFailed]
  {
    SearchLevelIdIff(m.content);
  }

  /** The level embed: the five fixed fields in order, then the theme and
      the tags only when the post gives them. */
  lemma LevelFieldsShape(p: LevelPost)
    ensures var f := LevelFields(p);
      && |f| == 5 + (if Truthy(p.theme) then 1 else 0) + (if Truthy(p.tags) then 1 else 0)
      && f[0] == Field("Name", p.name, true) && f[1] == Field("Level ID", p.id, true)
      && f[2] == Field("Description", p.description, false)
      && f[3] == Field("Style", p.style, true) && f[4] == Field("Difficulty", p.difficulty, true)
      && (Truthy(p.theme) ==> f[5] == Field("Theme", p.theme.value, false))
      && (Truthy(p.tags) ==> f[|f| - 1] == Field("Tags", p.tags.value, false))
  {
  }
}
