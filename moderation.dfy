/** Two moderator commands of `ChatControl`: the purge rule of `_clean`
    (cogs/utility.py:546-583) and the punishment summary `_info` puts in a
    member's profile (cogs/utility.py:654-677). */
module Moderation {
  import opened Py

  /** How the moderator answered the confirmation prompt of lines 549-567. */
  datatype Answer = Approved | Declined | NoAnswer

  /** A message of the channel's history, newest first as `purge` sees it. */
  datatype Post = Post(id: int, author: int)

  /** What `_clean` ends with: a cancellation (the two texts of lines 559
      and 563), or the messages it deleted and the order they are archived in. */
  datatype CleanResult =
    | Canceled(timedOut: bool)
    | Cleaned(deleted: seq<Post>, archive: seq<Post>)

  /** Lines 549-567: at least 100 messages need the moderator's green tick. */
  predicate NeedsConfirmation(messages: int) {
    messages >= 100
  }

  /** `message_filter` of lines 569-572: with no members named every message
      goes, otherwise only messages of the named members. */
  predicate Selected(members: seq<int>, p: Post) {
    members == [] || p.author in members
  }

  /** The messages `purge(limit=messages, check=message_filter)` removes:
      the selected ones among the newest `limit`, newest first. */
  function Purged(history: seq<Post>, limit: int, members: seq<int>): (r: seq<Post>)
    ensures forall p :: p in r ==> p in history && Selected(members, p)
    decreases |history|
  {
    if history == [] || limit <= 0 then []
    else (if Selected(members, history[0]) then [history[0]] else [])
         + Purged(history[1..], limit - 1, members)
  }

  function Reverse<T>(s: seq<T>): (r: seq<T>)
    ensures |r| == |s|
    ensures forall i :: 0 <= i < |s| ==> r[i] == s[|s| - 1 - i]
  {
    if s == [] then [] else Reverse(s[1..]) + [s[0]]
  }

  /** The whole command. `history` is the channel without the command
      message, which line 574 deletes first. */
  function Clean(messages: int, members: seq<int>, answer: Answer, history: seq<Post>): (r: CleanResult)
    ensures r.Canceled? ==> NeedsConfirmation(messages)
    ensures r.Cleaned? ==> |r.archive| == |r.deleted|
    ensures r.Cleaned? ==> forall p :: p in r.deleted ==> p in history && Selected(members, p)
  {
    if NeedsConfirmation(messages) && answer != Approved then Canceled(answer == NoAnswer)
    else
      var deleted := Purged(history, messages, members);
      Cleaned(deleted, Reverse(deleted))
  }

  /** Below 100 messages nothing is asked; from 100 on only an approval
      lets the purge run. */
  lemma CleanConfirmation(messages: int, members: seq<int>, answer: Answer, history: seq<Post>)
    ensures Clean(messages, members, answer, history).Cleaned? <==> messages < 100 || answer == Approved
    ensures Clean(messages, members, answer, history) == Canceled(true) <==> messages >= 100 && answer == NoAnswer
  {
  }

  /** A message is deleted exactly when it is among the newest `limit` and
      the filter selects it. */
  lemma {:induction false} PurgedIff(history: seq<Post>, limit: int, members: seq<int>, p: Post)
    ensures p in Purged(history, limit, members) <==>
      Selected(members, p) && exists i :: 0 <= i < |history| && i < limit && history[i] == p
    decreases |history|
  {
    if history != [] && limit > 0 {
      PurgedIff(history[1..], limit - 1, members, p);
      if p in Purged(history[1..], limit - 1, members) {
        var i :| 0 <= i < |history[1..]| && i < limit - 1 && history[1..][i] == p;
        assert history[i + 1] == p;
      }
      if Selected(members, p) && p != history[0] {
        if exists i :: 0 <= i < |history| && i < limit && history[i] == p {
          var i :| 0 <= i < |history| && i < limit && history[i] == p;
          assert history[1..][i - 1] == p;
        }
      }
    }
  }

  /** With no member named, every one of the newest `limit` messages goes. */
  lemma {:induction false} PurgedAllWhenNoMembers(history: seq<Post>, limit: int)
    requires 0 <= limit
    ensures Purged(history, limit, []) == history[..if limit < |history| then limit else |history|]
    decreases |history|
  {
    if history != [] && limit > 0 {
      PurgedAllWhenNoMembers(history[1..], limit - 1);
      var n := if limit < |history| then limit else |history|;
      assert history[..n] == [history[0]] + history[1..][..n - 1];
    }
  }

  /** No more messages are deleted than the limit allows. */
  lemma {:induction false} PurgedBound(history: seq<Post>, limit: int, members: seq<int>)
    ensures |Purged(history, limit, members)| <= if limit <= 0 then 0 else limit
    decreases |history|
  {
    if history != [] && limit > 0 {
      PurgedBound(history[1..], limit - 1, members);
    }
  }

  /** The archive holds the deleted messages oldest first (line 578). */
  lemma ArchiveIsChronological(messages: int, members: seq<int>, answer: Answer, history: seq<Post>)
    requires Clean(messages, members, answer, history).Cleaned?
    ensures var c := Clean(messages, members, answer, history);
      && Reverse(c.archive) == c.deleted
      && forall i :: 0 <= i < |c.archive| ==> c.archive[i] == c.deleted[|c.deleted| - 1 - i]
  {
    var c := Clean(messages, members, answer, history);
    assert Reverse(c.archive) == c.deleted;
  }

  /** A punishment record as `_info` reads it: when it was issued (with its
      `strftime` rendering) and its type. */
  datatype Record = Record(timestamp: int, stamp: string, kind: string)

  /** The summary, or the `KeyError` of line 667 naming a type `punStrs`
      has no label for. */
  datatype Summary = Summary(text: string) | MissingLabel(kind: string)

  const MaxShown := 5
  const NoPunishments := "__*No punishments on record*__"

  /** Types that lift a punishment, shown as removals in the `diff` block. */
  predicate Lifting(kind: string) {
    kind == "clear" || kind == "unmute" || kind == "unban" || kind == "unblacklist"
  }

  /** One line of the `diff` block (lines 668-672). */
  function EntryLine(r: Record, tag: string): (line: string)
    ensures |line| == |r.stamp| + |tag| + 6
    ensures line[0] == (if Lifting(r.kind) then '-' else '+')
    ensures line[3..3 + |r.stamp|] == r.stamp && line[|line| - 1 - |tag|..|line| - 1] == tag
    ensures line[|line| - 1] == '\n'
  {
    (if Lifting(r.kind) then "- [" else "+ [") + r.stamp + "] " + tag + "\n"
  }

  /** The lines for the first `n` records, or the first missing label. */
  function EntriesTo(rs: seq<Record>, labels: map<string, string>, n: nat): (r: Summary)
    requires n <= |rs|
    ensures r.MissingLabel? ==> r.kind !in labels && exists i :: 0 <= i < n && rs[i].kind == r.kind
  {
    if n == 0 then Summary("")
    else match EntriesTo(rs, labels, n - 1)
      case MissingLabel(k) => MissingLabel(k)
      case Summary(text) =>
        if rs[n - 1].kind in labels then Summary(text + EntryLine(rs[n - 1], labels[rs[n - 1].kind]))
        else MissingLabel(rs[n - 1].kind)
  }

  function Shown(count: nat): (n: nat)
    ensures n <= count && n <= MaxShown
    ensures n == count || n == MaxShown
  {
    if count < MaxShown then count else MaxShown
  }

  /** The text after the `diff` block is filled (lines 674-676). */
  function Framed(shown: nat, count: nat, prefix: string, user: string, userId: nat, entries: string): (r: string)
    ensures |r| >= |entries| + 3 && r[|r| - 3..] == "```"
    ensures r[|r| - 3 - |entries|..|r| - 3] == entries
  {
    "Showing " + NatToString(shown) + "/" + NatToString(count) + " punishment entries. "
    + "For a full history including responsible moderator, active status, and more use `"
    + prefix + "history @" + user + "` or `" + prefix + "history " + NatToString(userId) + "`"
    + "\n```diff\n" + entries + "```"
  }

  /** Lines 654-677. `rs` is the member's records in the order the cursor
      sorted by descending timestamp yields them. */
  function Punishments(rs: seq<Record>, labels: map<string, string>, prefix: string, user: string, userId: nat): (r: Summary)
    ensures |rs| == 0 ==> r == Summary(NoPunishments)
    ensures r.MissingLabel? ==> r.kind !in labels && exists i :: 0 <= i < Shown(|rs|) && rs[i].kind == r.kind
  {
    if |rs| == 0 then Summary(NoPunishments)
    else match EntriesTo(rs, labels, Shown(|rs|))
      case MissingLabel(k) => MissingLabel(k)
      case Summary(entries) => Summary(Framed(Shown(|rs|), |rs|, prefix, user, userId, entries))
  }

  /** The lines of the first `n` records, each with its label, when none is
      missing; otherwise the label of the first record without one. */
  lemma {:induction false} EntriesToMeaning(rs: seq<Record>, labels: map<string, string>, n: nat)
    requires n <= |rs|
    ensures (forall i :: 0 <= i < n ==> rs[i].kind in labels) <==> EntriesTo(rs, labels, n).Summary?
    ensures EntriesTo(rs, labels, n).MissingLabel? ==>
      exists j :: 0 <= j < n && rs[j].kind == EntriesTo(rs, labels, n).kind && rs[j].kind !in labels
        && forall i :: 0 <= i < j ==> rs[i].kind in labels
  {
    if n > 0 {
      EntriesToMeaning(rs, labels, n - 1);
      var prev := EntriesTo(rs, labels, n - 1);
      if prev.MissingLabel? {
        var j :| 0 <= j < n - 1 && rs[j].kind == prev.kind && rs[j].kind !in labels
          && forall i :: 0 <= i < j ==> rs[i].kind in labels;
        assert EntriesTo(rs, labels, n) == prev;
        assert 0 <= j < n && rs[j].kind == EntriesTo(rs, labels, n).kind;
        assert !(forall i :: 0 <= i < n ==> rs[i].kind in labels);
      } else if rs[n - 1].kind !in labels {
        assert forall i :: 0 <= i < n - 1 ==> rs[i].kind in labels;
        assert EntriesTo(rs, labels, n) == MissingLabel(rs[n - 1].kind);
        assert !(forall i :: 0 <= i < n ==> rs[i].kind in labels);
      } else {
        assert EntriesTo(rs, labels, n).Summary?;
        assert forall i :: 0 <= i < n ==> rs[i].kind in labels;
      }
    }
  }

  /** A record past the fifth never matters: labels are looked up for the
      shown records only. */
  lemma EntriesUseFirstFive(rs: seq<Record>, labels: map<string, string>, prefix: string, user: string, userId: nat)
    requires forall i :: 0 <= i < |rs| && i < MaxShown ==> rs[i].kind in labels
    ensures Punishments(rs, labels, prefix, user, userId).Summary?
  {
    if |rs| > 0 {
      EntriesToMeaning(rs, labels, Shown(|rs|));
    }
  }

  /** When the records come newest first, the shown ones are the newest:
      no hidden record is later than a shown one. */
  lemma ShownAreNewest(rs: seq<Record>, i: nat, j: nat)
    requires forall a, b :: 0 <= a < b < |rs| ==> rs[a].timestamp >= rs[b].timestamp
    requires i < Shown(|rs|) <= j < |rs|
    ensures rs[i].timestamp >= rs[j].timestamp
  {
  }

  /** Each shown record adds one line, marked `-` exactly for a lifting type. */
  lemma {:induction false} EntriesToLines(rs: seq<Record>, labels: map<string, string>, n: nat)
    requires n <= |rs| && n > 0 && EntriesTo(rs, labels, n).Summary?
    ensures EntriesTo(rs, labels, n - 1).Summary?
    ensures EntriesTo(rs, labels, n).text
      == EntriesTo(rs, labels, n - 1).text + EntryLine(rs[n - 1], labels[rs[n - 1].kind])
  {
  }

  /** Once a label is missing the summary stays that failure. */
  lemma {:induction false} EntriesToSticks(rs: seq<Record>, labels: map<string, string>, m: nat, n: nat)
    requires m <= n <= |rs| && EntriesTo(rs, labels, m).MissingLabel?
    ensures EntriesTo(rs, labels, n) == EntriesTo(rs, labels, m)
    decreases n - m
  {
    if m < n {
      EntriesToSticks(rs, labels, m, n - 1);
    }
  }

  lemma EntriesToStep(rs: seq<Record>, labels: map<string, string>, n: nat, text: string)
    requires n < |rs| && EntriesTo(rs, labels, n) == Summary(text)
    ensures rs[n].kind in labels ==> EntriesTo(rs, labels, n + 1) == Summary(text + EntryLine(rs[n], labels[rs[n].kind]))
    ensures rs[n].kind !in labels ==> EntriesTo(rs, labels, n + 1) == MissingLabel(rs[n].kind)
  {
  }

  /** The loop of lines 661-672. */
  method PunishmentLines(rs: seq<Record>, labels: map<string, string>) returns (r: Summary, shown: nat)
    ensures shown == Shown(|rs|)
    ensures r == EntriesTo(rs, labels, shown)
  {
    var punishments := "";
    shown := 0;
    for k := 0 to |rs|
      invariant shown == k && k <= MaxShown
      invariant EntriesTo(rs, labels, shown) == Summary(punishments)
    {
      if shown >= MaxShown {
        break;
      }
      shown := shown + 1;
      var step := EntryNext(rs, labels, k, punishments);
      if step.MissingLabel? {
        return step, Shown(|rs|);
      }
      punishments := step.text;
    }
    r := Summary(punishments);
  }

  /** One turn of the loop of lines 661-672 for the shown record `rs[k]`:
      its line is appended, or its type has no label and the lookup raises,
      which ends the summary. */
  method EntryNext(rs: seq<Record>, labels: map<string, string>, k: nat, punishments: string) returns (r: Summary)
    requires k < |rs| && k < MaxShown && EntriesTo(rs, labels, k) == Summary(punishments)
    ensures r == EntriesTo(rs, labels, k + 1)
    ensures r.MissingLabel? ==> r == EntriesTo(rs, labels, Shown(|rs|))
  {
    var kind := rs[k].kind;
    EntriesToStep(rs, labels, k, punishments);
    if kind !in labels {
      EntriesToSticks(rs, labels, k + 1, Shown(|rs|));
      return MissingLabel(kind);
    }
    r := Summary(punishments + EntryLine(rs[k], labels[kind]));
  }

  /** Lines 654-677: the `Punishments` field of the profile. */
  method PunishmentSummary(rs: seq<Record>, labels: map<string, string>, prefix: string, user: string, userId: nat)
    returns (s: Summary)
    ensures s == Punishments(rs, labels, prefix, user, userId)
  {
    if |rs| == 0 {
      return Summary(NoPunishments);
    }
    var lines, shown := PunishmentLines(rs, labels);
    if lines.MissingLabel? {
      return lines;
    }
    s := Summary(Framed(shown, |rs|, prefix, user, userId, lines.text));
  }
}
