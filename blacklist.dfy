/** The `blacklist` command `ChatControl._roles_set` (cogs/utility.py:747-800):
    toggling a member's blacklist role for the suggestions or the spoilers
    channel and recording it in the punishment collection. */
module Blacklist {
  import opened Py

  /** The configured ids the command compares against: the two channels a
      member can be blacklisted from and the role that blocks each. */
  datatype Config = Config(suggestions: int, noSuggestions: int, spoilers: int, noSpoilers: int)

  datatype Channel = Channel(id: int, name: string)

  /** A document of the punishment collection as `issue_pun` writes it. */
  datatype Pun = Pun(user: int, moderator: int, kind: string, reason: string, active: bool, context: string)

  /** What the command answers: the refusal of line 770, or the new status. */
  datatype Outcome = Refused | Toggled(blacklisted: bool)

  /** The role that blocks `channel`: the `if`/`elif` of lines 749-770, so
      the suggestions channel is tested first. */
  function BlockingRole(cfg: Config, channel: int): (r: Option<int>)
    ensures r.Some? <==> channel == cfg.suggestions || channel == cfg.spoilers
    ensures channel == cfg.suggestions ==> r == Some(cfg.noSuggestions)
    ensures channel != cfg.suggestions && channel == cfg.spoilers ==> r == Some(cfg.noSpoilers)
  {
    if channel == cfg.suggestions then Some(cfg.noSuggestions)
    else if channel == cfg.spoilers then Some(cfg.noSpoilers)
    else None
  }

  /** The record `find_one_and_update` of lines 777-779 selects: the first
      active `blacklist` record of the member for the channel's name. */
  predicate OpenBlacklist(p: Pun, user: int, context: string) {
    p.user == user && p.kind == "blacklist" && p.active && p.context == context
  }

  function FirstOpen(puns: seq<Pun>, user: int, context: string): (r: Option<nat>)
    ensures r.Some? ==> r.value < |puns| && OpenBlacklist(puns[r.value], user, context)
    ensures r.Some? ==> forall i :: 0 <= i < r.value ==> !OpenBlacklist(puns[i], user, context)
    ensures r.None? ==> forall i :: 0 <= i < |puns| ==> !OpenBlacklist(puns[i], user, context)
    decreases |puns|
  {
    if puns == [] then None
    else if OpenBlacklist(puns[0], user, context) then Some(0)
    else match FirstOpen(puns[1..], user, context)
      case None => None
      case Some(i) => Some(i + 1)
  }

  /** The collection after the update of lines 777-779: the selected record,
      if any, becomes inactive. */
  function Close(puns: seq<Pun>, user: int, context: string): (r: seq<Pun>)
    ensures |r| == |puns|
    ensures forall i :: 0 <= i < |puns| && r[i] != puns[i] ==>
      FirstOpen(puns, user, context) == Some(i) && r[i] == puns[i].(active := false)
    ensures FirstOpen(puns, user, context).Some? ==> !r[FirstOpen(puns, user, context).value].active
  {
    match FirstOpen(puns, user, context)
    case None => puns
    case Some(i) => puns[i := puns[i].(active := false)]
  }

  /** The role set and the punishment collection after the command. */
  function Toggle(cfg: Config, roles: set<int>, puns: seq<Pun>, user: int, moderator: int,
                  channel: Channel, reason: string): (r: (set<int>, seq<Pun>, Outcome))
    ensures r.2 == Refused <==> BlockingRole(cfg, channel.id).None?
    ensures r.2.Toggled? ==> (BlockingRole(cfg, channel.id).value in r.0 <==> r.2.blacklisted)
    ensures r.2.Toggled? ==>
      && |r.1| == |puns| + 1
      && r.1[|puns|].kind == (if r.2.blacklisted then "blacklist" else "unblacklist")
      && r.1[|puns|].active == r.2.blacklisted && r.1[|puns|].context == channel.name
  {
    match BlockingRole(cfg, channel.id)
    case None => (roles, puns, Refused)
    case Some(role) =>
      if role in roles then
        (roles - {role},
         Close(puns, user, channel.name) + [Pun(user, moderator, "unblacklist", reason, false, channel.name)],
         Toggled(false))
      else
        (roles + {role},
         puns + [Pun(user, moderator, "blacklist", reason, true, channel.name)],
         Toggled(true))
  }

  /** Any other channel is refused, and nothing changes. */
  lemma RefusedChangesNothing(cfg: Config, roles: set<int>, puns: seq<Pun>, user: int, moderator: int,
                              channel: Channel, reason: string)
    ensures var r := Toggle(cfg, roles, puns, user, moderator, channel, reason);
      r.2 == Refused <==> channel.id != cfg.suggestions && channel.id != cfg.spoilers
    ensures var r := Toggle(cfg, roles, puns, user, moderator, channel, reason);
      r.2 == Refused ==> r.0 == roles && r.1 == puns
  {
  }

  /** On an allowed channel the blocking role flips, and only that role. */
  lemma RoleFlips(cfg: Config, roles: set<int>, puns: seq<Pun>, user: int, moderator: int,
                  channel: Channel, reason: string, role: int)
    requires BlockingRole(cfg, channel.id) == Some(role)
    ensures var r := Toggle(cfg, roles, puns, user, moderator, channel, reason);
      && (role in r.0 <==> role !in roles)
      && (forall x :: x != role ==> (x in r.0 <==> x in roles))
      && r.2 == Toggled(role !in roles)
  {
  }

  /** Blacklisting appends one active `blacklist` record and changes no other. */
  lemma BlacklistAppends(cfg: Config, roles: set<int>, puns: seq<Pun>, user: int, moderator: int,
                         channel: Channel, reason: string)
    requires Toggle(cfg, roles, puns, user, moderator, channel, reason).2 == Toggled(true)
    ensures var r := Toggle(cfg, roles, puns, user, moderator, channel, reason);
      r.1 == puns + [Pun(user, moderator, "blacklist", reason, true, channel.name)]
  {
  }

  /** Unblacklisting closes at most one record, the first open blacklist of
      the member for the channel, and appends an inactive `unblacklist`. */
  lemma UnblacklistClosesOne(cfg: Config, roles: set<int>, puns: seq<Pun>, user: int, moderator: int,
                             channel: Channel, reason: string)
    requires Toggle(cfg, roles, puns, user, moderator, channel, reason).2 == Toggled(false)
    ensures var r := Toggle(cfg, roles, puns, user, moderator, channel, reason).1;
      && |r| == |puns| + 1
      && r[|puns|] == Pun(user, moderator, "unblacklist", reason, false, channel.name)
      && (forall i :: 0 <= i < |puns| && r[i] != puns[i] ==>
            OpenBlacklist(puns[i], user, channel.name) && r[i] == puns[i].(active := false)
            && forall j :: 0 <= j < |puns| && j != i ==> r[j] == puns[j])
      && ((exists i :: 0 <= i < |puns| && OpenBlacklist(puns[i], user, channel.name)) ==>
            OpenCount(r, user, channel.name) == OpenCount(puns, user, channel.name) - 1)
      && ((forall i :: 0 <= i < |puns| ==> !OpenBlacklist(puns[i], user, channel.name)) ==>
            r[..|puns|] == puns)
  {
    var ctx := channel.name;
    var r := Toggle(cfg, roles, puns, user, moderator, channel, reason).1;
    var closed := Close(puns, user, ctx);
    var rec := Pun(user, moderator, "unblacklist", reason, false, ctx);
    assert r == closed + [rec];
    OpenCountAppend(closed, rec, user, ctx);
    match FirstOpen(puns, user, ctx)
    case None =>
    case Some(k) =>
      OpenCountUpdate(puns, k, user, ctx);
  }

  /** The number of open blacklist records of the member for the channel. */
  function OpenCount(puns: seq<Pun>, user: int, context: string): nat
    decreases |puns|
  {
    if puns == [] then 0
    else OpenCount(puns[..|puns| - 1], user, context) + if OpenBlacklist(puns[|puns| - 1], user, context) then 1 else 0
  }

  lemma OpenCountAppend(puns: seq<Pun>, p: Pun, user: int, context: string)
    ensures OpenCount(puns + [p], user, context)
      == OpenCount(puns, user, context) + if OpenBlacklist(p, user, context) then 1 else 0
  {
    assert (puns + [p])[..|puns|] == puns;
  }

  /** Closing an open record lowers the count by one. */
  lemma {:induction false} OpenCountUpdate(puns: seq<Pun>, k: nat, user: int, context: string)
    requires k < |puns| && OpenBlacklist(puns[k], user, context)
    ensures OpenCount(puns[k := puns[k].(active := false)], user, context) == OpenCount(puns, user, context) - 1
    decreases |puns|
  {
    var n := |puns|;
    var q := puns[k := puns[k].(active := false)];
    assert q[..n - 1] == if k < n - 1 then puns[..n - 1][k := puns[k].(active := false)] else puns[..n - 1];
    if k < n - 1 {
      OpenCountUpdate(puns[..n - 1], k, user, context);
    }
  }

  /** The member, whose role set the command changes. */
  class Member {
    const id: int
    var roles: set<int>

    constructor (id: int, roles: set<int>)
      ensures this.id == id && this.roles == roles
    {
      this.id := id;
      this.roles := roles;
    }
  }

  /** The punishment collection. */
  class PunStore {
    var puns: seq<Pun>

    constructor (puns: seq<Pun>)
      ensures this.puns == puns
    {
      this.puns := puns;
    }

    /** `find_one_and_update` of lines 777-779: the first open blacklist
        record of `user` for `context` is set inactive. */
    method CloseFirst(user: int, context: string)
      modifies this
      ensures puns == Close(old(puns), user, context)
    {
      var i := 0;
      while i < |puns|
        invariant 0 <= i <= |puns| && puns == old(puns)
        invariant forall j :: 0 <= j < i ==> !OpenBlacklist(puns[j], user, context)
      {
        if OpenBlacklist(puns[i], user, context) {
          FirstOpenAt(puns, i, user, context);
          puns := puns[i := puns[i].(active := false)];
          return;
        }
        i := i + 1;
      }
    }

    /** `utils.issue_pun`, as far as this command relies on it: one record appended. */
    method Issue(p: Pun)
      modifies this
      ensures puns == old(puns) + [p]
    {
      puns := puns + [p];
    }
  }

  lemma FirstOpenAt(puns: seq<Pun>, i: nat, user: int, context: string)
    requires i < |puns| && OpenBlacklist(puns[i], user, context)
    requires forall j :: 0 <= j < i ==> !OpenBlacklist(puns[j], user, context)
    ensures FirstOpen(puns, user, context) == Some(i)
  {
  }

  /** Lines 747-780: the role toggle and its record. */
  method RolesSet(cfg: Config, member: Member, moderator: int, channel: Channel, reason: string, store: PunStore)
    returns (outcome: Outcome)
    modifies member, store
    ensures (member.roles, store.puns, outcome)
      == Toggle(cfg, old(member.roles), old(store.puns), member.id, moderator, channel, reason)
  {
    var statusText := "";
    if channel.id == cfg.suggestions {
      if cfg.noSuggestions in member.roles {
        member.roles := member.roles - {cfg.noSuggestions};
        statusText := "Unblacklisted";
      } else {
        member.roles := member.roles + {cfg.noSuggestions};
        statusText := "Blacklisted";
      }
    } else if channel.id == cfg.spoilers {
      if cfg.noSpoilers in member.roles {
        member.roles := member.roles - {cfg.noSpoilers};
        statusText := "Unblacklisted";
      } else {
        member.roles := member.roles + {cfg.noSpoilers};
        statusText := "Blacklisted";
      }
    } else {
      return Refused;
    }
    if statusText == "Blacklisted" {
      store.Issue(Pun(member.id, moderator, "blacklist", reason, true, channel.name));
      outcome := Toggled(true);
    } else {
      store.CloseFirst(member.id, channel.name);
      store.Issue(Pun(member.id, moderator, "unblacklist", reason, false, channel.name));
      outcome := Toggled(false);
    }
  }
}
