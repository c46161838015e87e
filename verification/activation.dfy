/**
 * Activation: the drafts due in the coming day are provisioned one by one.
 * For each, the bot creates a channel named after the draft, records the
 * channel's id on the row, creates and renames a role, and grants that role
 * to every user listed under the reactions of the proposal message.
 */
module Activation {
  import opened Options
  import opened Text
  import opened Dates
  import opened Drafts
  import opened Platform

  /** The trimmed name with every space turned into a hyphen. */
  function Slug(name: string): string
  {
    ReplaceAll(TrimSpace(name), " ", "-")
  }

  function ChannelName(name: string): string
  {
    "draft-" + Slug(name)
  }

  function RoleName(name: string): string
  {
    Slug(name) + " Drafter"
  }

  /**
   * The draft's role after the edit: renamed, mentionable, not hoisted, and
   * with the colour and permissions it was created with.
   */
  function DraftRole(id: nat, guild: string, name: string, defaults: RoleDefaults): Role
  {
    Role(id, guild, RoleName(name), defaults.color, false, defaults.permissions, true)
  }

  /** A slug never contains a space. */
  lemma SlugHasNoSpace(name: string, k: int)
    ensures !OccursAt(Slug(name), " ", k)
  {
    ReplaceAllAvoids(TrimSpace(name), " ", "-", " ", k);
  }

  /**
   * A name the proposal grammar admits (`\w+`) is its own slug, so its
   * channel is `draft-<name>` and its role `<name> Drafter`.
   */
  lemma SlugOfWord(name: string)
    requires |name| > 0 && AllWord(name)
    ensures Slug(name) == name
    ensures ChannelName(name) == "draft-" + name && RoleName(name) == name + " Drafter"
  {
    assert !IsSpace(name[0]) && !IsSpace(name[|name| - 1]);
    TrimSpaceIdentity(name);
    forall k | 0 <= k <= |name| ensures !OccursAt(name, " ", k) {
      if k < |name| {
        assert IsWordChar(name[k]);
        assert name[k..k + 1][0] == name[k];
      }
    }
    ReplaceAllIdentity(name, " ", "-");
  }

  /** The users listed under the first `i` reactions of a message. */
  function GranteesUpTo(rs: seq<Reaction>, i: nat): set<string>
    requires i <= |rs|
  {
    set k, u | 0 <= k < i && u in Reactors(rs, rs[k].emoji, PageSize) :: u
  }

  /** The users granted the role: everyone listed under some reaction of the message. */
  function Grantees(rs: seq<Reaction>): set<string>
  {
    GranteesUpTo(rs, |rs|)
  }

  /** The grants of role `role` in `guild` to each of `users`. */
  function GrantsOf(guild: string, role: nat, users: set<string>): set<Grant>
  {
    set u | u in users :: Grant(guild, u, role)
  }

  /** The role grants for a draft, or none when its message cannot be fetched. */
  function RowGrants(r: Row, role: nat, reactions: map<(string, string), seq<Reaction>>): set<Grant>
  {
    var m := (r.draft.origChannel, r.draft.message);
    if m in reactions then GrantsOf(r.draft.guild, role, Grantees(reactions[m])) else {}
  }

  lemma GranteesStep(rs: seq<Reaction>, i: nat)
    requires i < |rs|
    ensures GranteesUpTo(rs, i + 1) == GranteesUpTo(rs, i) + set u | u in Reactors(rs, rs[i].emoji, PageSize)
  {
  }

  lemma GrantsOfAdd(guild: string, role: nat, users: set<string>, u: string)
    ensures GrantsOf(guild, role, users + {u}) == GrantsOf(guild, role, users) + {Grant(guild, u, role)}
  {
  }

  /** No two reactions of a message use the same emoji. */
  predicate DistinctEmoji(rs: seq<Reaction>)
  {
    forall i, j :: 0 <= i < j < |rs| ==> rs[i].emoji != rs[j].emoji
  }

  /** With one reaction per emoji, listing an emoji returns that reaction's first users. */
  lemma {:induction false} ReactorsOfOwnEmoji(rs: seq<Reaction>, k: nat, limit: nat)
    requires DistinctEmoji(rs) && k < |rs|
    ensures Reactors(rs, rs[k].emoji, limit) == FirstUsers(rs[k].users, limit)
  {
    if k > 0 {
      assert rs[0].emoji != rs[k].emoji;
      assert rs[1..][k - 1] == rs[k];
      ReactorsOfOwnEmoji(rs[1..], k - 1, limit);
    }
  }

  /**
   * The grantees are the union, over the reactions of the message, of the
   * first page of users listed under each one.
   */
  lemma GranteesUnion(rs: seq<Reaction>)
    requires DistinctEmoji(rs)
    ensures Grantees(rs) == set k, u | 0 <= k < |rs| && u in FirstUsers(rs[k].users, PageSize) :: u
  {
    forall k | 0 <= k < |rs| {
      ReactorsOfOwnEmoji(rs, k, PageSize);
    }
  }

  /** Two reactions listing {U1, U2} and {U2, U3}: the role goes to U1, U2 and U3. */
  lemma GranteesExample()
    ensures Grantees([Reaction("thumbsup", ["U1", "U2"]), Reaction("tada", ["U2", "U3"])]) == {"U1", "U2", "U3"}
  {
    var rs := [Reaction("thumbsup", ["U1", "U2"]), Reaction("tada", ["U2", "U3"])];
    GranteesUnion(rs);
    assert FirstUsers(rs[0].users, PageSize) == ["U1", "U2"];
    assert FirstUsers(rs[1].users, PageSize) == ["U2", "U3"];
    forall u | u in Grantees(rs) ensures u in {"U1", "U2", "U3"} {
      var k :| 0 <= k < |rs| && u in FirstUsers(rs[k].users, PageSize);
    }
    assert "U1" in FirstUsers(rs[0].users, PageSize) && "U2" in FirstUsers(rs[0].users, PageSize);
    assert "U3" in FirstUsers(rs[1].users, PageSize);
  }

  /** The id the Channel column receives: the platform's id as decimal text. */
  function ChannelText(id: nat): (t: string)
    ensures t != ""
  {
    Decimal(id)
  }

  /** Grants `role` to every user listed under every reaction `rs` of a message. */
  method GrantReactors(discord: Discord, guild: string, role: nat, channel: string, message: string)
    requires (channel, message) in discord.reactions
    modifies discord
    ensures discord.grants == old(discord.grants) + GrantsOf(guild, role, Grantees(discord.reactions[(channel, message)]))
    ensures discord.channels == old(discord.channels) && discord.roles == old(discord.roles)
    ensures discord.nextId == old(discord.nextId)
  {
    var rs := discord.reactions[(channel, message)];
    for i := 0 to |rs|
      invariant discord.grants == old(discord.grants) + GrantsOf(guild, role, GranteesUpTo(rs, i))
      invariant discord.channels == old(discord.channels) && discord.roles == old(discord.roles)
      invariant discord.nextId == old(discord.nextId)
    {
      var users := discord.MessageReactions(channel, message, rs[i].emoji, PageSize);
      ghost var seen := GranteesUpTo(rs, i);
      for j := 0 to |users|
        invariant discord.grants == old(discord.grants) + GrantsOf(guild, role, seen)
        invariant seen == GranteesUpTo(rs, i) + set u | u in users[..j]
        invariant discord.channels == old(discord.channels) && discord.roles == old(discord.roles)
        invariant discord.nextId == old(discord.nextId)
      {
        discord.GuildMemberRoleAdd(guild, users[j], role);
        GrantsOfAdd(guild, role, seen, users[j]);
        seen := seen + {users[j]};
        assert users[..j + 1] == users[..j] + [users[j]];
      }
      assert users[..|users|] == users;
      GranteesStep(rs, i);
    }
  }

  /**
   * Creates the draft's role with the platform's defaults, then renames it,
   * makes it mentionable and not hoisted, keeping its colour and permissions.
   */
  method CreateDraftRole(discord: Discord, guild: string, name: string) returns (id: nat)
    requires discord.Valid()
    modifies discord
    ensures discord.Valid()
    ensures id == old(discord.nextId) && discord.nextId == id + 1
    ensures discord.roles == old(discord.roles) + [DraftRole(id, guild, name, discord.defaults)]
    ensures discord.channels == old(discord.channels) && discord.grants == old(discord.grants)
  {
    ghost var before := discord.roles;
    var role := discord.GuildRoleCreate(guild);
    var roleName := Slug(name) + " Drafter";
    EditNewest(before, role, roleName, role.color, false, role.permissions, true);
    discord.GuildRoleEdit(guild, role.id, roleName, role.color, false, role.permissions, true);
    id := role.id;
  }

  /**
   * Provisions one due row: a channel named after the draft, whose id is
   * stored on the row, then the draft's role, granted to every reactor of
   * the proposal message. The result is false when that message cannot be
   * fetched: the process exits at that point, after the channel and the
   * role exist and the row has been updated.
   */
  method Provision(table: DraftTable, discord: Discord, r: Row) returns (ok: bool)
    requires table.Valid() && discord.Valid()
    modifies table, discord
    ensures table.Valid() && discord.Valid()
    ensures table.nextKey == old(table.nextKey)
    ensures table.rows == WithChannel(old(table.rows), r.key, ChannelText(old(discord.nextId)))
    ensures discord.nextId == old(discord.nextId) + 2
    ensures discord.channels == old(discord.channels) + [Channel(old(discord.nextId), r.draft.guild, ChannelName(r.draft.name))]
    ensures discord.roles ==
      old(discord.roles) + [DraftRole(old(discord.nextId) + 1, r.draft.guild, r.draft.name, discord.defaults)]
    ensures ok <==> (r.draft.origChannel, r.draft.message) in discord.reactions
    ensures discord.grants == old(discord.grants) + RowGrants(r, old(discord.nextId) + 1, discord.reactions)
  {
    var guild := r.draft.guild;
    var ch := discord.GuildChannelCreate(guild, "draft-" + Slug(r.draft.name));
    table.SetChannel(r.key, ChannelText(ch));
    var role := CreateDraftRole(discord, guild, r.draft.name);
    var message := discord.ChannelMessage(r.draft.origChannel, r.draft.message);
    if message.None? {
      assert RowGrants(r, role, discord.reactions) == {};
      return false;
    }
    assert RowGrants(r, role, discord.reactions)
        == GrantsOf(guild, role, Grantees(discord.reactions[(r.draft.origChannel, r.draft.message)]));
    GrantReactors(discord, guild, role, r.draft.origChannel, r.draft.message);
    ok := true;
  }

  /** The message a draft was proposed in, as (channel, message) ids. */
  function MessageOf(r: Row): (string, string)
  {
    (r.draft.origChannel, r.draft.message)
  }

  /**
   * How many of the due rows `ds` a run gets through from row `i` on: all
   * of them, or up to and including the first whose message cannot be
   * fetched, where the process exits.
   */
  function ReachFrom(ds: seq<Row>, i: nat, reactions: map<(string, string), seq<Reaction>>): nat
    requires i <= |ds|
    decreases |ds| - i
  {
    if i == |ds| then |ds|
    else if MessageOf(ds[i]) !in reactions then i + 1
    else ReachFrom(ds, i + 1, reactions)
  }

  /**
   * A run stops right after the first row whose message is missing, and
   * gets through every row when all messages can be fetched.
   */
  lemma {:induction false} ReachFromSpec(ds: seq<Row>, i: nat, reactions: map<(string, string), seq<Reaction>>)
    requires i <= |ds|
    ensures i <= ReachFrom(ds, i, reactions) <= |ds|
    ensures (forall k :: i <= k < |ds| ==> MessageOf(ds[k]) in reactions) ==> ReachFrom(ds, i, reactions) == |ds|
    ensures ReachFrom(ds, i, reactions) < |ds| ==>
      i < ReachFrom(ds, i, reactions) && MessageOf(ds[ReachFrom(ds, i, reactions) - 1]) !in reactions
    ensures forall k :: i <= k < ReachFrom(ds, i, reactions) - 1 ==> MessageOf(ds[k]) in reactions
    decreases |ds| - i
  {
    if i < |ds| && MessageOf(ds[i]) in reactions {
      ReachFromSpec(ds, i + 1, reactions);
    }
  }

  /** The table after the first `n` due rows have received the channel ids `base`, `base + 2`, ... */
  function MarkAll(rows: seq<Row>, ds: seq<Row>, n: nat, base: nat): (r: seq<Row>)
    requires n <= |ds|
    ensures |r| == |rows|
  {
    if n == 0 then rows
    else WithChannel(MarkAll(rows, ds, n - 1, base), ds[n - 1].key, ChannelText(base + 2 * (n - 1)))
  }

  /** Some row among the first `n` of `ds` has key `key`. */
  predicate Marked(ds: seq<Row>, n: nat, key: nat)
    requires n <= |ds|
  {
    exists k :: 0 <= k < n && ds[k].key == key
  }

  /**
   * Row by row: marking keeps every row's key and draft, gives each row
   * whose key was processed a non-empty channel id, and leaves every
   * other row as it was.
   */
  lemma {:induction false} MarkAllAt(rows: seq<Row>, ds: seq<Row>, n: nat, base: nat, i: nat)
    requires n <= |ds| && i < |rows|
    ensures MarkAll(rows, ds, n, base)[i].key == rows[i].key
    ensures MarkAll(rows, ds, n, base)[i].draft == rows[i].draft
    ensures Marked(ds, n, rows[i].key) ==>
      MarkAll(rows, ds, n, base)[i].channel.Some? && MarkAll(rows, ds, n, base)[i].channel.value != ""
    ensures !Marked(ds, n, rows[i].key) ==> MarkAll(rows, ds, n, base)[i] == rows[i]
  {
    if n > 0 {
      MarkAllAt(rows, ds, n - 1, base, i);
      var prev := MarkAll(rows, ds, n - 1, base);
      WithChannelActivates(prev, ds[n - 1].key, ChannelText(base + 2 * (n - 1)));
      if Marked(ds, n, rows[i].key) && !Marked(ds, n - 1, rows[i].key) {
        assert ds[n - 1].key == rows[i].key;
      }
    }
  }

  /**
   * After a run, a row the query returns at any time was already due then
   * and was not among the processed rows: no draft is provisioned twice.
   */
  lemma MarkedNotDue(rows: seq<Row>, ds: seq<Row>, n: nat, base: nat, t: int)
    requires n <= |ds|
    ensures forall r :: r in DueRows(MarkAll(rows, ds, n, base), t) ==> r in DueRows(rows, t) && !Marked(ds, n, r.key)
  {
    var after := MarkAll(rows, ds, n, base);
    forall r | r in DueRows(after, t) ensures r in DueRows(rows, t) && !Marked(ds, n, r.key) {
      var i :| 0 <= i < |after| && after[i] == r;
      MarkAllAt(rows, ds, n, base, i);
    }
  }

  /** The query returns nothing when no row is due. */
  lemma {:induction false} NoneDue(rows: seq<Row>, t: int)
    requires forall i :: 0 <= i < |rows| ==> !IsDue(rows[i], t)
    ensures DueRows(rows, t) == []
  {
    if rows != [] {
      assert !IsDue(rows[0], t);
      NoneDue(rows[1..], t);
    }
  }

  /** A run that got through every due row leaves nothing due at the same time. */
  lemma NothingDueTwice(rows: seq<Row>, now: int, base: nat)
    ensures DueRows(MarkAll(rows, DueRows(rows, now), |DueRows(rows, now)|, base), now) == []
  {
    var ds := DueRows(rows, now);
    var after := MarkAll(rows, ds, |ds|, base);
    forall i | 0 <= i < |after| ensures !IsDue(after[i], now) {
      MarkAllAt(rows, ds, |ds|, base, i);
      if IsDue(rows[i], now) {
        assert rows[i] in ds;
        var k :| 0 <= k < |ds| && ds[k] == rows[i];
        assert Marked(ds, |ds|, rows[i].key);
      }
    }
    NoneDue(after, now);
  }

  /** The channels created for the first `n` due rows. */
  function ChannelsFor(ds: seq<Row>, n: nat, base: nat): (cs: seq<Channel>)
    requires n <= |ds|
  {
    seq(n, k requires 0 <= k < n => Channel(base + 2 * k, ds[k].draft.guild, ChannelName(ds[k].draft.name)))
  }

  /** The roles created for the first `n` due rows: renamed, mentionable, not hoisted. */
  function RolesFor(ds: seq<Row>, n: nat, base: nat, defaults: RoleDefaults): (rs: seq<Role>)
    requires n <= |ds|
  {
    seq(n, k requires 0 <= k < n => DraftRole(base + 2 * k + 1, ds[k].draft.guild, ds[k].draft.name, defaults))
  }

  /** The role grants made for the first `n` due rows. */
  function AllGrants(ds: seq<Row>, n: nat, base: nat, reactions: map<(string, string), seq<Reaction>>): set<Grant>
    requires n <= |ds|
  {
    if n == 0 then {} else AllGrants(ds, n - 1, base, reactions) + RowGrants(ds[n - 1], base + 2 * n - 1, reactions)
  }

  /** Provisioning row `n` appends its channel, its role and its grants to the run so far. */
  lemma RunStep(ds: seq<Row>, n: nat, base: nat, reactions: map<(string, string), seq<Reaction>>, defaults: RoleDefaults)
    requires n < |ds|
    ensures ChannelsFor(ds, n + 1, base)
      == ChannelsFor(ds, n, base) + [Channel(base + 2 * n, ds[n].draft.guild, ChannelName(ds[n].draft.name))]
    ensures RolesFor(ds, n + 1, base, defaults)
      == RolesFor(ds, n, base, defaults) + [DraftRole(base + 2 * n + 1, ds[n].draft.guild, ds[n].draft.name, defaults)]
    ensures AllGrants(ds, n + 1, base, reactions) == AllGrants(ds, n, base, reactions) + RowGrants(ds[n], base + 2 * n + 1, reactions)
  {
  }

  /** The table rows and the platform state an activation run works on. */
  datatype State = State(rows: seq<Row>, channels: seq<Channel>, roles: seq<Role>, grants: set<Grant>, nextId: nat)

  ghost function StateOf(table: DraftTable, discord: Discord): State
    reads table, discord
  {
    State(table.rows, discord.channels, discord.roles, discord.grants, discord.nextId)
  }

  /** The state after provisioning `r` in `s`: the effect `Provision` promises. */
  function Provisioned(s: State, r: Row, reactions: map<(string, string), seq<Reaction>>, defaults: RoleDefaults): State
  {
    State(WithChannel(s.rows, r.key, ChannelText(s.nextId)),
          s.channels + [Channel(s.nextId, r.draft.guild, ChannelName(r.draft.name))],
          s.roles + [DraftRole(s.nextId + 1, r.draft.guild, r.draft.name, defaults)],
          s.grants + RowGrants(r, s.nextId + 1, reactions),
          s.nextId + 2)
  }

  /** `s` is the state after the first `n` rows of `due` have been provisioned from `start`. */
  ghost predicate Reached(
    s: State, due: seq<Row>, n: nat, start: State, reactions: map<(string, string), seq<Reaction>>, defaults: RoleDefaults)
  {
    && n <= |due|
    && s.rows == MarkAll(start.rows, due, n, start.nextId)
    && s.nextId == start.nextId + 2 * n
    && s.channels == start.channels + ChannelsFor(due, n, start.nextId)
    && s.roles == start.roles + RolesFor(due, n, start.nextId, defaults)
    && s.grants == start.grants + AllGrants(due, n, start.nextId, reactions)
  }

  /** Provisioning the next due row extends a run by one row. */
  lemma ReachedStep(
    s: State, due: seq<Row>, n: nat, start: State, reactions: map<(string, string), seq<Reaction>>, defaults: RoleDefaults)
    requires n < |due| && Reached(s, due, n, start, reactions, defaults)
    ensures Reached(Provisioned(s, due[n], reactions, defaults), due, n + 1, start, reactions, defaults)
  {
    RunStep(due, n, start.nextId, reactions, defaults);
    var s' := Provisioned(s, due[n], reactions, defaults);
    assert s'.channels == start.channels + ChannelsFor(due, n + 1, start.nextId);
    assert s'.roles == start.roles + RolesFor(due, n + 1, start.nextId, defaults);
  }

  /** Provisions row `n` of `due`, extending the run by one row. */
  method ProvisionNext(table: DraftTable, discord: Discord, due: seq<Row>, n: nat, ghost start: State) returns (ok: bool)
    requires table.Valid() && discord.Valid()
    requires n < |due| && Reached(StateOf(table, discord), due, n, start, discord.reactions, discord.defaults)
    modifies table, discord
    ensures table.Valid() && discord.Valid()
    ensures table.nextKey == old(table.nextKey)
    ensures Reached(StateOf(table, discord), due, n + 1, start, discord.reactions, discord.defaults)
    ensures ok <==> MessageOf(due[n]) in discord.reactions
  {
    ghost var s := StateOf(table, discord);
    ok := Provision(table, discord, due[n]);
    ReachedStep(s, due, n, start, discord.reactions, discord.defaults);
    assert StateOf(table, discord) == Provisioned(s, due[n], discord.reactions, discord.defaults);
  }

  /**
   * The activation job: provisions the rows the due-window query returns
   * at `now`, in table order, each with the next two platform ids (its
   * channel, then its role). `completed` is false when a proposal message
   * could not be fetched, which ends the run after that row.
   */
  method Activate(table: DraftTable, discord: Discord, now: int) returns (completed: bool, processed: nat)
    requires table.Valid() && discord.Valid()
    modifies table, discord
    ensures table.Valid() && discord.Valid()
    ensures processed <= |old(DueRows(table.rows, now))|
    ensures processed == ReachFrom(old(DueRows(table.rows, now)), 0, discord.reactions)
    ensures completed <==> forall k :: 0 <= k < |old(DueRows(table.rows, now))| ==>
      MessageOf(old(DueRows(table.rows, now))[k]) in discord.reactions
    ensures table.nextKey == old(table.nextKey)
    ensures table.rows == MarkAll(old(table.rows), old(DueRows(table.rows, now)), processed, old(discord.nextId))
    ensures discord.nextId == old(discord.nextId) + 2 * processed
    ensures discord.channels == old(discord.channels) + ChannelsFor(old(DueRows(table.rows, now)), processed, old(discord.nextId))
    ensures discord.roles == old(discord.roles) + RolesFor(old(DueRows(table.rows, now)), processed, old(discord.nextId), discord.defaults)
    ensures discord.grants ==
      old(discord.grants) + AllGrants(old(DueRows(table.rows, now)), processed, old(discord.nextId), discord.reactions)
  {
    var due := table.Due(now);
    ghost var start := StateOf(table, discord);
    processed := 0;
    while processed < |due|
      invariant table.Valid() && discord.Valid()
      invariant table.nextKey == old(table.nextKey)
      invariant Reached(StateOf(table, discord), due, processed, start, discord.reactions, discord.defaults)
      invariant ReachFrom(due, 0, discord.reactions) == ReachFrom(due, processed, discord.reactions)
      invariant forall k :: 0 <= k < processed ==> MessageOf(due[k]) in discord.reactions
      decreases |due| - processed
    {
      var ok := ProvisionNext(table, discord, due, processed, start);
      processed := processed + 1;
      if !ok {
        completed := false;
        return;
      }
    }
    completed := true;
  }
}
