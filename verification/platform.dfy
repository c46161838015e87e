/**
 * The chat platform (a Discord guild and the messages in it) as abstract
 * state: the channels and roles the bot has created, the role grants, and
 * the reactions on each message. Ids the platform hands out are numbers
 * from a counter; the bot stores them as decimal text.
 */
module Platform {
  import opened Options

  datatype Channel = Channel(id: nat, guild: string, name: string)

  datatype Role = Role(
    id: nat, guild: string, name: string, color: int, hoist: bool, permissions: int, mentionable: bool)

  /** `user` holds role `role` in `guild`. */
  datatype Grant = Grant(guild: string, user: string, role: nat)

  /** One emoji on a message and the users who reacted with it, in listing order. */
  datatype Reaction = Reaction(emoji: string, users: seq<string>)

  /** The `limit` the bot passes when it lists the users of a reaction. */
  const PageSize: nat := 100

  /** The users a listing returns: the first `limit` of them. */
  function FirstUsers(users: seq<string>, limit: nat): (page: seq<string>)
    ensures |page| <= limit && page <= users
    ensures |users| <= limit ==> page == users
    ensures |users| > limit ==> page == users[..limit]
  {
    if |users| <= limit then users else users[..limit]
  }

  /** The users listed under `emoji` on a message with reactions `rs`. */
  function Reactors(rs: seq<Reaction>, emoji: string, limit: nat): (users: seq<string>)
    ensures |users| <= limit
    ensures forall u :: u in users ==> exists k :: 0 <= k < |rs| && rs[k].emoji == emoji && u in rs[k].users
  {
    if rs == [] then []
    else if rs[0].emoji == emoji then FirstUsers(rs[0].users, limit)
    else
      var users := Reactors(rs[1..], emoji, limit);
      assert forall k :: 0 <= k < |rs[1..]| ==> rs[1..][k] == rs[k + 1];
      users
  }

  /** The colour and permissions the platform gives a newly created role. */
  datatype RoleDefaults = RoleDefaults(color: int, permissions: int)

  /** The role a fresh `GuildRoleCreate` returns. */
  function NewRole(id: nat, guild: string, defaults: RoleDefaults): Role
  {
    Role(id, guild, "new role", defaults.color, false, defaults.permissions, false)
  }

  /** `GuildRoleEdit`: the role with that id in that guild takes the new settings. */
  function EditRoles(
    roles: seq<Role>, guild: string, id: nat, name: string, color: int, hoist: bool,
    permissions: int, mentionable: bool): (r: seq<Role>)
    ensures |r| == |roles|
  {
    seq(|roles|, i requires 0 <= i < |roles| =>
      if roles[i].id == id && roles[i].guild == guild
      then Role(id, guild, name, color, hoist, permissions, mentionable)
      else roles[i])
  }

  /** Editing a role just created changes that role alone, as every older role has a smaller id. */
  lemma EditNewest(
    roles: seq<Role>, role: Role, name: string, color: int, hoist: bool, permissions: int, mentionable: bool)
    requires forall r :: r in roles ==> r.id < role.id
    ensures EditRoles(roles + [role], role.guild, role.id, name, color, hoist, permissions, mentionable)
         == roles + [Role(role.id, role.guild, name, color, hoist, permissions, mentionable)]
  {
    var all := roles + [role];
    forall i | 0 <= i < |roles| ensures !(all[i].id == role.id) {
      assert all[i] == roles[i] && roles[i] in roles;
    }
  }

  class Discord {
    var channels: seq<Channel>
    var roles: seq<Role>
    var grants: set<Grant>
    var nextId: nat
    /** The reactions on every message the bot can fetch, by (channel, message). */
    const reactions: map<(string, string), seq<Reaction>>
    /** The settings of a role when it is created. */
    const defaults: RoleDefaults

    /** Every id in use was handed out before `nextId`. */
    ghost predicate Valid()
      reads this
    {
      (forall c :: c in channels ==> c.id < nextId) && (forall r :: r in roles ==> r.id < nextId)
    }

    constructor (reactions: map<(string, string), seq<Reaction>>, defaults: RoleDefaults)
      ensures Valid()
      ensures channels == [] && roles == [] && grants == {} && nextId == 0
      ensures this.reactions == reactions && this.defaults == defaults
    {
      channels, roles, grants, nextId := [], [], {}, 0;
      this.reactions := reactions;
      this.defaults := defaults;
    }

    method GuildChannelCreate(guild: string, name: string) returns (id: nat)
      requires Valid()
      modifies this
      ensures Valid()
      ensures id == old(nextId) && nextId == id + 1
      ensures channels == old(channels) + [Channel(id, guild, name)]
      ensures roles == old(roles) && grants == old(grants)
    {
      id := nextId;
      channels := channels + [Channel(id, guild, name)];
      nextId := nextId + 1;
    }

    method GuildRoleCreate(guild: string) returns (role: Role)
      requires Valid()
      modifies this
      ensures Valid()
      ensures role == NewRole(old(nextId), guild, defaults) && nextId == old(nextId) + 1
      ensures roles == old(roles) + [role]
      ensures channels == old(channels) && grants == old(grants)
    {
      role := NewRole(nextId, guild, defaults);
      roles := roles + [role];
      nextId := nextId + 1;
    }

    method GuildRoleEdit(
      guild: string, id: nat, name: string, color: int, hoist: bool, permissions: int, mentionable: bool)
      requires Valid()
      modifies this
      ensures Valid()
      ensures roles == EditRoles(old(roles), guild, id, name, color, hoist, permissions, mentionable)
      ensures channels == old(channels) && grants == old(grants) && nextId == old(nextId)
    {
      roles := EditRoles(roles, guild, id, name, color, hoist, permissions, mentionable);
      assert forall i :: 0 <= i < |roles| ==> roles[i].id == old(roles)[i].id;
    }

    /** `ChannelMessage`: the reactions of a message, or nothing if it cannot be fetched. */
    method ChannelMessage(channel: string, message: string) returns (r: Option<seq<Reaction>>)
      ensures r == if (channel, message) in reactions then Some(reactions[(channel, message)]) else None
    {
      r := if (channel, message) in reactions then Some(reactions[(channel, message)]) else None;
    }

    /** `MessageReactions`: the first `limit` users who reacted with `emoji`. */
    method MessageReactions(channel: string, message: string, emoji: string, limit: nat) returns (users: seq<string>)
      requires (channel, message) in reactions
      ensures users == Reactors(reactions[(channel, message)], emoji, limit)
    {
      users := Reactors(reactions[(channel, message)], emoji, limit);
    }

    /** `GuildMemberRoleAdd`: granting a role the user already holds changes nothing. */
    method GuildMemberRoleAdd(guild: string, user: string, role: nat)
      modifies this
      ensures grants == old(grants) + {Grant(guild, user, role)}
      ensures channels == old(channels) && roles == old(roles) && nextId == old(nextId)
    {
      grants := grants + {Grant(guild, user, role)};
    }
  }
}
