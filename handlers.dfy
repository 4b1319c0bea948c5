/** The bot's in-memory state and its command handlers. The document
    `data["servers"]`, the pending registrations and the number of times the
    document was written to disk are fields of one object; each handler
    updates them in place and is proved against the matching function of
    modules Guild and Flows. The loops of the source are the read-only
    methods at the top. */
module Handlers {
  import opened Wrappers
  import opened Text
  import opened Guild
  import opened Flows

  // ----------------------------------------------------------------- loops

  /** `is_authorized`, with its early returns. */
  method IsAuthorized(roles: seq<RoleId>, actor: Actor) returns (ok: bool)
    ensures ok == Authorized(roles, actor)
  {
    if |roles| == 0 {
      return actor.admin;
    }
    var k := 0;
    while k < |actor.roles|
      invariant 0 <= k <= |actor.roles|
      invariant forall j | 0 <= j < k :: actor.roles[j] !in roles
    {
      if actor.roles[k] in roles {
        return true;
      }
      k := k + 1;
    }
    return actor.admin;
  }

  /** The scan of `setalias` and `editalias` for a work already carrying an alias. */
  method AnyWorkHasAlias(ws: Works, alias: string) returns (taken: bool)
    ensures taken == AliasUsed(ws, alias)
  {
    var k := 0;
    while k < |ws|
      invariant 0 <= k <= |ws|
      invariant forall j | 0 <= j < k :: ws[j].work.alias != Some(alias)
    {
      if ws[k].work.alias == Some(alias) {
        return true;
      }
      k := k + 1;
    }
    return false;
  }

  /** The first loop of `editalias`, and the alias scan of
      `find_work_by_name_or_alias`: the first work carrying the alias. */
  method FirstWithAlias(ws: Works, alias: string) returns (r: Option<nat>)
    ensures r == IndexOfAlias(ws, alias)
  {
    var k := 0;
    while k < |ws|
      invariant 0 <= k <= |ws|
      invariant forall j | 0 <= j < k :: ws[j].work.alias != Some(alias)
    {
      if ws[k].work.alias == Some(alias) {
        assert AliasUsed(ws, alias);
        return Some(k);
      }
      k := k + 1;
    }
    return None;
  }

  /** `find_work_by_name_or_alias`. */
  method FindWorkByNameOrAlias(ws: Works, key: string) returns (r: Option<nat>)
    ensures r == Find(ws, key)
  {
    r := IndexOfName(ws, key);
    if r.None? {
      r := FirstWithAlias(ws, key);
    }
  }

  /** The line `listalias` prints for one work, if any. */
  function AliasLine(e: Entry): seq<(string, string)> {
    match e.work.alias {
      case Some(a) => if a != "" then [(e.name, a)] else []
      case None => []
    }
  }

  lemma {:induction false} AliasListingSnoc(ws: Works, e: Entry)
    ensures AliasListing(ws + [e]) == AliasListing(ws) + AliasLine(e)
  {
    if ws == [] {
      assert [e][1..] == [];
    } else {
      assert (ws + [e])[1..] == ws[1..] + [e];
      AliasListingSnoc(ws[1..], e);
    }
  }

  /** The loop of `listalias`. */
  method ListAliases(ws: Works) returns (lines: seq<(string, string)>)
    ensures lines == AliasListing(ws)
  {
    lines := [];
    var k := 0;
    while k < |ws|
      invariant 0 <= k <= |ws|
      invariant lines == AliasListing(ws[..k])
    {
      var e := ws[k];
      if e.work.alias.Some? && e.work.alias.value != "" {
        lines := lines + [(e.name, e.work.alias.value)];
      }
      assert ws[..k + 1] == ws[..k] + [e];
      AliasListingSnoc(ws[..k], e);
      k := k + 1;
    }
    assert ws[..k] == ws;
  }

  // ------------------------------------------------------------- the state

  /** The configuration of a guild once `get_guild_data` has run for it. */
  function ConfigOf(servers: map<GuildId, GuildConfig>, gid: GuildId): GuildConfig {
    if gid in servers then servers[gid] else DefaultGuild
  }

  /** The document write `get_guild_data` makes when it creates a guild. */
  function Created(servers: map<GuildId, GuildConfig>, gid: GuildId): nat {
    if gid in servers then 0 else 1
  }

  /** A second `get_guild_data` returns the same configuration and writes nothing. */
  lemma GetGuildDataIdempotent(servers: map<GuildId, GuildConfig>, gid: GuildId)
    ensures var s' := servers[gid := ConfigOf(servers, gid)];
      ConfigOf(s', gid) == ConfigOf(servers, gid) && Created(s', gid) == 0 &&
      s'[gid := ConfigOf(s', gid)] == s'
    ensures gid !in servers ==> ConfigOf(servers, gid) == DefaultGuild
  {
  }

  function ApplyPending(pending: map<UserId, Pending>, user: UserId, e: PendingEffect): map<UserId, Pending> {
    match e {
      case Keep => pending
      case Put(p) => pending[user := p]
      case Drop => pending - {user}
    }
  }

  function SaveIf(b: bool): nat {
    if b then 1 else 0
  }

  class Bot {
    var servers: map<GuildId, GuildConfig>
    var pending: map<UserId, Pending>
    var saves: nat

    ghost predicate Valid()
      reads this
    {
      forall gid | gid in servers :: GuildValid(servers[gid])
    }

    /** The state after `load_data` found no file. */
    constructor ()
      ensures servers == map[] && pending == map[] && saves == 0
      ensures Valid()
    {
      servers := map[];
      pending := map[];
      saves := 0;
    }

    /** `get_guild_data`: create and persist the default configuration the
        first time a guild is seen. */
    method GetGuildData(gid: GuildId) returns (g: GuildConfig)
      modifies this
      ensures g == ConfigOf(old(servers), gid)
      ensures servers == old(servers)[gid := g]
      ensures pending == old(pending)
      ensures saves == old(saves) + Created(old(servers), gid)
      ensures old(Valid()) ==> Valid()
    {
      if gid !in servers {
        DefaultGuildValid();
        servers := servers[gid := DefaultGuild];
        saves := saves + 1;
      }
      g := servers[gid];
    }

    /** `addrol`. */
    method AddRol(gid: GuildId, role: RoleId) returns (reply: Reply)
      modifies this
      ensures var o := AddRole(ConfigOf(old(servers), gid), role);
        servers == old(servers)[gid := o.guild] && reply == o.reply
      ensures pending == old(pending)
      ensures saves == old(saves) + Created(old(servers), gid) + SaveIf(reply == Done)
      ensures old(Valid()) ==> Valid()
    {
      var g := GetGuildData(gid);
      if role !in g.roles {
        servers := servers[gid := g.(roles := g.roles + [role])];
        saves := saves + 1;
        reply := Done;
      } else {
        reply := RoleAlreadyAllowed;
      }
    }

    /** `delrol`. */
    method DelRol(gid: GuildId, role: RoleId) returns (reply: Reply)
      modifies this
      ensures var o := RemoveRole(ConfigOf(old(servers), gid), role);
        servers == old(servers)[gid := o.guild] && reply == o.reply
      ensures pending == old(pending)
      ensures saves == old(saves) + Created(old(servers), gid) + SaveIf(reply == Done)
      ensures old(Valid()) ==> Valid()
    {
      var g := GetGuildData(gid);
      if role in g.roles {
        servers := servers[gid := g.(roles := RemoveFirst(g.roles, role))];
        saves := saves + 1;
        reply := Done;
      } else {
        reply := RoleNotAllowed;
      }
    }

    /** `setcanal`, run in the channel `channel`. */
    method SetCanal(gid: GuildId, actor: Actor, categoria: string, channel: ChannelId) returns (reply: Reply)
      modifies this
      ensures var o := SetChannel(ConfigOf(old(servers), gid), actor, categoria, channel);
        servers == old(servers)[gid := o.guild] && reply == o.reply
      ensures pending == old(pending)
      ensures saves == old(saves) + Created(old(servers), gid) + SaveIf(reply == Done)
      ensures old(Valid()) ==> Valid()
    {
      var g := GetGuildData(gid);
      var ok := IsAuthorized(g.roles, actor);
      if !ok {
        return NoPermission;
      }
      var cat := Upper(categoria);
      if cat !in Tags {
        return InvalidCategory;
      }
      servers := servers[gid := g.(channels := g.channels[cat := Some(channel)])];
      saves := saves + 1;
      return Done;
    }

    /** `setdonacion`, answered by `replies`. */
    method SetDonacion(gid: GuildId, actor: Actor, replies: seq<string>) returns (reply: Reply)
      modifies this
      ensures var o := SetDonation(ConfigOf(old(servers), gid), actor, replies);
        servers == old(servers)[gid := o.guild] && reply == o.reply
      ensures pending == old(pending)
      ensures saves == old(saves) + Created(old(servers), gid) + SaveIf(reply == Done)
      ensures old(Valid()) ==> Valid()
    {
      var g := GetGuildData(gid);
      var ok := IsAuthorized(g.roles, actor);
      if !ok {
        return NoPermission;
      }
      if |replies| < 1 {
        return Waiting;
      }
      servers := servers[gid := g.(donacion := Some(replies[0]))];
      saves := saves + 1;
      return Done;
    }

    /** `agregarobra`, answered by `replies`. */
    method AgregarObra(gid: GuildId, actor: Actor, categoria: string, nombre: string, replies: seq<string>)
      returns (reply: Reply)
      modifies this
      ensures var r := Register(ConfigOf(old(servers), gid), actor, gid, categoria, nombre, replies);
        && servers == old(servers)[gid := r.guild]
        && pending == ApplyPending(old(pending), actor.id, r.pending)
        && reply == r.reply
      ensures saves == old(saves) + Created(old(servers), gid) + SaveIf(reply == Done)
      ensures old(Valid()) ==> Valid()
    {
      ghost var g0, wasValid := ConfigOf(servers, gid), Valid();
      var g := GetGuildData(gid);
      var ok := IsAuthorized(g.roles, actor);
      if !ok {
        return NoPermission;
      }
      var cat := Upper(categoria);
      if cat !in Tags {
        return InvalidCategory;
      }
      if IndexOfName(g.works, nombre).Some? {
        return AlreadyExists;
      }
      reply := CollectReplies(gid, g, actor.id, cat, nombre, replies);
      if wasValid {
        DefaultGuildValid();
        RegisterKeepsValid(g0, actor, gid, categoria, nombre, replies);
      }
    }

    /** The prompts of `agregarobra` and its final commit, for the guild
        configuration `g` its checks were made on. */
    method CollectReplies(gid: GuildId, g: GuildConfig, user: UserId, cat: string, nombre: string,
                          replies: seq<string>) returns (reply: Reply)
      requires gid in servers && servers[gid] == g
      modifies this
      ensures var r := Collect(g, gid, cat, nombre, replies);
        && servers == old(servers)[gid := r.guild]
        && pending == ApplyPending(old(pending), user, r.pending)
        && reply == r.reply
      ensures saves == old(saves) + SaveIf(reply == Done)
    {
      pending := pending[user := Pending(gid, cat, nombre, None, None, None)];
      if |replies| < 1 {
        return Waiting;
      }
      pending := pending[user := pending[user].(sinopsis := Some(replies[0]))];
      if |replies| < 2 {
        return Waiting;
      }
      pending := pending[user := pending[user].(link := Some(replies[1]))];
      if |replies| < 3 {
        return Waiting;
      }
      var agradecimientos := if Normalize(replies[2]) == "default" then DefaultThanks else replies[2];
      assert agradecimientos == Thanks(replies[2]);
      pending := pending[user := pending[user].(agradecimientos := Some(agradecimientos))];
      assert pending == old(pending)[user := Collected(gid, cat, nombre, replies)];
      reply := AskDonationAndCommit(gid, g, user, cat, nombre, replies);
    }

    /** The last two steps of `agregarobra`: the donation prompt, asked only
        when the guild has no donation message, and the commit of the work
        from the user's pending entry. */
    method AskDonationAndCommit(gid: GuildId, g: GuildConfig, user: UserId, cat: string, nombre: string,
                                replies: seq<string>) returns (reply: Reply)
      requires gid in servers && servers[gid] == g
      requires |replies| >= 3 && user in pending && pending[user] == Collected(gid, cat, nombre, replies)
      modifies this
      ensures var r := Collect(g, gid, cat, nombre, replies);
        && servers == old(servers)[gid := r.guild]
        && pending == ApplyPending(old(pending), user, r.pending)
        && reply == r.reply
      ensures saves == old(saves) + SaveIf(reply == Done)
    {
      var guild := g;
      if guild.donacion.None? {
        if |replies| < 4 {
          return Waiting;
        }
        if Normalize(replies[3]) != "ninguno" {
          guild := guild.(donacion := Some(replies[3]));
          servers := servers[gid := guild];
        }
      }
      assert guild.donacion == if g.donacion.None? then DonationReply(replies[3]) else g.donacion;
      var info := pending[user];
      pending := pending - {user};
      var w := Work(info.categoria, info.sinopsis.value, info.link.value, info.agradecimientos.value, None);
      servers := servers[gid := guild.(works := guild.works + [Entry(nombre, w)])];
      saves := saves + 1;
      return Done;
    }

    /** `setalias`. */
    method SetAlias(gid: GuildId, actor: Actor, name: string, alias: string) returns (reply: Reply)
      modifies this
      ensures var o := AssignAlias(ConfigOf(old(servers), gid), actor, name, alias);
        servers == old(servers)[gid := o.guild] && reply == o.reply
      ensures pending == old(pending)
      ensures saves == old(saves) + Created(old(servers), gid) + SaveIf(reply == Done)
      ensures old(Valid()) ==> Valid()
    {
      var g := GetGuildData(gid);
      var ok := IsAuthorized(g.roles, actor);
      if !ok {
        return NoPermission;
      }
      var i := IndexOfName(g.works, name);
      if i.None? {
        return WorkNotFound;
      }
      var taken := AnyWorkHasAlias(g.works, alias);
      if taken {
        return AliasInUse;
      }
      servers := servers[gid := g.(works := g.works[i.value := WithAlias(g.works[i.value], alias)])];
      saves := saves + 1;
      return Done;
    }

    /** `editalias`. */
    method EditAlias(gid: GuildId, actor: Actor, oldAlias: string, newAlias: string) returns (reply: Reply)
      modifies this
      ensures var o := RenameAlias(ConfigOf(old(servers), gid), actor, oldAlias, newAlias);
        servers == old(servers)[gid := o.guild] && reply == o.reply
      ensures pending == old(pending)
      ensures saves == old(saves) + Created(old(servers), gid) + SaveIf(reply == Done)
      ensures old(Valid()) ==> Valid()
    {
      var g := GetGuildData(gid);
      var ok := IsAuthorized(g.roles, actor);
      if !ok {
        return NoPermission;
      }
      var found := FirstWithAlias(g.works, oldAlias);
      if found.None? || g.works[found.value].name == "" {
        return AliasNotFound;
      }
      var taken := AnyWorkHasAlias(g.works, newAlias);
      if taken {
        return AliasInUse;
      }
      var i := found.value;
      servers := servers[gid := g.(works := g.works[i := WithAlias(g.works[i], newAlias)])];
      saves := saves + 1;
      return Done;
    }

    /** `listalias`. */
    method ListAlias(gid: GuildId) returns (lines: seq<(string, string)>)
      modifies this
      ensures lines == AliasListing(ConfigOf(old(servers), gid).works)
      ensures servers == old(servers)[gid := ConfigOf(old(servers), gid)]
      ensures pending == old(pending)
      ensures saves == old(saves) + Created(old(servers), gid)
      ensures old(Valid()) ==> Valid()
    {
      var g := GetGuildData(gid);
      lines := ListAliases(g.works);
    }

    /** `editarlink`. */
    method EditarLink(gid: GuildId, actor: Actor, key: string, link: string) returns (reply: Reply)
      modifies this
      ensures var o := EditLink(ConfigOf(old(servers), gid), actor, key, link);
        servers == old(servers)[gid := o.guild] && reply == o.reply
      ensures pending == old(pending)
      ensures saves == old(saves) + Created(old(servers), gid) + SaveIf(reply == Done)
      ensures old(Valid()) ==> Valid()
    {
      var g := GetGuildData(gid);
      var ok := IsAuthorized(g.roles, actor);
      if !ok {
        return NoPermission;
      }
      var found := FindWorkByNameOrAlias(g.works, key);
      if found.None? {
        return WorkNotFound;
      }
      var i := found.value;
      servers := servers[gid := g.(works := g.works[i := WithLink(g.works[i], link)])];
      saves := saves + 1;
      return Done;
    }

    /** `actualizacion`, answered by `replies`; `channelExists` says whether
        the configured channel still resolves. The stored configuration is
        never changed. */
    method Actualizacion(gid: GuildId, actor: Actor, categoria: string, key: string, channelExists: bool,
                         replies: seq<Message>) returns (d: Delivery)
      modifies this
      ensures d == Announce(ConfigOf(old(servers), gid), actor, categoria, key, channelExists, replies)
      ensures servers == old(servers)[gid := ConfigOf(old(servers), gid)]
      ensures pending == old(pending)
      ensures saves == old(saves) + Created(old(servers), gid)
      ensures old(Valid()) ==> Valid()
    {
      var g := GetGuildData(gid);
      var ok := IsAuthorized(g.roles, actor);
      if !ok {
        return Aborted(NoPermission);
      }
      var cat := Upper(categoria);
      if cat !in Tags {
        return Aborted(InvalidCategory);
      }
      var channel := if cat in g.channels then g.channels[cat] else None;
      if channel.None? || channel.value == 0 {
        return Aborted(NoChannel);
      }
      if !channelExists {
        return Aborted(ChannelGone);
      }
      var found := FindWorkByNameOrAlias(g.works, key);
      if found.None? {
        return Aborted(WorkNotFound);
      }
      if |replies| < 1 {
        return Aborted(Waiting);
      }
      var msg := replies[0];
      if |msg.attachments| == 0 {
        return Aborted(NoAttachment);
      }
      var capitulo := Strip(msg.content);
      var imagen := msg.attachments[0];
      if |replies| < 2 {
        return Aborted(Waiting);
      }
      var e := g.works[found.value];
      var agradecimientos := e.work.agradecimientos;
      if Normalize(replies[1].content) in Yes {
        if |replies| < 3 {
          return Aborted(Waiting);
        }
        agradecimientos := replies[2].content;
      }
      var donacion := if g.donacion.Some? && g.donacion.value != "" then g.donacion else None;
      d := Sent(Announcement(channel.value, e.name, e.work.sinopsis, capitulo, agradecimientos,
                             e.work.link, donacion, imagen));
    }
  }
}
