/** The per-guild configuration of the bot and the operations on it that do
    not wait for a reply: authorization, the role allow-list, the category
    channels, and the work registry (lookup, aliases, links).

    Every command is a function from the guild's configuration (already
    created by `get_guild_data`) to an `Outcome`: the configuration after the
    command and the reply the bot sends. The class in module Handlers applies
    these to the stored document. */
module Guild {
  import opened Wrappers
  import opened Text

  type RoleId = nat
  type ChannelId = nat
  type UserId = nat
  type GuildId = nat

  /** The four category tags; also the exact key set of `channels`. */
  const Tags: set<string> := {"BL", "GL", "+15", "+18"}

  /** `categoria.upper()` followed by the membership test on the tags. */
  function ParseCategory(s: string): (r: Option<string>)
    ensures r.Some? <==> Upper(s) in Tags
    ensures r.Some? ==> r.value == Upper(s) && r.value in Tags
  {
    var u := Upper(s);
    if u in Tags then Some(u) else None
  }

  /** A category already parsed parses to itself. */
  lemma ParseCategoryIdempotent(s: string)
    requires ParseCategory(s).Some?
    ensures ParseCategory(ParseCategory(s).value) == ParseCategory(s)
  {
    UpperIdempotent(s);
  }

  datatype Work = Work(
    categoria: string,
    sinopsis: string,
    link: string,
    agradecimientos: string,
    alias: Option<string>)

  /** One item of the `works` dictionary, which keeps insertion order. */
  datatype Entry = Entry(name: string, work: Work)

  type Works = seq<Entry>

  datatype GuildConfig = GuildConfig(
    roles: seq<RoleId>,
    channels: map<string, Option<ChannelId>>,
    donacion: Option<string>,
    works: Works)

  /** The user running a command: their id, their role ids and whether the
      platform grants them administrator permission. */
  datatype Actor = Actor(id: UserId, roles: seq<RoleId>, admin: bool)

  /** The replies the bot sends; `Waiting` stands for a prompt that is never
      answered, which leaves the handler suspended. */
  datatype Reply =
    | Done
    | NoPermission
    | InvalidCategory
    | AlreadyExists
    | RoleAlreadyAllowed
    | RoleNotAllowed
    | WorkNotFound
    | AliasNotFound
    | AliasInUse
    | NoChannel
    | ChannelGone
    | NoAttachment
    | Waiting

  datatype Outcome = Outcome(guild: GuildConfig, reply: Reply)

  /** The configuration `get_guild_data` creates for a guild it has not seen. */
  const DefaultGuild: GuildConfig :=
    GuildConfig([], map["BL" := None, "GL" := None, "+15" := None, "+18" := None], None, [])

  predicate NoDup<T(==)>(s: seq<T>) {
    forall i, j | 0 <= i < j < |s| :: s[i] != s[j]
  }

  predicate HasName(ws: Works, name: string) {
    exists i | 0 <= i < |ws| :: ws[i].name == name
  }

  predicate AliasUsed(ws: Works, a: string) {
    exists i | 0 <= i < |ws| :: ws[i].work.alias == Some(a)
  }

  predicate NamesUnique(ws: Works) {
    forall i, j | 0 <= i < j < |ws| :: ws[i].name != ws[j].name
  }

  /** No two works carry the same non-null alias. */
  predicate AliasesUnique(ws: Works) {
    forall i, j | 0 <= i < j < |ws| && ws[i].work.alias.Some? :: ws[i].work.alias != ws[j].work.alias
  }

  /** What every command keeps true of a guild's configuration. */
  predicate GuildValid(g: GuildConfig) {
    && NoDup(g.roles)
    && g.channels.Keys == Tags
    && NamesUnique(g.works)
    && AliasesUnique(g.works)
    && forall i | 0 <= i < |g.works| :: g.works[i].work.categoria in Tags
  }

  lemma DefaultGuildValid()
    ensures GuildValid(DefaultGuild)
    ensures DefaultGuild.channels.Keys == Tags
    ensures forall t | t in Tags :: DefaultGuild.channels[t] == None
  {
  }

  // ---------------------------------------------------------------- lookup

  /** Dictionary access `works[name]`: the position of the work with that name. */
  function IndexOfName(ws: Works, name: string): (r: Option<nat>)
    ensures r.Some? <==> HasName(ws, name)
    ensures r.Some? ==> r.value < |ws| && ws[r.value].name == name
    ensures r.Some? ==> forall j | 0 <= j < r.value :: ws[j].name != name
  {
    if ws == [] then None
    else if ws[0].name == name then Some(0)
    else match IndexOfName(ws[1..], name) {
      case None => None
      case Some(k) => Some(k + 1)
    }
  }

  /** The first work, in insertion order, whose alias equals `a`. */
  function IndexOfAlias(ws: Works, a: string): (r: Option<nat>)
    ensures r.Some? <==> AliasUsed(ws, a)
    ensures r.Some? ==> r.value < |ws| && ws[r.value].work.alias == Some(a)
    ensures r.Some? ==> forall j | 0 <= j < r.value :: ws[j].work.alias != Some(a)
  {
    if ws == [] then None
    else if ws[0].work.alias == Some(a) then Some(0)
    else match IndexOfAlias(ws[1..], a) {
      case None => None
      case Some(k) => Some(k + 1)
    }
  }

  /** `find_work_by_name_or_alias`: an exact name wins; otherwise the first
      work carrying the key as alias; otherwise not found. */
  function Find(ws: Works, key: string): (r: Option<nat>)
    ensures r.Some? ==> r.value < |ws|
    ensures HasName(ws, key) ==> r.Some? && ws[r.value].name == key
    ensures HasName(ws, key) ==> forall j | 0 <= j < r.value :: ws[j].name != key
    ensures !HasName(ws, key) ==> (r.Some? <==> AliasUsed(ws, key))
    ensures !HasName(ws, key) && r.Some? ==>
      ws[r.value].work.alias == Some(key) &&
      forall j | 0 <= j < r.value :: ws[j].work.alias != Some(key)
    ensures r.None? <==> !HasName(ws, key) && !AliasUsed(ws, key)
  {
    var byName := IndexOfName(ws, key);
    if byName.Some? then byName else IndexOfAlias(ws, key)
  }

  /** In a valid registry, a work is found both by its name and by its alias,
      provided no other work is named like that alias (a name always wins). */
  lemma FindByNameOrAliasAgree(ws: Works, i: nat)
    requires NamesUnique(ws) && AliasesUnique(ws)
    requires i < |ws| && ws[i].work.alias.Some?
    requires !HasName(ws, ws[i].work.alias.value)
    ensures Find(ws, ws[i].name) == Some(i)
    ensures Find(ws, ws[i].work.alias.value) == Some(i)
  {
    assert HasName(ws, ws[i].name);
    assert AliasUsed(ws, ws[i].work.alias.value);
  }

  /** A name shadows an alias: here "Saga" is the alias of the first work,
      yet the lookup returns the second work, which is named "Saga". */
  lemma AliasShadowedByName()
    ensures var ws := [Entry("Dragon", Work("BL", "", "", "", Some("Saga"))),
                       Entry("Saga", Work("GL", "", "", "", None))];
      NamesUnique(ws) && AliasesUnique(ws) && Find(ws, "Saga") == Some(1)
  {
  }

  // --------------------------------------------------------- authorization

  /** The policy `is_authorized` implements: the actor is an administrator,
      or holds one of the allowed roles. */
  predicate Authorized(roles: seq<RoleId>, actor: Actor)
    ensures actor.admin ==> Authorized(roles, actor)
    ensures roles == [] ==> (Authorized(roles, actor) <==> actor.admin)
    ensures !actor.admin ==> (Authorized(roles, actor) <==> exists i | 0 <= i < |actor.roles| :: actor.roles[i] in roles)
  {
    actor.admin || exists r | r in actor.roles :: r in roles
  }

  /** With no allowed roles configured only administrators pass. */
  lemma AuthorizedWithoutRoles(actor: Actor)
    ensures Authorized([], actor) <==> actor.admin
  {
  }

  // ----------------------------------------------------------------- roles

  /** `list.remove` on a list that holds `x` (the only way `delrol` calls
      it, after its membership test; Python raises `ValueError` otherwise):
      drop the first occurrence, leaving a list one element shorter. */
  function RemoveFirst<T(==)>(s: seq<T>, x: T): (r: seq<T>)
    requires x in s
    ensures |r| == |s| - 1
  {
    if s[0] == x then s[1..]
    else
      assert x in s[1..];
      [s[0]] + RemoveFirst(s[1..], x)
  }

  /** The position of the first occurrence of `x`. */
  function FirstIndexOf<T(==)>(s: seq<T>, x: T): (k: nat)
    requires x in s
    ensures k < |s| && s[k] == x && x !in s[..k]
  {
    if s[0] == x then 0
    else
      assert x in s[1..];
      var k := FirstIndexOf(s[1..], x);
      assert s[..k + 1] == [s[0]] + s[1..][..k];
      k + 1
  }

  lemma {:induction false} RemoveFirstSplit<T>(s: seq<T>, x: T, k: nat)
    requires k < |s| && s[k] == x && x !in s[..k]
    ensures RemoveFirst(s, x) == s[..k] + s[k + 1..]
  {
    if k > 0 {
      var r := s[1..];
      assert s[0] == s[..k][0];
      assert r[..k - 1] == s[1..k];
      RemoveFirstSplit(r, x, k - 1);
      assert RemoveFirst(s, x) == [s[0]] + RemoveFirst(r, x);
      assert r[k..] == s[k + 1..];
      assert s[..k] == [s[0]] + s[1..k];
    }
  }

  lemma {:induction false} RemoveFirstMultiset<T>(s: seq<T>, x: T)
    requires x in s
    ensures multiset(RemoveFirst(s, x)) == multiset(s) - multiset{x}
  {
    assert s == [s[0]] + s[1..];
    if s[0] != x {
      RemoveFirstMultiset(s[1..], x);
    }
  }

  lemma NoDupTail<T>(s: seq<T>)
    requires s != [] && NoDup(s)
    ensures NoDup(s[1..]) && s[0] !in s[1..]
  {
    forall i, j | 0 <= i < j < |s[1..]| ensures s[1..][i] != s[1..][j] {
      assert s[i + 1] != s[j + 1];
    }
    forall i | 0 <= i < |s[1..]| ensures s[1..][i] != s[0] {
      assert s[0] != s[i + 1];
    }
  }

  lemma NoDupCons<T>(y: T, r: seq<T>)
    requires NoDup(r) && y !in r
    ensures NoDup([y] + r)
  {
    forall i, j | 0 <= i < j < |[y] + r| ensures ([y] + r)[i] != ([y] + r)[j] {
      if i == 0 {
        assert ([y] + r)[j] == r[j - 1];
      }
    }
  }

  /** Removing the first occurrence from a list without duplicates leaves a
      list without duplicates that no longer contains the element. */
  lemma {:induction false} RemoveFirstNoDup<T>(s: seq<T>, x: T)
    requires NoDup(s) && x in s
    ensures NoDup(RemoveFirst(s, x)) && x !in RemoveFirst(s, x)
    ensures forall y | y in RemoveFirst(s, x) :: y in s
  {
    NoDupTail(s);
    if s[0] != x {
      assert x in s[1..];
      RemoveFirstNoDup(s[1..], x);
      NoDupCons(s[0], RemoveFirst(s[1..], x));
    }
  }

  /** `addrol`: append the role only when it is not yet allowed. */
  function AddRole(g: GuildConfig, role: RoleId): (o: Outcome)
    ensures o.reply == Done || o.reply == RoleAlreadyAllowed
    ensures o.reply == Done <==> role !in g.roles
    ensures o.reply == Done ==> o.guild == g.(roles := g.roles + [role])
    ensures o.reply != Done ==> o.guild == g
    ensures role in o.guild.roles
    ensures NoDup(g.roles) ==> NoDup(o.guild.roles)
  {
    if role !in g.roles then Outcome(g.(roles := g.roles + [role]), Done)
    else Outcome(g, RoleAlreadyAllowed)
  }

  /** `delrol`: remove the role only when it is allowed. */
  function RemoveRole(g: GuildConfig, role: RoleId): (o: Outcome)
    ensures o.reply == Done || o.reply == RoleNotAllowed
    ensures o.reply == Done <==> role in g.roles
    ensures o.guild == g.(roles := o.guild.roles)
    ensures o.reply != Done ==> o.guild == g
    ensures NoDup(g.roles) ==> NoDup(o.guild.roles) && role !in o.guild.roles
  {
    if role !in g.roles then Outcome(g, RoleNotAllowed)
    else
      assert NoDup(g.roles) ==> NoDup(RemoveFirst(g.roles, role)) && role !in RemoveFirst(g.roles, role) by {
        if NoDup(g.roles) { RemoveFirstNoDup(g.roles, role); }
      }
      Outcome(g.(roles := RemoveFirst(g.roles, role)), Done)
  }

  /** Removing an allowed role deletes its first occurrence and keeps the
      order of the others. */
  lemma RemoveRoleDeletesFirst(g: GuildConfig, role: RoleId)
    requires role in g.roles
    ensures var k := FirstIndexOf(g.roles, role);
      RemoveRole(g, role).guild.roles == g.roles[..k] + g.roles[k + 1..]
  {
    RemoveFirstSplit(g.roles, role, FirstIndexOf(g.roles, role));
  }

  /** Removing an allowed role takes exactly one copy of it out of the list. */
  lemma RemoveRoleDeletesOneCopy(g: GuildConfig, role: RoleId)
    requires role in g.roles
    ensures multiset(RemoveRole(g, role).guild.roles) == multiset(g.roles) - multiset{role}
  {
    RemoveFirstMultiset(g.roles, role);
  }

  // -------------------------------------------------------------- channels

  /** `setcanal`: point one category at the channel the command was sent in. */
  function SetChannel(g: GuildConfig, actor: Actor, categoria: string, channel: ChannelId): (o: Outcome)
    ensures !Authorized(g.roles, actor) ==> o == Outcome(g, NoPermission)
    ensures Authorized(g.roles, actor) && Upper(categoria) !in Tags ==> o == Outcome(g, InvalidCategory)
    ensures o.reply == Done <==> Authorized(g.roles, actor) && Upper(categoria) in Tags
    ensures o.reply != Done ==> o.guild == g
    ensures o.guild == g.(channels := o.guild.channels)
    ensures o.reply == Done ==>
      && o.guild.channels.Keys == g.channels.Keys + {Upper(categoria)}
      && o.guild.channels[Upper(categoria)] == Some(channel)
      && forall t | t in g.channels && t != Upper(categoria) :: o.guild.channels[t] == g.channels[t]
    ensures g.channels.Keys == Tags ==> o.guild.channels.Keys == Tags
  {
    if !Authorized(g.roles, actor) then Outcome(g, NoPermission)
    else match ParseCategory(categoria) {
      case None => Outcome(g, InvalidCategory)
      case Some(cat) => Outcome(g.(channels := g.channels[cat := Some(channel)]), Done)
    }
  }

  /** `setdonacion`: the next reply becomes the donation message. */
  function SetDonation(g: GuildConfig, actor: Actor, replies: seq<string>): (o: Outcome)
    ensures !Authorized(g.roles, actor) ==> o == Outcome(g, NoPermission)
    ensures Authorized(g.roles, actor) && replies == [] ==> o == Outcome(g, Waiting)
    ensures o.reply == Done <==> Authorized(g.roles, actor) && replies != []
    ensures o.reply != Done ==> o.guild == g
    ensures o.reply == Done ==> o.guild == g.(donacion := Some(replies[0]))
  {
    if !Authorized(g.roles, actor) then Outcome(g, NoPermission)
    else if replies == [] then Outcome(g, Waiting)
    else Outcome(g.(donacion := Some(replies[0])), Done)
  }

  // ----------------------------------------------------- aliases and links

  function WithAlias(e: Entry, a: string): Entry {
    e.(work := e.work.(alias := Some(a)))
  }

  function WithLink(e: Entry, link: string): Entry {
    e.(work := e.work.(link := link))
  }

  /** `ws'` is `ws` with the entry at `i` replaced by `e` and nothing else. */
  predicate OnlyEntryChanged(ws: Works, ws': Works, i: nat, e: Entry) {
    && |ws'| == |ws|
    && i < |ws|
    && ws'[i] == e
    && forall j | 0 <= j < |ws| && j != i :: ws'[j] == ws[j]
  }

  /** Giving entry `i` an alias no work carries keeps names and aliases unique. */
  lemma FreshAliasKeepsUnique(ws: Works, i: nat, a: string)
    requires i < |ws| && !AliasUsed(ws, a)
    requires NamesUnique(ws) && AliasesUnique(ws)
    ensures NamesUnique(ws[i := WithAlias(ws[i], a)])
    ensures AliasesUnique(ws[i := WithAlias(ws[i], a)])
  {
    var ws' := ws[i := WithAlias(ws[i], a)];
    forall j, k | 0 <= j < k < |ws'| && ws'[j].work.alias.Some?
      ensures ws'[j].work.alias != ws'[k].work.alias
    {
      if j == i {
        assert ws[k].work.alias != Some(a);
      } else if k == i {
        assert ws[j].work.alias != Some(a);
      } else {
        assert ws'[j] == ws[j] && ws'[k] == ws[k];
      }
    }
  }

  /** `setalias`: give the work named `name` the alias, unless some work
      (the same one included) already carries it. */
  function AssignAlias(g: GuildConfig, actor: Actor, name: string, alias: string): (o: Outcome)
    ensures !Authorized(g.roles, actor) ==> o == Outcome(g, NoPermission)
    ensures Authorized(g.roles, actor) && !HasName(g.works, name) ==> o == Outcome(g, WorkNotFound)
    ensures Authorized(g.roles, actor) && HasName(g.works, name) && AliasUsed(g.works, alias) ==>
      o == Outcome(g, AliasInUse)
    ensures o.reply == Done <==>
      Authorized(g.roles, actor) && HasName(g.works, name) && !AliasUsed(g.works, alias)
    ensures o.reply != Done ==> o.guild == g
    ensures o.guild == g.(works := o.guild.works)
    ensures o.reply == Done ==>
      var i := IndexOfName(g.works, name).value;
      OnlyEntryChanged(g.works, o.guild.works, i, WithAlias(g.works[i], alias))
    ensures GuildValid(g) ==> GuildValid(o.guild)
  {
    if !Authorized(g.roles, actor) then Outcome(g, NoPermission)
    else match IndexOfName(g.works, name) {
      case None => Outcome(g, WorkNotFound)
      case Some(i) =>
        if AliasUsed(g.works, alias) then Outcome(g, AliasInUse)
        else
          var ws' := g.works[i := WithAlias(g.works[i], alias)];
          assert GuildValid(g) ==> GuildValid(g.(works := ws')) by {
            if GuildValid(g) { FreshAliasKeepsUnique(g.works, i, alias); }
          }
          Outcome(g.(works := ws'), Done)
    }
  }

  /** Re-setting a work's own current alias is rejected. */
  lemma ReassignOwnAliasFails(g: GuildConfig, actor: Actor, i: nat)
    requires i < |g.works| && g.works[i].work.alias.Some?
    ensures AssignAlias(g, actor, g.works[i].name, g.works[i].work.alias.value).reply != Done
  {
    assert AliasUsed(g.works, g.works[i].work.alias.value);
  }

  /** Once `setalias name x` succeeded, `setalias other x` fails for every
      work and every actor. */
  lemma AliasTakenAfterAssign(g: GuildConfig, actor: Actor, name: string, x: string, actor': Actor, other: string)
    requires AssignAlias(g, actor, name, x).reply == Done
    ensures AssignAlias(AssignAlias(g, actor, name, x).guild, actor', other, x).reply != Done
  {
    var g' := AssignAlias(g, actor, name, x).guild;
    var i := IndexOfName(g.works, name).value;
    assert g'.works[i].work.alias == Some(x);
    assert AliasUsed(g'.works, x);
  }

  /** The work `editalias` renames: the first one carrying the old alias,
      unless its name is empty (Python treats "" as "not found"). */
  function AliasOwner(ws: Works, a: string): (r: Option<nat>)
    ensures r.Some? ==> r == IndexOfAlias(ws, a) && ws[r.value].name != ""
    ensures r.None? ==> !AliasUsed(ws, a) || ws[IndexOfAlias(ws, a).value].name == ""
  {
    match IndexOfAlias(ws, a) {
      case None => None
      case Some(i) => if ws[i].name == "" then None else Some(i)
    }
  }

  /** `editalias`: move the alias `oldAlias` to `newAlias`, unless some work
      (the renamed one included) already carries `newAlias`. */
  function RenameAlias(g: GuildConfig, actor: Actor, oldAlias: string, newAlias: string): (o: Outcome)
    ensures !Authorized(g.roles, actor) ==> o == Outcome(g, NoPermission)
    ensures Authorized(g.roles, actor) && AliasOwner(g.works, oldAlias).None? ==> o == Outcome(g, AliasNotFound)
    ensures Authorized(g.roles, actor) && AliasOwner(g.works, oldAlias).Some? && AliasUsed(g.works, newAlias) ==>
      o == Outcome(g, AliasInUse)
    ensures o.reply == Done <==>
      Authorized(g.roles, actor) && AliasOwner(g.works, oldAlias).Some? && !AliasUsed(g.works, newAlias)
    ensures o.reply != Done ==> o.guild == g
    ensures o.guild == g.(works := o.guild.works)
    ensures o.reply == Done ==>
      var i := IndexOfAlias(g.works, oldAlias).value;
      OnlyEntryChanged(g.works, o.guild.works, i, WithAlias(g.works[i], newAlias))
    ensures GuildValid(g) ==> GuildValid(o.guild)
  {
    if !Authorized(g.roles, actor) then Outcome(g, NoPermission)
    else match AliasOwner(g.works, oldAlias) {
      case None => Outcome(g, AliasNotFound)
      case Some(i) =>
        if AliasUsed(g.works, newAlias) then Outcome(g, AliasInUse)
        else
          var ws' := g.works[i := WithAlias(g.works[i], newAlias)];
          assert GuildValid(g) ==> GuildValid(g.(works := ws')) by {
            if GuildValid(g) { FreshAliasKeepsUnique(g.works, i, newAlias); }
          }
          Outcome(g.(works := ws'), Done)
    }
  }

  /** `editalias x x` never succeeds. */
  lemma RenameAliasToItselfFails(g: GuildConfig, actor: Actor, a: string)
    ensures RenameAlias(g, actor, a, a).reply != Done
  {
  }

  /** `editarlink`: replace the link of the work found by name or alias. */
  function EditLink(g: GuildConfig, actor: Actor, key: string, link: string): (o: Outcome)
    ensures !Authorized(g.roles, actor) ==> o == Outcome(g, NoPermission)
    ensures Authorized(g.roles, actor) && !HasName(g.works, key) && !AliasUsed(g.works, key) ==>
      o == Outcome(g, WorkNotFound)
    ensures o.reply == Done <==>
      Authorized(g.roles, actor) && (HasName(g.works, key) || AliasUsed(g.works, key))
    ensures o.reply != Done ==> o.guild == g
    ensures o.guild == g.(works := o.guild.works)
    ensures o.reply == Done ==>
      var i := Find(g.works, key).value;
      OnlyEntryChanged(g.works, o.guild.works, i, WithLink(g.works[i], link))
    ensures GuildValid(g) ==> GuildValid(o.guild)
  {
    if !Authorized(g.roles, actor) then Outcome(g, NoPermission)
    else match Find(g.works, key) {
      case None => Outcome(g, WorkNotFound)
      case Some(i) =>
        var ws' := g.works[i := WithLink(g.works[i], link)];
        assert GuildValid(g) ==> GuildValid(g.(works := ws')) by {
          if GuildValid(g) {
            assert forall j | 0 <= j < |ws'| :: ws'[j].name == g.works[j].name && ws'[j].work.alias == g.works[j].work.alias;
          }
        }
        Outcome(g.(works := ws'), Done)
    }
  }

  // --------------------------------------------------------------- listing

  /** `listalias`: (name, alias) for each work, in insertion order, whose
      alias is set and non-empty. */
  function AliasListing(ws: Works): (r: seq<(string, string)>)
    ensures |r| <= |ws|
    ensures forall k | 0 <= k < |r| :: r[k].1 != ""
  {
    if ws == [] then []
    else
      var rest := AliasListing(ws[1..]);
      match ws[0].work.alias {
        case Some(a) => if a != "" then [(ws[0].name, a)] + rest else rest
        case None => rest
      }
  }

  lemma {:induction false} AliasListingMembers(ws: Works, n: string, a: string)
    ensures (n, a) in AliasListing(ws) <==>
      a != "" && exists i | 0 <= i < |ws| :: ws[i].name == n && ws[i].work.alias == Some(a)
  {
    if ws != [] {
      AliasListingMembers(ws[1..], n, a);
      if (exists i | 0 <= i < |ws| :: ws[i].name == n && ws[i].work.alias == Some(a)) {
        var i :| 0 <= i < |ws| && ws[i].name == n && ws[i].work.alias == Some(a);
        if i > 0 {
          assert ws[1..][i - 1] == ws[i];
        }
      }
      if (exists i | 0 <= i < |ws[1..]| :: ws[1..][i].name == n && ws[1..][i].work.alias == Some(a)) {
        var i :| 0 <= i < |ws[1..]| && ws[1..][i].name == n && ws[1..][i].work.alias == Some(a);
        assert ws[i + 1] == ws[1..][i];
      }
    }
  }

  /** The listing has one line per work with a non-empty alias, and never more lines than works. */
  lemma {:induction false} AliasListingLength(ws: Works)
    ensures |AliasListing(ws)| <= |ws|
    ensures |AliasListing(ws)| == 0 <==> forall i | 0 <= i < |ws| :: ws[i].work.alias.None? || ws[i].work.alias == Some("")
  {
    if ws != [] {
      AliasListingLength(ws[1..]);
      assert forall i | 1 <= i < |ws| :: ws[i] == ws[1..][i - 1];
    }
  }
}
