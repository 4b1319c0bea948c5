/** The two interactive commands. Each prompt's answer is taken from a
    sequence of replies instead of waiting for the next message from the same
    user in the same channel; when the sequence runs out, the prompt is never
    answered and the handler stays suspended (reply `Waiting`). */
module Flows {
  import opened Wrappers
  import opened Text
  import opened Guild

  /** The canned acknowledgements used for the reply `default`. */
  const DefaultThanks: string := "Gracias al staff por el excelente trabajo realizado."

  /** Acknowledgements chosen by a reply to the registration prompt. */
  function Thanks(reply: string): (t: string)
    ensures Normalize(reply) == "default" ==> t == DefaultThanks
    ensures Normalize(reply) != "default" ==> t == reply
  {
    if Normalize(reply) == "default" then DefaultThanks else reply
  }

  /** The donation message set by a reply to the donation prompt. */
  function DonationReply(reply: string): (d: Option<string>)
    ensures d.None? <==> Normalize(reply) == "ninguno"
    ensures d.Some? ==> d.value == reply
  {
    if Normalize(reply) != "ninguno" then Some(reply) else None
  }

  /** A user's registration in progress, keyed by user id. */
  datatype Pending = Pending(
    guildId: GuildId,
    categoria: string,
    nombre: string,
    sinopsis: Option<string>,
    link: Option<string>,
    agradecimientos: Option<string>)

  /** What a run of the flow does to the user's pending entry: leaves it
      alone, leaves it at the given state, or removes it. */
  datatype PendingEffect = Keep | Put(entry: Pending) | Drop

  datatype Registration = Registration(guild: GuildConfig, pending: PendingEffect, reply: Reply)

  /** The checks `agregarobra` makes before it opens a pending entry. */
  predicate RegistrationStarts(g: GuildConfig, actor: Actor, categoria: string, nombre: string) {
    Authorized(g.roles, actor) && Upper(categoria) in Tags && !HasName(g.works, nombre)
  }

  /** Synopsis, link and acknowledgements, plus the donation message when
      the guild has none yet. */
  function PromptsFor(g: GuildConfig): nat {
    if g.donacion.None? then 4 else 3
  }

  /** The pending entry after the first `n` replies have been collected. */
  function Collected(gid: GuildId, cat: string, nombre: string, replies: seq<string>): Pending {
    Pending(gid, cat, nombre,
      if |replies| > 0 then Some(replies[0]) else None,
      if |replies| > 1 then Some(replies[1]) else None,
      if |replies| > 2 then Some(Thanks(replies[2])) else None)
  }

  /** `agregarobra`: validate, then collect synopsis, link, acknowledgements
      and (only when the guild has none) the donation message, then commit. */
  function Register(g: GuildConfig, actor: Actor, gid: GuildId, categoria: string, nombre: string,
                    replies: seq<string>): (r: Registration)
    ensures !Authorized(g.roles, actor) ==> r == Registration(g, Keep, NoPermission)
    ensures Authorized(g.roles, actor) && Upper(categoria) !in Tags ==>
      r == Registration(g, Keep, InvalidCategory)
    ensures Authorized(g.roles, actor) && Upper(categoria) in Tags && HasName(g.works, nombre) ==>
      r == Registration(g, Keep, AlreadyExists)
    ensures r.pending.Keep? <==> !RegistrationStarts(g, actor, categoria, nombre)
    ensures r.reply != Done ==> r.guild == g
    ensures r.reply == Waiting <==> RegistrationStarts(g, actor, categoria, nombre) && |replies| < PromptsFor(g)
    ensures r.reply == Waiting ==> r.pending == Put(Collected(gid, Upper(categoria), nombre, replies))
    ensures r.reply == Done <==> RegistrationStarts(g, actor, categoria, nombre) && |replies| >= PromptsFor(g)
    ensures r.reply == Done ==>
      && r.pending == Drop
      && r.guild.roles == g.roles
      && r.guild.channels == g.channels
      && r.guild.works == g.works + [Entry(nombre, Work(Upper(categoria), replies[0], replies[1], Thanks(replies[2]), None))]
      && r.guild.donacion == (if g.donacion.Some? then g.donacion else DonationReply(replies[3]))
  {
    if !Authorized(g.roles, actor) then Registration(g, Keep, NoPermission)
    else match ParseCategory(categoria) {
      case None => Registration(g, Keep, InvalidCategory)
      case Some(cat) =>
        if IndexOfName(g.works, nombre).Some? then Registration(g, Keep, AlreadyExists)
        else Collect(g, gid, cat, nombre, replies)
    }
  }

  /** What `agregarobra` does once its checks pass: collect the prompts'
      answers in order, then commit the work. */
  function Collect(g: GuildConfig, gid: GuildId, cat: string, nombre: string, replies: seq<string>): (r: Registration)
    ensures r.reply == Done || r.reply == Waiting
    ensures r.reply == Waiting <==> |replies| < PromptsFor(g)
    ensures r.reply == Waiting ==> r.guild == g && r.pending == Put(Collected(gid, cat, nombre, replies))
    ensures r.reply == Done ==>
      && r.pending == Drop
      && r.guild == g.(donacion := r.guild.donacion, works := g.works + [Entry(nombre, Work(cat, replies[0], replies[1], Thanks(replies[2]), None))])
      && (g.donacion.Some? ==> r.guild.donacion == g.donacion)
  {
    if |replies| < PromptsFor(g) then
      Registration(g, Put(Collected(gid, cat, nombre, replies)), Waiting)
    else
      var donacion := if g.donacion.None? then DonationReply(replies[3]) else g.donacion;
      var w := Work(cat, replies[0], replies[1], Thanks(replies[2]), None);
      Registration(g.(donacion := donacion, works := g.works + [Entry(nombre, w)]), Drop, Done)
  }

  /** Registration keeps the guild valid: the new name is fresh, its alias is
      null and its category is one of the tags. */
  lemma RegisterKeepsValid(g: GuildConfig, actor: Actor, gid: GuildId, categoria: string, nombre: string,
                           replies: seq<string>)
    requires GuildValid(g)
    ensures GuildValid(Register(g, actor, gid, categoria, nombre, replies).guild)
  {
    var r := Register(g, actor, gid, categoria, nombre, replies);
    if r.reply == Done {
      var ws := r.guild.works;
      assert |ws| == |g.works| + 1;
      forall i, j | 0 <= i < j < |ws| ensures ws[i].name != ws[j].name {
        if j == |g.works| {
          assert ws[i] == g.works[i];
        }
      }
    }
  }

  /** A donation message already set is never asked for nor replaced. */
  lemma DonationPromptSkipped(g: GuildConfig, actor: Actor, gid: GuildId, categoria: string, nombre: string,
                              replies: seq<string>)
    requires g.donacion.Some?
    ensures Register(g, actor, gid, categoria, nombre, replies).guild.donacion == g.donacion
    ensures |replies| == 3 && RegistrationStarts(g, actor, categoria, nombre) ==>
      Register(g, actor, gid, categoria, nombre, replies).reply == Done
  {
  }

  /** `default` is recognised in any case and with surrounding whitespace. */
  lemma DefaultReplyCapitalised()
    ensures Thanks("Default\n") == DefaultThanks
  {
    assert Lower("Default\n") == "default\n";
    assert TrimRight("default\n") == "default";
  }

  /** The information separator U+001C counts as whitespace for `strip()`. */
  lemma DefaultReplySeparator()
    ensures Thanks("default\U{1C}") == DefaultThanks
  {
    assert Lower("default\U{1C}") == "default\U{1C}";
    assert TrimRight("default\U{1C}") == "default";
  }

  /** `ninguno` after the unit separator U+001F still declines the donation prompt. */
  lemma NingunoReplySeparator()
    ensures DonationReply("\U{1F}ninguno").None?
  {
    assert Lower("\U{1F}ninguno") == "\U{1F}ninguno";
    assert TrimLeft("\U{1F}ninguno") == "ninguno";
  }

  lemma DefaultReplyIndented()
    ensures Thanks(" default") == DefaultThanks
  {
    assert Lower(" default") == " default";
    assert TrimLeft(" default") == "default";
  }

  /** The worked example: registering "Dragon Saga" in category `bl` with the
      replies synopsis, link and `DEFAULT` in a guild that already has a
      donation message. */
  lemma DragonSagaExample(roles: seq<RoleId>)
    ensures var g := GuildConfig(roles, DefaultGuild.channels, Some("Apóyanos"), []);
      var r := Register(g, Actor(7, [], true), 1, "bl", "Dragon Saga",
                        ["A hero's journey", "http://example.com/dragon", "DEFAULT"]);
      && r.reply == Done
      && r.pending == Drop
      && r.guild == g.(works := [Entry("Dragon Saga",
                         Work("BL", "A hero's journey", "http://example.com/dragon", DefaultThanks, None))])
  {
    var g := GuildConfig(roles, DefaultGuild.channels, Some("Apóyanos"), []);
    assert Upper("bl") == "BL";
    assert Normalize("DEFAULT") == "default";
    assert RegistrationStarts(g, Actor(7, [], true), "bl", "Dragon Saga");
  }

  // ---------------------------------------------------------- announcement

  datatype Message = Message(content: string, attachments: seq<string>)

  /** The content of the embed sent to the category's channel. */
  datatype Announcement = Announcement(
    channel: ChannelId,
    work: string,
    sinopsis: string,
    chapter: string,
    thanks: string,
    link: string,
    donation: Option<string>,
    image: string)

  datatype Delivery = Sent(announcement: Announcement) | Aborted(reply: Reply)

  /** `gd["channels"].get(categoria)` as the truth test sees it: a missing
      slot, None and 0 all mean "no channel". */
  function ConfiguredChannel(g: GuildConfig, cat: string): (c: Option<ChannelId>)
    ensures c.Some? <==> cat in g.channels && g.channels[cat].Some? && g.channels[cat].value != 0
    ensures c.Some? ==> c == g.channels[cat]
  {
    if cat in g.channels && g.channels[cat].Some? && g.channels[cat].value != 0 then g.channels[cat] else None
  }

  /** The replies that ask to change the acknowledgements. */
  const Yes: set<string> := {"sí", "si", "yes"}

  /** All checks `actualizacion` makes before its first prompt pass. */
  predicate AnnouncementReady(g: GuildConfig, actor: Actor, categoria: string, key: string, channelExists: bool) {
    && Authorized(g.roles, actor)
    && Upper(categoria) in Tags
    && ConfiguredChannel(g, Upper(categoria)).Some?
    && channelExists
    && Find(g.works, key).Some?
  }

  /** `actualizacion`: validate in a fixed order, ask for the chapter message
      (which must carry an image) and whether to change the acknowledgements,
      then build the announcement. `channelExists` says whether the configured
      channel still resolves. */
  function Announce(g: GuildConfig, actor: Actor, categoria: string, key: string, channelExists: bool,
                    replies: seq<Message>): (d: Delivery)
    ensures !Authorized(g.roles, actor) ==> d == Aborted(NoPermission)
    ensures (Authorized(g.roles, actor) && Upper(categoria) !in Tags) ==> d == Aborted(InvalidCategory)
    ensures (Authorized(g.roles, actor) && Upper(categoria) in Tags
             && ConfiguredChannel(g, Upper(categoria)).None?) ==> d == Aborted(NoChannel)
    ensures (Authorized(g.roles, actor) && Upper(categoria) in Tags
             && ConfiguredChannel(g, Upper(categoria)).Some? && !channelExists) ==> d == Aborted(ChannelGone)
    ensures (Authorized(g.roles, actor) && Upper(categoria) in Tags
             && ConfiguredChannel(g, Upper(categoria)).Some? && channelExists
             && Find(g.works, key).None?) ==> d == Aborted(WorkNotFound)
    ensures AnnouncementReady(g, actor, categoria, key, channelExists) && replies == [] ==> d == Aborted(Waiting)
    ensures (AnnouncementReady(g, actor, categoria, key, channelExists) && replies != []
             && replies[0].attachments == []) ==> d == Aborted(NoAttachment)
    ensures d.Sent? <==>
      && AnnouncementReady(g, actor, categoria, key, channelExists)
      && |replies| >= 2 && replies[0].attachments != []
      && (Normalize(replies[1].content) in Yes ==> |replies| >= 3)
    ensures d.Sent? ==>
      var e := g.works[Find(g.works, key).value];
      var a := d.announcement;
      && a.channel == ConfiguredChannel(g, Upper(categoria)).value
      && a.work == e.name
      && a.sinopsis == e.work.sinopsis
      && a.link == e.work.link
      && a.chapter == Strip(replies[0].content)
      && a.image == replies[0].attachments[0]
      && a.thanks == (if Normalize(replies[1].content) in Yes then replies[2].content else e.work.agradecimientos)
      && a.donation == (if g.donacion.Some? && g.donacion.value != "" then g.donacion else None)
  {
    if !Authorized(g.roles, actor) then Aborted(NoPermission)
    else match ParseCategory(categoria) {
      case None => Aborted(InvalidCategory)
      case Some(cat) =>
        match ConfiguredChannel(g, cat) {
          case None => Aborted(NoChannel)
          case Some(channel) =>
            if !channelExists then Aborted(ChannelGone)
            else match Find(g.works, key) {
              case None => Aborted(WorkNotFound)
              case Some(i) =>
                if replies == [] then Aborted(Waiting)
                else if replies[0].attachments == [] then Aborted(NoAttachment)
                else if |replies| < 2 then Aborted(Waiting)
                else
                  var change := Normalize(replies[1].content) in Yes;
                  if change && |replies| < 3 then Aborted(Waiting)
                  else
                    var e := g.works[i];
                    var thanks := if change then replies[2].content else e.work.agradecimientos;
                    var donation := if g.donacion.Some? && g.donacion.value != "" then g.donacion else None;
                    Sent(Announcement(channel, e.name, e.work.sinopsis, Strip(replies[0].content), thanks,
                                      e.work.link, donation, replies[0].attachments[0]))
            }
        }
    }
  }

  /** Answering `SÍ`, `si ` or `Yes` to the second prompt takes the third
      reply as acknowledgements; any other answer keeps the stored ones. */
  lemma AnnounceThanksChoice(g: GuildConfig, actor: Actor, categoria: string, key: string,
                             chapter: Message, answer: string, text: string)
    requires AnnouncementReady(g, actor, categoria, key, true)
    requires chapter.attachments != []
    ensures var d := Announce(g, actor, categoria, key, true, [chapter, Message(answer, []), Message(text, [])]);
      d.Sent? &&
      d.announcement.thanks ==
        (if Normalize(answer) in Yes then text else g.works[Find(g.works, key).value].work.agradecimientos)
    ensures Announce(g, actor, categoria, key, true, [chapter, Message("SÍ", [])]) == Aborted(Waiting)
    ensures Announce(g, actor, categoria, key, true, [chapter, Message(" no", [])]).Sent?
  {
    assert Normalize("SÍ") == "sí";
    assert Normalize(" no") == "no";
  }
}
