# Discord bot for chapter announcements: a Dafny model

`bot.py` is a Discord bot that a scanlation group uses to announce new
chapters. Each guild (server) keeps one configuration in a JSON document:

- the role ids allowed to run staff commands;
- one announcement channel for each of the four category tags `BL`, `GL`,
  `+15` and `+18`;
- an optional donation message;
- a registry of works, keyed by name. Each work has a category, a synopsis,
  a link, acknowledgements and an optional alias.

This project models the logic that reads and changes that configuration.
That covers the lazy creation of a guild's configuration, authorization,
and the role allow-list. It also covers the channel and donation settings,
the work registry (lookup by name or alias, alias assignment and renaming,
link edits, the alias listing), and the two interactive flows: registering
a work and announcing a chapter.

Modules:

- `Wrappers`: `Option`.
- `Text`: the three string methods the bot applies to input. These are
  `upper()`, `lower()` and `strip()`, exact on ASCII, plus `Í` → `í` for
  the yes/no prompt.
- `Guild`: the data model and one pure transition function per command
  outside the two multi-prompt flows. Each function maps a `GuildConfig` to
  an `Outcome` (the new configuration and the reply sent). `setdonacion`
  waits for one reply, which `Guild.SetDonation` takes from its sequence of
  replies as the flows do. The module also holds the lemmas about these
  functions.
- `Flows`: `agregarobra` and `actualizacion`. The answers to their prompts
  are a sequence of replies. When the sequence runs out, the prompt is never
  answered and the handler stays suspended; the model shows this as the
  reply `Waiting`. Registration also says what happens to the user's entry
  in `pending_agregar_obra`.
- `Handlers`: the source's loops as read-only methods, each proved equal to
  its specification function. It also holds class `Bot`, which keeps the
  document `data["servers"]`, the pending registrations, and a count of
  `save_data` calls. Each handler is a method that updates these fields in
  place. Its `ensures` ties the new state to the matching function of `Guild`
  or `Flows`. It also states how many saves the call makes and that it
  keeps every guild configuration valid (`Guild.GuildValid`):
  - the role list has no duplicates;
  - the channel keys are exactly the four tags;
  - work names are unique;
  - non-null aliases are unique;
  - every category is a tag.

A Python dictionary keeps insertion order, so the works dictionary is a
sequence of `(name, work)` entries. Lookups take the first match in that
order. Python's truth tests are kept where they decide a branch:

- channel id `0` counts as "no channel";
- a work named `""` found by `editalias` counts as not found;
- `listalias` skips the alias `""`;
- an empty donation message is not attached to an announcement.

The lookup `find_work_by_name_or_alias` is not symmetric between a work's
name and its alias. A work is found by its alias only when no work is
*named* like that alias, because an exact name always wins.
`Guild.FindByNameOrAliasAgree` carries that hypothesis, and
`Guild.AliasShadowedByName` shows a registry where a name shadows an alias.

## Model

| member | source | states |
|---|---|---|
| Guild.DefaultGuildValid | bot.py:48-53 | The configuration created for a new guild has no roles, exactly the four tag slots all unset, no donation and no works, and it is valid. |
| Guild.IndexOfName | bot.py:60-61 | Name lookup succeeds exactly when some work has that name, and returns the first work with it. |
| Guild.IndexOfAlias | bot.py:62-64 | Alias lookup succeeds exactly when some work carries that alias, and returns the first such work in insertion order. |
| Guild.Find | bot.py:57-65 | An exact name wins. Otherwise the result is the first work whose alias equals the key. Not found exactly when no name and no alias matches. |
| Handlers.FindWorkByNameOrAlias | bot.py:57-65 | The name check followed by the alias loop computes the same result as `Guild.Find`. |
| Handlers.FirstWithAlias | bot.py:62-64 | The early-return alias loop returns the first work carrying the alias, the same as `Guild.IndexOfAlias`. |
| Guild.FindByNameOrAliasAgree | bot.py:57-65 | In a registry with unique names and aliases, a work is found by its name and also by its alias, provided no work is named like the alias. |
| Guild.AliasShadowedByName | bot.py:60-64 | A registry with unique names and aliases in which looking up an alias returns a different work, the one named like it. |
| Guild.Authorized | bot.py:67-77 | The policy: administrators always pass; with no allowed roles only administrators pass; otherwise a non-administrator passes exactly when one of their role ids is allowed. |
| Handlers.IsAuthorized | bot.py:67-77 | The early-return loop answers true exactly when the actor is an administrator or holds one of the allowed roles. |
| Guild.AuthorizedWithoutRoles | bot.py:70-71 | With no allowed roles configured, only administrators are authorized. |
| Handlers.GetGuildDataIdempotent | bot.py:45-55 | A second `get_guild_data` returns the same configuration and writes nothing; an unknown guild gets the default configuration. |
| Handlers.Bot.constructor | bot.py:30-32 | Without a data file the document has no guilds; no registration is pending and nothing has been saved. |
| Handlers.Bot.GetGuildData | bot.py:45-55 | Returns the stored configuration, or inserts the default one and saves once when the guild is new; nothing else changes. |
| Guild.AddRole | bot.py:89-96 | Succeeds exactly when the role is absent and then appends it; otherwise nothing changes. The role is allowed afterwards, and a list without duplicates stays without duplicates. |
| Handlers.Bot.AddRol | bot.py:89-96 | Updates the guild as `Guild.AddRole` does, saves only on success and keeps every guild valid. |
| Guild.RemoveFirst | bot.py:103 | `list.remove`, defined only on a list that holds the element, as `delrol` calls it after its membership test: the result is one element shorter. |
| Guild.FirstIndexOf | bot.py:103 | The position of the first occurrence of an element in a list. |
| Guild.RemoveFirstSplit | bot.py:103 | `list.remove` cuts out exactly the element at its first occurrence. |
| Guild.RemoveFirstMultiset | bot.py:103 | `list.remove` of a present element takes exactly one copy of it out of the list. |
| Guild.RemoveFirstNoDup | bot.py:103 | Removing from a list without duplicates leaves a list without duplicates and without the element, holding only elements of the original. |
| Guild.RemoveRole | bot.py:100-107 | Succeeds exactly when the role is allowed. Only the role list can change, a failure changes nothing, and a list without duplicates loses the role entirely. |
| Guild.RemoveRoleDeletesFirst | bot.py:102-103 | A successful `delrol` removes the first occurrence of the role and keeps the other roles in their order. |
| Guild.RemoveRoleDeletesOneCopy | bot.py:102-103 | A successful `delrol` takes exactly one copy of the role out of the list. |
| Handlers.Bot.DelRol | bot.py:100-107 | Updates the guild as `Guild.RemoveRole` does, saves only on success and keeps every guild valid. |
| Guild.ParseCategory | bot.py:133-134 | A category is accepted exactly when its upper-case form is one of the four tags, and it then stands for that tag. |
| Guild.ParseCategoryIdempotent | bot.py:178-179 | An accepted category, parsed again, gives the same tag. |
| Guild.SetChannel | bot.py:129-140 | Rejects an unauthorized actor first, then a category whose upper-case form is not a tag. On success it writes only that one slot with the current channel, so the channel keys stay exactly the four tags. |
| Handlers.Bot.SetCanal | bot.py:129-140 | Updates the guild as `Guild.SetChannel` does, saves only on success and keeps every guild valid. |
| Guild.SetDonation | bot.py:158-168 | An unauthorized actor changes nothing. Otherwise the next reply becomes the donation message and only that field changes. |
| Handlers.Bot.SetDonacion | bot.py:158-168 | Updates the guild as `Guild.SetDonation` does, saves only on success and keeps every guild valid. |
| Guild.FreshAliasKeepsUnique | bot.py:281-286 | Giving one work an alias no work carries keeps names and aliases unique. |
| Handlers.AnyWorkHasAlias | bot.py:281-284 | The early-return scan reports exactly whether some work already carries the alias. |
| Guild.AssignAlias | bot.py:269-288 | Checks authorization, then that the name exists, then that no work carries the alias. Succeeds exactly when all three pass, and then changes only the alias of the named work. Every failure changes nothing, and validity is kept. |
| Guild.ReassignOwnAliasFails | bot.py:281-284 | Setting a work's own current alias again is rejected. |
| Guild.AliasTakenAfterAssign | bot.py:281-286 | After a successful `setalias name x`, any later `setalias` of `x` fails, for every work and every actor. |
| Handlers.Bot.SetAlias | bot.py:269-288 | Updates the guild as `Guild.AssignAlias` does, saves only on success and keeps every guild valid. |
| Guild.AliasOwner | bot.py:301-309 | The work `editalias` renames is the first one carrying the old alias; a match whose name is empty counts as not found. |
| Guild.RenameAlias | bot.py:293-318 | Checks authorization, then that the old alias has an owner, then that no work carries the new alias. Succeeds exactly when all three pass, and then changes only that work's alias. Every failure changes nothing, and validity is kept. |
| Guild.RenameAliasToItselfFails | bot.py:311-314 | `editalias x x` never succeeds. |
| Handlers.Bot.EditAlias | bot.py:293-318 | Updates the guild as `Guild.RenameAlias` does, saves only on success and keeps every guild valid. |
| Guild.EditLink | bot.py:343-355 | Checks authorization, then that the key resolves by name or alias. On success it changes only the link of the work `find_work_by_name_or_alias` returns. Every failure changes nothing, and validity is kept. |
| Handlers.Bot.EditarLink | bot.py:343-355 | Updates the guild as `Guild.EditLink` does, saves only on success and keeps every guild valid. |
| Guild.AliasListing | bot.py:330-333 | The lines of `listalias`: never more than there are works, and no line has an empty alias. |
| Guild.AliasListingMembers | bot.py:330-333 | A (name, alias) pair is listed exactly when the alias is non-empty and belongs to the work with that name. |
| Guild.AliasListingLength | bot.py:330-336 | The listing never has more lines than there are works, and it is empty exactly when no work has a non-empty alias. |
| Handlers.AliasListingSnoc | bot.py:330-333 | Listing the works plus one more entry adds at most that entry's line at the end. |
| Handlers.ListAliases | bot.py:330-333 | The loop builds exactly `Guild.AliasListing`, in insertion order. |
| Handlers.Bot.ListAlias | bot.py:323-338 | Returns the alias listing of the guild's works and changes nothing but the possible creation of the guild. |
| Flows.Thanks | bot.py:209-213 | The acknowledgements reply: the canned phrase when the reply, lower-cased and stripped, is `default`, and the reply verbatim otherwise. |
| Flows.DonationReply | bot.py:219-220 | The donation reply sets nothing exactly when, lower-cased and stripped, it is `ninguno`; otherwise it sets the reply verbatim. |
| Flows.Collect | bot.py:190-231 | The part of `agregarobra` after its checks: waiting exactly when fewer replies than prompts arrived, with the pending entry holding what was collected and the guild unchanged. On completion the pending entry is dropped, exactly one work is appended, only the donation may change besides it, and a donation already set is kept. |
| Flows.Register | bot.py:173-231 | The checks come in order: authorization, category, then a new name. A failed check opens no pending entry and changes nothing. Missing replies leave the flow waiting, with the pending entry holding what was collected. On completion it appends exactly one work (the upper-cased category, the synopsis and link replies, the acknowledgements choice, no alias) and removes the pending entry. The donation is asked for only when none is set, and `ninguno` leaves it unset. |
| Flows.RegisterKeepsValid | bot.py:222-229 | Registration keeps the guild valid. |
| Flows.DonationPromptSkipped | bot.py:216-220 | A donation message already set is neither asked for nor replaced, so three replies complete the flow. |
| Flows.DefaultReplyCapitalised | bot.py:210-211 | `Default` followed by a newline selects the canned acknowledgements. |
| Flows.DefaultReplySeparator | bot.py:210-211 | `default` followed by the separator U+001C, which `strip()` removes, selects the canned acknowledgements. |
| Flows.NingunoReplySeparator | bot.py:219 | `ninguno` preceded by the separator U+001F declines the donation prompt. |
| Flows.DefaultReplyIndented | bot.py:210-211 | ` default` with a leading space selects the canned acknowledgements. |
| Flows.DragonSagaExample | bot.py:173-231 | A worked registration in category `bl` with the reply `DEFAULT`, in a guild with a donation message: it completes with the canned acknowledgements and leaves the donation unchanged. |
| Handlers.Bot.AgregarObra | bot.py:173-231 | Updates the guild and the pending map as `Flows.Register` says, saves only on completion and keeps every guild valid. |
| Handlers.Bot.CollectReplies | bot.py:190-214 | After the checks, writes the pending entry field by field and ends exactly as the post-check part of `Flows.Register` does. |
| Handlers.Bot.AskDonationAndCommit | bot.py:216-230 | The donation prompt and the commit: it stores the work built from the pending entry, removes the entry and saves once. |
| Flows.ConfiguredChannel | bot.py:371-372 | The configured channel of a category exists exactly when its slot is present, set and non-zero (Python's truth test), and it is then that slot's id. |
| Flows.Announce | bot.py:360-427 | The checks come in order: authorization, category, configured channel, channel still present, work found, image attached. Any failure sends nothing. An announcement is sent exactly when all checks pass and the needed replies exist. It goes to the configured channel with the work's name, synopsis and link, the stripped chapter text, the first attachment and a non-empty donation message. |
| Flows.AnnounceThanksChoice | bot.py:398-405 | The acknowledgements are replaced by the third reply exactly when the second, lower-cased and stripped, is `sí`, `si` or `yes`. Otherwise the stored ones are kept. |
| Handlers.Bot.Actualizacion | bot.py:360-429 | Returns what `Flows.Announce` decides. The stored configuration, the pending map and the save count change only through the possible creation of the guild. |
| Text.Lower | bot.py:210 | `lower()` keeps the length. |
| Text.LowerPointwise | bot.py:210 | `lower()` acts character by character and leaves no capital ASCII letter. |
| Text.Upper | bot.py:133 | `upper()` keeps the length. |
| Text.UpperIdempotent | bot.py:133 | Upper-casing twice is upper-casing once. |
| Text.Strip | bot.py:395 | `strip()` never lengthens its input, and what it keeps neither begins nor ends with whitespace. |
| Text.Normalize | bot.py:210 | `lower().strip()` never lengthens its input, and the result neither begins nor ends with whitespace. |
| Text.NormalizeHasNoCapitals | bot.py:402 | `lower().strip()` leaves no capital ASCII letter, so `SÍ`, `Si` and `YES` compare like the keywords. |
| Text.TrimLeftIsSuffix | bot.py:395 | Trimming the left keeps a suffix and removes only whitespace. |
| Text.TrimRightIsPrefix | bot.py:395 | Trimming the right keeps a prefix and removes only whitespace. |
| Text.StripIsTrimmedSlice | bot.py:395 | `strip()` keeps a contiguous slice of its input whose ends are not whitespace, and everything cut away is whitespace. |

## Left out

- Reading and writing `bot_data.json` (`load_data`, `save_data`). The model starts from an empty document and counts the writes in `Bot.saves`. The fallback for an unparsable file is not modelled.
- The Discord transport: `ctx.send`, `bot.wait_for`, embeds, `AllowedMentions`, `on_ready`, `bot.run` and the token. Replies to prompts are an input sequence. The bot's messages are the `Reply` values, and the announcement is the `Announcement` value, not the rendered embed.
- The `has_permissions(administrator=True)` decorator on `addrol` and `delrol`. It is enforced by the library before the handler runs.
- `guild.get_channel`: whether the configured channel still exists is a boolean input.
- The interleaving of suspended handlers. A flow that stays waiting never resumes in this model, and two concurrent flows of one user are not modelled.
- Full Unicode case mapping and whitespace. `upper()` and `lower()` act on ASCII letters, plus `Í` → `í`. `strip()` removes the ASCII characters for which `isspace()` holds (tab through carriage return, U+001C to U+001F, space), but not the non-ASCII ones such as U+0085, U+00A0 or U+3000.
- Guild ids: the JSON keys are `str(guild.id)`; the model keys the document by the numeric id.
- The display-only commands `verroles`, `vercanales`, `verobras`, `verobra`, `comandos` and `comandos_staff`. They only build text.
- `pending_actualizacion`, which the source declares and never uses.
