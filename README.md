# HecticBot core, modelled in Dafny

HecticBot is a Discord bot. This project models its event handlers, which
all live in `index.cjs`, and proves properties of them:

- **Guild settings.** The per-guild welcome and goodbye settings are kept
  in memory and created lazily with all-null defaults (module `Settings`).
- **Welcome and goodbye notices.** The notice is built from a custom
  template or a fixed sentence. The first `{user}` and then the first
  `{server}` are substituted (`Settings`, with the string primitives in
  `Text`).
- **Message handler** (module `Messages`), with its parts in `Keywords` and
  `Filters`:
  - bot and direct messages are ignored;
  - a returning AFK author is deleted from the store and welcomed back;
  - AFK notices go out for mentioned users, read after the author's own
    record is deleted;
  - the keyword chat responder runs only in the guild's chat channel. The
    first key in table order wins, a random reply is chosen, and the handler
    ends there;
  - the moderation chain then runs: denylist, then link, then spam. The
    first enabled filter that fires deletes the message and posts one
    notice.
- **The two `interactionCreate` listeners** (module `Interactions`):
  - slash-command dispatch, which runs once per listener;
  - the `create-ticket` and `close-ticket` buttons, routed to the
    `setup-ticket` module;
  - `toggle_<roleId>` role buttons;
  - `apply_button` and the staff application modal;
  - `verify_button`, which only ever adds the configured role.
- **State holder** (module `Bot`). The class `HecticBot` owns the mutable
  state: the settings map, the AFK store, the members' roles and the
  application list. Each of its handlers is proved equal to the function
  that specifies it.

Inputs the bot reads from disk or from Discord are parameters:

- the chat settings, filter switches and denylist;
- the loaded command modules and how each of their calls ends (completes
  or throws), separately for the two listeners' calls of `execute`;
- the guild's channels and roles;
- the random draw, given as `roll`;
- the mentioned users, as a sequence in mention order. Discord's
  `mentions.users` is a collection keyed by user id, so the ids are distinct
  (`Messages.DistinctIds`); the order clause of `Messages.MentionNotices`
  is stated under that condition.

Where the code behaves in a way its own comments or the bot's defaults do
not suggest, the model follows the code:

- `String.prototype.replace` with a string pattern replaces only the first
  occurrence, so a template with two `{user}` keeps the second one
  (`Settings.RenderReplacesFirstUserOnly`).
- `loadGuildSettings` creates the default record in memory but does not
  save it.
- The chat channel comes from its own settings file, keyed by guild id, and
  not from the welcome/goodbye record.
- Both listeners dispatch slash commands, so every known command runs
  twice. Each run may end differently, and each run that throws gets its
  own generic reply (`Interactions.CommandRunsTwice`).
- Reading an input that a submitted modal lacks throws, so nothing is
  recorded and nothing is replied (`Interactions.ModalAppendsOne`).

One place does not follow the code. An empty denylist builds the pattern
`\b()\b` (index.cjs:267), which matches any text holding a word character;
this is recorded under Findings. The message handler of the model
(`Messages.MessageEffects`, `Bot.HecticBot.HandleMessage`) uses the
corrected check `Filters.Evaluate`, so on an empty denylist it does NOT do
what index.cjs:267-268 does. The check as written is `Filters.EvaluateAsWritten`,
and for a non-empty denylist the two agree (`Filters.CorrectionOnlyForEmptyDenylist`).

## Model

| member | source | states |
|---|---|---|
| Settings.Materialize | index.cjs:37-47 | an unseen guild gains the all-null record; every other entry is kept unchanged |
| Settings.MaterializeIdempotent | index.cjs:37-47 | loading the same guild twice changes nothing the second time |
| Settings.MaterializeCommutes | index.cjs:37-47 | loading two guilds gives the same settings in either order |
| Bot.HecticBot.LoadGuildSettings | index.cjs:37-47 | the map becomes the materialized one; the result is the stored record, or the defaults for an unseen guild |
| Settings.Render | index.cjs:58-59 | a template, custom or fallback, holding no `{user}` and no `{server}` is sent as it is; the lemmas below give the substituted cases |
| Settings.Greeting | index.cjs:52-60 | a notice is sent iff the channel setting is truthy and names a channel of the guild; it goes to that channel with the rendered text |
| Settings.Welcome | index.cjs:51-61 | the welcome goes out iff the welcome channel setting is truthy and names a channel of the guild, to that channel, with the custom template or the default sentence rendered |
| Settings.Goodbye | index.cjs:63-73 | the goodbye goes out iff the goodbye channel setting is truthy and names a channel of the guild, to that channel, with the custom template or the default sentence rendered |
| Settings.FreshGuildIsSilent | index.cjs:37-47 | a guild whose settings were just created sends neither welcome nor goodbye |
| Settings.WelcomeSentWhenChannelResolves | index.cjs:52-60 | a configured, existing welcome channel receives the rendered welcome |
| Settings.RenderServerThenUser | index.cjs:58-59 | a custom template `pre{server}mid{user}post` renders with the guild name and the member mention in place |
| Settings.RenderReplacesFirstUserOnly | index.cjs:59 | only the first `{user}` is replaced; anything after it, including a second `{user}`, is kept |
| Settings.DefaultWelcomeVerbatim | index.cjs:58-59 | with a null or empty template the default welcome sentence is sent unchanged |
| Settings.DefaultGoodbyeVerbatim | index.cjs:70-71 | with a null or empty template the default goodbye sentence is sent unchanged |
| Settings.DefaultSubstitutesGuildName | index.cjs:58-59 | the default sentence is itself substituted, so a guild named `{user}` shows the mention twice |
| Bot.HecticBot.SendWelcomeMessage | index.cjs:51-61 | settings are materialized for the guild and the result is the specified welcome notice |
| Bot.HecticBot.SendGoodbyeMessage | index.cjs:63-73 | settings are materialized for the guild and the result is the specified goodbye notice |
| Text.IndexOf | index.cjs:258 | the index of the first occurrence of a pattern, found iff the pattern occurs |
| Text.ReplaceFirst | index.cjs:59 | a string without the pattern is kept; otherwise exactly one occurrence is replaced, so the length changes by the replacement's length minus the pattern's |
| Text.Lower | index.cjs:234 | the content keeps its length and each character is lower-cased (ASCII letters) |
| Text.ReplaceFirstAt | index.cjs:59 | replacing at the first occurrence splices in the replacement there |
| Text.ReplaceFirstAbsent | index.cjs:59 | a string without the pattern is left unchanged |
| Text.Split | index.cjs:148 | `split('_')` yields at least one piece and no piece contains the separator |
| Text.JoinSplit | index.cjs:148 | joining the pieces of a split with the separator gives back the string |
| Text.SplitJoin | index.cjs:148 | splitting the join of separator-free pieces gives back the pieces |
| Filters.DenylistTest | index.cjs:267-268 | the search decides exactly whether some alternative of `\b(...)\b` matches case-insensitively between word boundaries |
| Filters.LinkTest | index.cjs:273 | the search decides exactly whether `http://` or `https://` is followed by a non-whitespace character |
| Filters.SpamTest | index.cjs:278 | the search decides exactly whether five equal characters, other than a line terminator, occur in a row |
| Filters.DenylistFlags | index.cjs:267-268 | the intended check: true iff the denylist is non-empty and matches |
| Filters.EvaluateAsWritten | index.cjs:266-282 | the chain as written: profanity iff its switch is on and the denylist pattern matches, the empty denylist included; a link or spam verdict only when its switch is on and its pattern matches |
| Filters.Evaluate | index.cjs:266-282 | the corrected chain: profanity iff its switch is on and a non-empty denylist matches; a link or spam verdict only when its switch is on and its pattern matches |
| Filters.EvaluatePrecedence | index.cjs:266-282 | profanity beats link beats spam; each is reported iff its switch is on, it matches and no earlier check fired |
| Filters.CorrectionOnlyForEmptyDenylist | index.cjs:267-268 | for a non-empty denylist the corrected chain equals the chain as written |
| Filters.EmptyDenylistFlagsNothing | index.cjs:267-268 | with the correction, an empty denylist reports no profanity |
| Filters.AllOffIsClean | index.cjs:268-282 | with every switch off nothing is ever reported |
| Filters.WholeWordMatches | index.cjs:267-268 | a denylisted word standing alone in the text, in any letter case, is a match |
| Filters.EmbeddedWordNotMatched | index.cjs:267 | an entry inside a longer word (`bad` in `badge`) is not a match |
| Filters.EmptyDenylistMatchesAnyWord | index.cjs:267 | as written, an empty denylist matches any text holding a word character |
| Filters.EmptyDenylistNeedsAWord | index.cjs:267 | as written, an empty denylist matches nothing in a text without word characters |
| Filters.AsWrittenFlagsEveryWord | index.cjs:266-272 | as written, with the default switches and empty denylist, every text with a word character is reported as profanity |
| Filters.HelloFlaggedAsWritten | index.cjs:266-272 | `hello` is reported as profanity as written, and not with the correction |
| Filters.SchemeMakesLink | index.cjs:273 | a scheme followed by any non-space character is a link |
| Filters.BareSchemeIsNoLink | index.cjs:273 | a bare `https://` with nothing after it is not a link |
| Filters.FiveInARowIsSpam | index.cjs:278 | five equal characters in a row are spam |
| Filters.FourInARowIsNotSpam | index.cjs:278 | four equal characters are not |
| Keywords.Key | index.cjs:193-228 | the keys of the `responses` table in insertion order (compared entry by entry with the replies in `Keywords.RepliesOf`); no key is shorter than two characters, so no key is contained in every message |
| Keywords.KeywordFrom | index.cjs:257-258 | the first keyword from a table position on that the content contains; none earlier is contained |
| Keywords.FirstKeyword | index.cjs:257-258 | the answered keyword is the first one in table order contained in the content |
| Keywords.FindKeyword | index.cjs:257-263 | the loop with early exit returns exactly the first contained keyword |
| Keywords.Pick | index.cjs:259 | the chosen reply is one of the keyword's replies |
| Keywords.EveryReplyReachable | index.cjs:259 | every reply of a list is chosen for some draw |
| Keywords.ShadowedKeyword | index.cjs:257-258 | a keyword containing an earlier keyword is never answered |
| Keywords.TellMeAJokeUnreachable | index.cjs:220-223 | `tell me a joke` is never answered, because `joke` comes first |
| Keywords.HiInsideAWord | index.cjs:258 | keywords match inside words: `this` is answered as `hi` |
| Messages.AfkAfter | index.cjs:232-243 | an ignored message keeps the store; otherwise exactly the author's record is removed, the rest unchanged |
| Messages.EffectText | index.cjs:244-280 | every reply and channel message the handler sends has some text; only a deletion sends none |
| Messages.MentionNotices | index.cjs:248-251 | every notice is for a mentioned user who is away, with their reason; every such user gets one; with distinct mention ids the notices follow mention order, so no user gets two |
| Messages.CollectMentionNotices | index.cjs:248-251 | the `forEach` loop collects exactly the specified notices |
| Messages.Respond | index.cjs:255-282 | the responder does nothing, or sends one chat reply, or deletes the message and then sends one filter notice |
| Messages.MessageEffects | index.cjs:231-283 | an ignored message has no effects; otherwise at most one welcome, one notice per mention and two responder effects, and an away author's welcome comes first |
| Messages.IgnoredIsSilent | index.cjs:232 | bot and direct messages produce nothing and change nothing |
| Messages.WelcomedBackOnce | index.cjs:241-245 | a returning author is welcomed first and once; their next message gives no welcome |
| Messages.NoWelcomeWhenPresent | index.cjs:241 | an author who is not away is never welcomed back |
| Messages.AfkNoticesExactly | index.cjs:241-251 | a notice for a user and reason is sent iff that user is mentioned, is not the author and is away for that reason |
| Messages.MentionsKeepAfk | index.cjs:248-251 | mentioning an away user leaves their record in place |
| Messages.EffectsSplit | index.cjs:240-282 | the responder's effects are the tail of the handler's; everything before them is a welcome or an AFK notice |
| Messages.KeywordPreemptsFilters | index.cjs:256-262 | in the chat channel a keyword hit is the last effect and the message is neither deleted nor flagged |
| Messages.ChatReplyOnlyInChatChannel | index.cjs:255-260 | a chat reply happens only in the configured chat channel, on a keyword, with one of its replies |
| Messages.RespondDeletes | index.cjs:255-282 | the responder deletes iff no chat reply preempts and a filter fires, and then posts exactly that filter's notice |
| Messages.DeleteExactlyOnViolation | index.cjs:256-282 | the message is deleted iff no chat reply preempts and a filter fires; the deletion is followed by that filter's notice |
| Messages.AtMostOneDeleteAndNotice | index.cjs:268-282 | a message is deleted at most once and gets at most one filter notice, which is the last effect and comes right after the deletion |
| Bot.HecticBot.Respond | index.cjs:255-282 | the chat responder and filter chain, with their early returns, produce exactly the specified tail of effects |
| Bot.HecticBot.HandleMessage | index.cjs:231-283 | the effects equal the specified ones and the AFK store becomes the specified one |
| Interactions.DispatchCommand | index.cjs:126-134 | an unknown name does nothing; a known one runs, followed by the generic error reply iff this listener's call throws |
| Interactions.TicketButton | index.cjs:138-146 | the error reply is sent iff the handler is missing or throws; the handler runs iff it exists |
| Interactions.ParseCustomId | index.cjs:148 | the action is the first `_` piece and the role id is the second, present iff there is one |
| Interactions.ToggleRole | index.cjs:149-160 | an unknown role is refused; otherwise the role's membership flips, the other roles stay, and the reply names the change |
| Interactions.ReadApplication | index.cjs:180-186 | a record is read iff all five inputs are present, field by field |
| Interactions.VerifyButton | index.cjs:298-323 | roles never shrink; unset or vanished roles are refused; otherwise the role is added with the verified reply |
| Interactions.FirstListener | index.cjs:125-191 | only a button changes the member's roles; only a modal submission records an application, at most one |
| Interactions.SecondListener | index.cjs:285-331 | no application is ever recorded; roles never shrink, and only the verify button changes them |
| Interactions.Route | index.cjs:125-331 | both listeners in registration order: commands and modal submissions leave the roles alone, and the application list only grows, by at most one |
| Interactions.UnknownCommandIsNoOp | index.cjs:126-135 | a command no module answers to does nothing in either listener |
| Interactions.CommandRunsTwice | index.cjs:285-295 | a known command runs once per listener; each listener sends the generic reply iff its own call throws, so the two runs may end differently |
| Interactions.ToggleIdRoundTrip | index.cjs:148 | `toggle_<roleId>` parses back to `toggle` and the role id |
| Interactions.UnderscoredIdParse | index.cjs:148 | an id `head_tail` of separator-free parts parses to head and tail |
| Interactions.ToggleTwiceRestores | index.cjs:149-160 | toggling the same role twice restores the member's roles |
| Interactions.ToggleButtonRoute | index.cjs:137-177 | a toggle button produces only the toggle's reply and role change |
| Interactions.VerifyOnlyAdds | index.cjs:298-323 | the verify button only adds the configured role and records nothing |
| Interactions.UnknownButtonIsNoOp | index.cjs:137-177 | a button with none of the fixed ids and no toggle prefix does nothing |
| Interactions.ApplyShowsModal | index.cjs:162-176 | `apply_button` shows the five-input application modal and changes nothing |
| Interactions.TicketButtonRoute | index.cjs:138-146 | the ticket buttons reach only the ticket module |
| Interactions.ModalAppendsOne | index.cjs:179-190 | a complete submission appends one record and confirms; an incomplete one changes nothing |
| Interactions.Submission | index.cjs:166-172 | a filled-in modal carries each input id with the value entered in it |
| Interactions.ModalRoundTrip | index.cjs:166-186 | submitting the shown modal records exactly the values entered |
| Bot.HecticBot.HandleInteraction | index.cjs:125-331 | the effects and new state equal both listeners' specification; only this member's roles change; applications only grow, by at most one |
| Bot.AfkReturnScenario | index.cjs:241-245 | on the bot's state, an away author's first message is welcomed and the next one is not |

## Left out

- Loading command modules from disk, deploying them, and logging in are not
  modelled. A loaded module appears only as whether its `execute` and
  `handleButtonInteraction` complete or throw. The handlers' own effects live
  in files outside this model.
- Reading and writing JSON files is not modelled. The AFK store, settings
  and applications are state; the chat settings, filter switches and
  denylist are parameters. An I/O error or malformed JSON is left out.
- `Math.random` is not modelled: the draw is a parameter `roll`, reduced
  into range.
- Asynchronous interleaving is left out. The two listeners run in
  registration order, one after the other, and un-awaited replies are placed
  in issue order.
- Console logging is left out.
- Denylist entries are taken as literal text. Regular-expression
  metacharacters inside an entry, and an entry that makes the pattern throw,
  are left out.
- Filters.CaseMatchAt: the `i` flag's case folding is modelled for ASCII
  letters only. `toLowerCase` on the content is likewise ASCII only
  (`Text.Lower`).
- JavaScript strings are UTF-16. `.`, `\s` and `\b` are modelled on the
  characters of a Dafny string, so surrogate pairs are not modelled.
- `$` patterns in a replacement string are not modelled: a guild name
  containing `$&` is inserted literally.
- Bot.HecticBot.HandleMessage: a platform call that fails is not modelled.
  A rejected `message.delete()` (index.cjs:269, 274, 279) ends the handler
  before the filter notice, and a rejected `channel.send` or `reply` sends
  nothing; the model always emits `[Delete, FilterNotice(v)]` and every
  reply. The same holds for `channel.send` of a welcome or goodbye notice
  (Bot.HecticBot.SendWelcomeMessage, Bot.HecticBot.SendGoodbyeMessage).
- Keywords.RepliesOf carries no contract of its own: the reply lists are
  the source's text as they stand, and what is proved about them is that the
  chosen reply is one of them (`Keywords.Pick`).
- Bot.HecticBot.HandleInteraction: a failing `roles.add` or `roles.remove`,
  and the verify button's catch-all reply, are left out. So is a second
  reply to an interaction that was already answered, which Discord rejects.
- Stored settings values that are falsy but not null (`0`, `false`) are not
  modelled: a setting is either null or a string.

## Findings

| source | as written | input that shows it | evidently intended | confidence | as-written member | corrected member |
|---|---|---|---|---|---|---|
| index.cjs:267-268 | the denylist pattern is built by joining the entries, so the empty denylist created by default yields `\b()\b`, which matches at any word boundary | default filter switches, empty denylist, message `hello` outside the configured chat channel: it is deleted with "please avoid using inappropriate language." | an empty denylist flags nothing | high; not executed | Filters.HelloFlaggedAsWritten | Filters.EmptyDenylistFlagsNothing |
