/**
 * The bot's mutable state and its event handlers: the in-memory
 * welcome/goodbye settings (index.cjs:36-47), the AFK store the message
 * handler rewrites (index.cjs:235-245), the members' roles the buttons change
 * (index.cjs:148-160, 298-323) and the list of staff applications
 * (index.cjs:179-190). Each handler is proved against the function that
 * specifies it.
 */
module Bot {
  import opened Wrappers
  import opened Text
  import S = Settings
  import F = Filters
  import K = Keywords
  import M = Messages
  import I = Interactions

  /** A member of a guild, by guild id and user id. */
  type MemberKey = (string, string)

  class HecticBot {
    var welcomeGoodbyeSettings: map<string, S.GuildSettings>
    var afkData: map<string, M.AfkRecord>
    var memberRoles: map<MemberKey, set<string>>
    var applications: seq<I.Application>

    /** The state read from disk when the bot starts. */
    constructor (settings: map<string, S.GuildSettings>, afk: map<string, M.AfkRecord>,
                 roles: map<MemberKey, set<string>>, apps: seq<I.Application>)
      ensures welcomeGoodbyeSettings == settings && afkData == afk
      ensures memberRoles == roles && applications == apps
    {
      welcomeGoodbyeSettings := settings;
      afkData := afk;
      memberRoles := roles;
      applications := apps;
    }

    /** `loadGuildSettings`: the guild's record, created with every field null on first use. */
    method LoadGuildSettings(guildId: string) returns (s: S.GuildSettings)
      modifies this`welcomeGoodbyeSettings
      ensures welcomeGoodbyeSettings == S.Materialize(old(welcomeGoodbyeSettings), guildId)
      ensures guildId in old(welcomeGoodbyeSettings) ==> s == old(welcomeGoodbyeSettings)[guildId]
      ensures guildId !in old(welcomeGoodbyeSettings) ==> s == S.Defaults
    {
      if guildId !in welcomeGoodbyeSettings {
        welcomeGoodbyeSettings := welcomeGoodbyeSettings[guildId := S.Defaults];
      }
      s := welcomeGoodbyeSettings[guildId];
    }

    /** `sendWelcomeMessage` for a member joining; `channels` are the ids of the guild's channels. */
    method SendWelcomeMessage(m: S.Member, channels: set<string>) returns (out: Option<S.Outgoing>)
      modifies this`welcomeGoodbyeSettings
      ensures welcomeGoodbyeSettings == S.Materialize(old(welcomeGoodbyeSettings), m.guildId)
      ensures out == S.Welcome(welcomeGoodbyeSettings[m.guildId], m, channels)
    {
      var s := LoadGuildSettings(m.guildId);
      if !Truthy(s.welcomeChannel) || s.welcomeChannel.value !in channels {
        return None;
      }
      var template := if Truthy(s.customWelcomeMessage) then s.customWelcomeMessage.value else S.WelcomeDefault(m);
      var text := ReplaceFirst(ReplaceFirst(template, "{user}", Mention(m.id)), "{server}", m.guildName);
      out := Some(S.Outgoing(s.welcomeChannel.value, text));
    }

    /** `sendGoodbyeMessage` for a member leaving. */
    method SendGoodbyeMessage(m: S.Member, channels: set<string>) returns (out: Option<S.Outgoing>)
      modifies this`welcomeGoodbyeSettings
      ensures welcomeGoodbyeSettings == S.Materialize(old(welcomeGoodbyeSettings), m.guildId)
      ensures out == S.Goodbye(welcomeGoodbyeSettings[m.guildId], m, channels)
    {
      var s := LoadGuildSettings(m.guildId);
      if !Truthy(s.goodbyeChannel) || s.goodbyeChannel.value !in channels {
        return None;
      }
      var template := if Truthy(s.customGoodbyeMessage) then s.customGoodbyeMessage.value else S.GoodbyeDefault(m);
      var text := ReplaceFirst(ReplaceFirst(template, "{user}", Mention(m.id)), "{server}", m.guildName);
      out := Some(S.Outgoing(s.goodbyeChannel.value, text));
    }

    /**
     * The `messageCreate` handler: the effects in the order they are issued,
     * and the AFK store written back. `roll` stands for the random draw.
     */
    method HandleMessage(cfg: M.MessageConfig, m: M.Message, roll: nat) returns (effects: seq<M.Effect>)
      modifies this`afkData
      ensures effects == M.MessageEffects(old(afkData), cfg, m, roll)
      ensures afkData == M.AfkAfter(old(afkData), m)
    {
      if m.author.bot || m.guildId.None? {
        return [];
      }
      var content := Lower(m.content);
      effects := [];
      if m.author.id in afkData {
        afkData := afkData - {m.author.id};
        effects := [M.WelcomeBack(m.author.username)];
      }
      assert afkData == M.AfkAfter(old(afkData), m);
      var front := effects;
      if |m.mentions| > 0 {
        var notices := M.CollectMentionNotices(afkData, m.mentions);
        effects := effects + notices;
      } else {
        assert M.MentionNotices(afkData, m.mentions) == [];
      }
      assert effects == front + M.MentionNotices(afkData, m.mentions);
      var tail := Respond(cfg, m, content, roll);
      effects := effects + tail;
    }

    /**
     * The end of the `messageCreate` handler, from the chat responder on: a
     * keyword reply in the chat channel returns early; otherwise the filters
     * run in order and the first that fires deletes and notifies.
     */
    static method Respond(cfg: M.MessageConfig, m: M.Message, content: string, roll: nat) returns (effects: seq<M.Effect>)
      requires m.guildId.Some?
      ensures effects == M.Respond(cfg, m, content, roll)
    {
      var g := m.guildId.value;
      if g in cfg.chatSettings && cfg.chatSettings[g].chatChannelId == Some(m.channelId) {
        var k := K.FindKeyword(content);
        if k.Some? {
          return [M.ChatReply(K.Pick(K.RepliesOf(k.value), roll))];
        }
      }
      if cfg.filters.swearwords && F.DenylistFlags(cfg.denylist, content) {
        return [M.Delete, M.FilterNotice(F.Profanity)];
      }
      if cfg.filters.links && F.LinkTest(content) {
        return [M.Delete, M.FilterNotice(F.Link)];
      }
      if cfg.filters.spam && F.SpamTest(content) {
        return [M.Delete, M.FilterNotice(F.Spam)];
      }
      return [];
    }

    /** The roles of a member, none when the bot has not seen them. */
    function RolesOf(key: MemberKey): set<string>
      reads this
    {
      if key in memberRoles then memberRoles[key] else {}
    }

    /**
     * Both `interactionCreate` listeners for one interaction by the member
     * `key` of a guild whose roles are `guildRoles`: the effects in order, the
     * member's roles after, and the application list after. No other member's
     * roles change, and applications are only ever appended.
     */
    method HandleInteraction(cfg: I.RouterConfig, key: MemberKey, guildRoles: map<string, string>, i: I.Interaction)
      returns (effects: seq<I.Effect>)
      modifies this`memberRoles, this`applications
      ensures var r := I.Route(cfg, I.Member(guildRoles, old(RolesOf(key))), old(applications), i);
        && effects == r.effects
        && memberRoles == old(memberRoles)[key := r.roles]
        && applications == r.applications
      ensures old(applications) <= applications && |applications| <= |old(applications)| + 1
    {
      var roles := RolesOf(key);
      var member := I.Member(guildRoles, roles);
      ghost var apps0 := applications;
      effects := [];
      // First listener.
      match i {
        case Command(name) =>
          effects := I.DispatchCommand(cfg.commands, name, I.First);
        case Button(id) =>
          if id == "create-ticket" || id == "close-ticket" {
            effects := I.TicketButton(cfg.commands, id);
          }
          var (action, roleId) := I.ParseCustomId(id);
          if action == "toggle" {
            var (newRoles, reply) := I.ToggleRole(member, roleId);
            roles := newRoles;
            effects := effects + [reply];
          } else if id == "apply_button" {
            effects := effects + [I.ShowModal(I.ApplicationModal)];
          }
        case ModalSubmit(id, fields) =>
          if id == I.ApplicationModal.customId {
            var app := I.ReadApplication(fields);
            if app.Some? {
              applications := applications + [app.value];
              effects := [I.Reply(I.ApplicationSubmitted)];
            }
          }
      }
      ghost var first := I.FirstListener(cfg, member, apps0, i);
      assert effects == first.effects && roles == first.roles && applications == first.applications;
      // Second listener.
      match i {
        case Command(name) =>
          effects := effects + I.DispatchCommand(cfg.commands, name, I.Second);
        case Button(id) =>
          if id == "verify_button" {
            var (newRoles, reply) := I.VerifyButton(cfg.verifyRoleId, member.(roles := roles));
            roles := newRoles;
            effects := effects + [reply];
          }
        case ModalSubmit(_, _) =>
      }
      memberRoles := memberRoles[key := roles];
    }
  }

  /**
   * The AFK round trip on the bot's state: an away author's first message
   * welcomes them back, and their next message does not.
   */
  method AfkReturnScenario(bot: HecticBot, cfg: M.MessageConfig, m: M.Message, next: M.Message, roll: nat)
    returns (first: seq<M.Effect>, second: seq<M.Effect>)
    requires !M.Ignored(m) && m.author.id in bot.afkData && next.author == m.author
    modifies bot`afkData
    ensures |first| >= 1 && first[0] == M.WelcomeBack(m.author.username)
    ensures forall e :: e in second ==> !e.WelcomeBack?
    ensures m.author.id !in bot.afkData
  {
    ghost var afk0 := bot.afkData;
    first := bot.HandleMessage(cfg, m, roll);
    M.WelcomedBackOnce(afk0, cfg, m, next, roll, roll);
    second := bot.HandleMessage(cfg, next, roll);
  }
}
