/**
 * Per-guild welcome/goodbye settings (index.cjs:36-47) and the welcome and
 * goodbye notices sent on member join and leave (index.cjs:51-73).
 */
module Settings {
  import opened Wrappers
  import opened Text

  /** One entry of `welcomeGoodbyeSettings`; every field may be null. */
  datatype GuildSettings = GuildSettings(
    welcomeChannel: Option<string>,
    goodbyeChannel: Option<string>,
    customWelcomeMessage: Option<string>,
    customGoodbyeMessage: Option<string>)

  /** The record `loadGuildSettings` creates for a guild it has not seen. */
  const Defaults := GuildSettings(None, None, None, None)

  /**
   * The settings map after `loadGuildSettings(guildId)`: an unseen guild gains
   * the all-null record, and nothing else is added or altered.
   */
  function Materialize(store: map<string, GuildSettings>, guildId: string): (r: map<string, GuildSettings>)
    ensures r.Keys == store.Keys + {guildId}
    ensures forall g :: g in store ==> r[g] == store[g]
    ensures guildId !in store ==> r[guildId] == Defaults
  {
    if guildId in store then store else store[guildId := Defaults]
  }

  /** A second `loadGuildSettings` of the same guild changes nothing and returns the same record. */
  lemma MaterializeIdempotent(store: map<string, GuildSettings>, guildId: string)
    ensures Materialize(Materialize(store, guildId), guildId) == Materialize(store, guildId)
  {
  }

  /** Loading two guilds' settings gives the same map in either order. */
  lemma MaterializeCommutes(store: map<string, GuildSettings>, g1: string, g2: string)
    ensures Materialize(Materialize(store, g1), g2) == Materialize(Materialize(store, g2), g1)
  {
  }

  /** The joining or leaving member: their id and their guild's id and name. */
  datatype Member = Member(id: string, guildId: string, guildName: string)

  /** A `channel.send(text)` to the channel with the given id. */
  datatype Outgoing = Outgoing(channelId: string, text: string)

  function WelcomeDefault(m: Member): string
  {
    "Welcome to " + m.guildName + ", " + Mention(m.id) + "!"
  }

  function GoodbyeDefault(m: Member): string
  {
    "Goodbye from " + m.guildName + ", " + Mention(m.id) + ". We hope to see you again!"
  }

  /**
   * The custom template when it is truthy, else the fallback sentence; then the
   * first `{user}` becomes the member's mention and, after that, the first
   * `{server}` becomes the guild name.
   */
  function Render(custom: Option<string>, fallback: string, m: Member): (r: string)
    ensures var template := if Truthy(custom) then custom.value else fallback;
      !Contains(template, "{user}") && !Contains(template, "{server}") ==> r == template
  {
    var template := if Truthy(custom) then custom.value else fallback;
    ReplaceFirst(ReplaceFirst(template, "{user}", Mention(m.id)), "{server}", m.guildName)
  }

  /**
   * The notice for one event kind: nothing when the channel setting is falsy or
   * names no channel of the guild, else the rendered text to that channel.
   */
  function Greeting(channel: Option<string>, custom: Option<string>, fallback: string,
                    m: Member, channels: set<string>): (r: Option<Outgoing>)
    ensures r.Some? <==> Truthy(channel) && channel.value in channels
    ensures r.Some? ==> r.value.channelId == channel.value
    ensures r.Some? ==> r.value.text == Render(custom, fallback, m)
  {
    if !Truthy(channel) || channel.value !in channels then None
    else Some(Outgoing(channel.value, Render(custom, fallback, m)))
  }

  /** `sendWelcomeMessage` given the guild's settings and the ids of its channels. */
  function Welcome(s: GuildSettings, m: Member, channels: set<string>): (r: Option<Outgoing>)
    ensures r.Some? <==> Truthy(s.welcomeChannel) && s.welcomeChannel.value in channels
    ensures r.Some? ==> r.value == Outgoing(s.welcomeChannel.value, Render(s.customWelcomeMessage, WelcomeDefault(m), m))
  {
    Greeting(s.welcomeChannel, s.customWelcomeMessage, WelcomeDefault(m), m, channels)
  }

  /** `sendGoodbyeMessage` given the guild's settings and the ids of its channels. */
  function Goodbye(s: GuildSettings, m: Member, channels: set<string>): (r: Option<Outgoing>)
    ensures r.Some? <==> Truthy(s.goodbyeChannel) && s.goodbyeChannel.value in channels
    ensures r.Some? ==> r.value == Outgoing(s.goodbyeChannel.value, Render(s.customGoodbyeMessage, GoodbyeDefault(m), m))
  {
    Greeting(s.goodbyeChannel, s.customGoodbyeMessage, GoodbyeDefault(m), m, channels)
  }

  /** A guild loaded for the first time has no welcome or goodbye channel, so nothing is sent. */
  lemma FreshGuildIsSilent(m: Member, channels: set<string>)
    ensures Welcome(Defaults, m, channels) == None
    ensures Goodbye(Defaults, m, channels) == None
  {
  }

  /** A configured, resolvable welcome channel receives the rendered welcome. */
  lemma WelcomeSentWhenChannelResolves(s: GuildSettings, m: Member, channels: set<string>)
    requires Truthy(s.welcomeChannel) && s.welcomeChannel.value in channels
    ensures Welcome(s, m, channels) == Some(Outgoing(s.welcomeChannel.value, Render(s.customWelcomeMessage, WelcomeDefault(m), m)))
  {
  }

  /**
   * A template naming the server before the user, such as
   * `Welcome to {server}, {user}!`, renders with both placeholders filled.
   */
  lemma {:induction false} RenderServerThenUser(pre: string, mid: string, post: string, m: Member)
    requires '{' !in pre && '{' !in mid && '{' !in post && '{' !in m.id
    ensures Render(Some(pre + "{server}" + mid + "{user}" + post), "", m)
         == pre + m.guildName + mid + Mention(m.id) + post
  {
    var t := pre + "{server}" + mid + "{user}" + post;
    var rest := mid + Mention(m.id) + post;
    UserAfterServer(pre, mid, post, Mention(m.id));
    Regroup(pre + "{server}", mid, Mention(m.id), post);
    ServerFirst(pre, rest, m.guildName);
    Regroup(pre + m.guildName, mid, Mention(m.id), post);
    RenderCustom(t, m, pre + m.guildName + mid + Mention(m.id) + post);
  }

  lemma Regroup(a: string, b: string, c: string, d: string)
    ensures a + b + c + d == a + (b + c + d)
  {
  }

  /** `Render` of a non-empty custom template is the two substitutions applied to it. */
  lemma RenderCustom(t: string, m: Member, x: string)
    requires t != []
    requires ReplaceFirst(ReplaceFirst(t, "{user}", Mention(m.id)), "{server}", m.guildName) == x
    ensures Render(Some(t), "", m) == x
  {
  }

  /** The first `{user}` after a `{server}` is found past it. */
  lemma UserAfterServer(pre: string, mid: string, post: string, rep: string)
    requires '{' !in pre && '{' !in mid
    ensures ReplaceFirst(pre + "{server}" + mid + "{user}" + post, "{user}", rep)
         == pre + "{server}" + mid + rep + post
  {
    var head := pre + "{server}" + mid;
    forall j: nat | j < |head|
      ensures !OccursAt(head + "{user}" + post, "{user}", j)
    {
      var s := head + "{user}" + post;
      assert s[j..j + 6][0] == s[j] && s[j..j + 6][1] == s[j + 1];
      if j < |pre| {
        assert s[j] == pre[j] && pre[j] in pre;
      } else if j == |pre| {
        assert s[j + 1] == 's';
      } else if j < |pre| + 8 {
        assert s[j] == "{server}"[j - |pre|];
      } else {
        assert s[j] == mid[j - |pre| - 8] && mid[j - |pre| - 8] in mid;
      }
    }
    ReplaceFirstSplit(head, "{user}", rep, post);
  }

  /** A `{server}` preceded by no `{` is the one replaced. */
  lemma ServerFirst(pre: string, rest: string, name: string)
    requires '{' !in pre
    ensures ReplaceFirst(pre + "{server}" + rest, "{server}", name) == pre + name + rest
  {
    NoEarlyOccurrence(pre, "{server}" + rest, "{server}");
    assert pre + ("{server}" + rest) == pre + "{server}" + rest;
    ReplaceFirstSplit(pre, "{server}", name, rest);
  }

  /**
   * Only the first `{user}` is replaced: whatever follows it, including
   * further `{user}` placeholders, is kept as it is.
   */
  lemma {:induction false} RenderReplacesFirstUserOnly(pre: string, rest: string, m: Member)
    requires '{' !in pre && '{' !in m.id
    requires forall j: nat :: !OccursAt(rest, "{server}", j)
    ensures Render(Some(pre + "{user}" + rest), "", m) == pre + Mention(m.id) + rest
  {
    UserFirst(pre, rest, Mention(m.id));
    var head := pre + Mention(m.id);
    assert '{' !in head;
    NoEarlyOccurrence(head, rest, "{server}");
    forall j: nat
      ensures !OccursAt(head + rest, "{server}", j)
    {
      if j >= |head| {
        OccursShifted(head, rest, "{server}", j - |head|);
      }
    }
    ReplaceFirstAbsent(head + rest, "{server}", m.guildName);
  }

  /**
   * The fallback sentence is sent verbatim when the member id and guild name
   * hold no `{`, for a template that is null or empty.
   */
  lemma {:induction false} DefaultWelcomeVerbatim(custom: Option<string>, m: Member)
    requires !Truthy(custom)
    requires '{' !in m.id && '{' !in m.guildName
    ensures Render(custom, WelcomeDefault(m), m) == WelcomeDefault(m)
  {
    NoOccurrenceWithoutFirstChar(WelcomeDefault(m), "{user}");
    ReplaceFirstAbsent(WelcomeDefault(m), "{user}", Mention(m.id));
    NoOccurrenceWithoutFirstChar(WelcomeDefault(m), "{server}");
    ReplaceFirstAbsent(WelcomeDefault(m), "{server}", m.guildName);
  }

  /** The goodbye counterpart of DefaultWelcomeVerbatim. */
  lemma {:induction false} DefaultGoodbyeVerbatim(custom: Option<string>, m: Member)
    requires !Truthy(custom)
    requires '{' !in m.id && '{' !in m.guildName
    ensures Render(custom, GoodbyeDefault(m), m) == GoodbyeDefault(m)
  {
    NoOccurrenceWithoutFirstChar(GoodbyeDefault(m), "{user}");
    ReplaceFirstAbsent(GoodbyeDefault(m), "{user}", Mention(m.id));
    NoOccurrenceWithoutFirstChar(GoodbyeDefault(m), "{server}");
    ReplaceFirstAbsent(GoodbyeDefault(m), "{server}", m.guildName);
  }

  /**
   * The fallback sentence is itself run through the substitution, so a guild
   * named `{user}` has its name replaced by the member's mention.
   */
  lemma {:induction false} DefaultSubstitutesGuildName(m: Member)
    requires m.guildName == "{user}" && '{' !in m.id
    ensures Render(None, WelcomeDefault(m), m) == "Welcome to " + Mention(m.id) + ", " + Mention(m.id) + "!"
  {
    var r := "Welcome to " + Mention(m.id) + ", " + Mention(m.id) + "!";
    BracedNameReplaced(m, r);
    NoServerInMentions(m.id, r, m.guildName);
    RenderFallback(WelcomeDefault(m), m, r);
  }

  lemma NoServerInMentions(id: string, r: string, name: string)
    requires '{' !in id
    requires r == "Welcome to " + Mention(id) + ", " + Mention(id) + "!"
    ensures ReplaceFirst(r, "{server}", name) == r
  {
    NoOccurrenceWithoutFirstChar(r, "{server}");
    ReplaceFirstAbsent(r, "{server}", name);
  }

  lemma BracedNameReplaced(m: Member, r: string)
    requires m.guildName == "{user}"
    requires r == "Welcome to " + Mention(m.id) + ", " + Mention(m.id) + "!"
    ensures ReplaceFirst(WelcomeDefault(m), "{user}", Mention(m.id)) == r
  {
    Regroup("Welcome to " + m.guildName, ", ", Mention(m.id), "!");
    UserFirst("Welcome to ", ", " + Mention(m.id) + "!", Mention(m.id));
    Regroup("Welcome to " + Mention(m.id), ", ", Mention(m.id), "!");
  }

  /** `Render` without a custom template is the two substitutions applied to the fallback. */
  lemma RenderFallback(f: string, m: Member, x: string)
    requires ReplaceFirst(ReplaceFirst(f, "{user}", Mention(m.id)), "{server}", m.guildName) == x
    ensures Render(None, f, m) == x
  {
  }

  /** A `{user}` preceded by no `{` is the one replaced. */
  lemma UserFirst(pre: string, rest: string, rep: string)
    requires '{' !in pre
    ensures ReplaceFirst(pre + "{user}" + rest, "{user}", rep) == pre + rep + rest
  {
    NoEarlyOccurrence(pre, "{user}" + rest, "{user}");
    assert pre + ("{user}" + rest) == pre + "{user}" + rest;
    ReplaceFirstSplit(pre, "{user}", rep, rest);
  }
}
