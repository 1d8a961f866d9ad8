/**
 * The message handler (index.cjs:231-283) as a function of the AFK records,
 * the chat and filter configuration and the incoming message: the effects it
 * produces, in order, and the AFK records it leaves behind.
 */
module Messages {
  import opened Wrappers
  import opened Text
  import opened Filters
  import opened Keywords

  datatype User = User(id: string, username: string, tag: string, bot: bool)

  /** An incoming message; `guildId` is `None` for a direct message. */
  datatype Message = Message(
    author: User,
    guildId: Option<string>,
    channelId: string,
    content: string,
    mentions: seq<User>)

  /** One entry of the AFK store, keyed by user id; only its reason is read here. */
  datatype AfkRecord = AfkRecord(reason: string)

  /** One guild's entry of the chat settings; the channel may be missing. */
  datatype ChatSettings = ChatSettings(chatChannelId: Option<string>)

  /** What the handler loads from disk besides the AFK store. */
  datatype MessageConfig = MessageConfig(
    chatSettings: map<string, ChatSettings>,
    filters: FilterSettings,
    denylist: seq<string>)

  /**
   * What the handler does, in order. `WelcomeBack` and `AfkNotice` are
   * replies to the message; `ChatReply` and `FilterNotice` are sent to its
   * channel; `Delete` removes the message.
   */
  datatype Effect =
    | WelcomeBack(username: string)
    | AfkNotice(user: User, reason: string)
    | ChatReply(response: string)
    | Delete
    | FilterNotice(violation: Violation)

  /**
   * The text an effect posts, given the message's author: every reply and
   * every channel message has some text, and only a deletion posts none.
   */
  function EffectText(e: Effect, author: User): (r: string)
    ensures r == "" <==> e.Delete?
  {
    match e
    case WelcomeBack(name) => "Welcome back, " + name + "! We've missed you!"
    case AfkNotice(u, reason) => u.tag + " is currently AFK: " + reason
    case ChatReply(response) => response + " " + Mention(author.id)
    case Delete => ""
    case FilterNotice(v) => Mention(author.id) + ", " + NoticeText(v)
  }

  /** Messages from bots and from outside a guild are dropped at once. */
  predicate Ignored(m: Message)
  {
    m.author.bot || m.guildId.None?
  }

  /** The AFK store after the message: its author is no longer away. */
  function AfkAfter(afk: map<string, AfkRecord>, m: Message): (r: map<string, AfkRecord>)
    ensures Ignored(m) ==> r == afk
    ensures !Ignored(m) ==> r.Keys == afk.Keys - {m.author.id}
    ensures forall id :: id in r ==> r[id] == afk[id]
  {
    if Ignored(m) then afk else afk - {m.author.id}
  }

  /**
   * No two mentioned users share an id: `mentions.users` is a collection
   * keyed by user id.
   */
  predicate DistinctIds(users: seq<User>)
  {
    forall p, q :: 0 <= p < q < |users| ==> users[p].id != users[q].id
  }

  /**
   * The notices follow the mentions' order: a notice for the user mentioned
   * at `p` comes before one for the user mentioned at `q` only if `p < q`. In
   * particular no user has two notices.
   */
  predicate InMentionOrder(r: seq<Effect>, users: seq<User>)
  {
    forall i, j, p, q ::
      (&& 0 <= i < j < |r| && 0 <= p < |users| && 0 <= q < |users|
       && r[i].AfkNotice? && r[j].AfkNotice? && r[i].user == users[p] && r[j].user == users[q])
      ==> p < q
  }

  /**
   * One notice per mentioned user who is away, with their stored reason, in
   * mention order.
   */
  function MentionNotices(afk: map<string, AfkRecord>, users: seq<User>): (r: seq<Effect>)
    ensures |r| <= |users|
    ensures forall e :: e in r ==> e.AfkNotice? && e.user in users && e.user.id in afk && e.reason == afk[e.user.id].reason
    ensures forall u :: u in users && u.id in afk ==> AfkNotice(u, afk[u.id].reason) in r
    ensures DistinctIds(users) ==> InMentionOrder(r, users)
  {
    if users == [] then []
    else
      var u := users[|users| - 1];
      var front := users[..|users| - 1];
      assert users == front + [u];
      var rest := MentionNotices(afk, front);
      var r := rest + (if u.id in afk then [AfkNotice(u, afk[u.id].reason)] else []);
      MentionOrderStep(afk, users, rest, r);
      r
  }

  /** The order clause of MentionNotices for `users`, from the one for all but its last mention. */
  lemma {:induction false} MentionOrderStep(afk: map<string, AfkRecord>, users: seq<User>, rest: seq<Effect>, r: seq<Effect>)
    requires |users| >= 1
    requires forall e :: e in rest ==> e.AfkNotice? && e.user in users[..|users| - 1]
    requires DistinctIds(users[..|users| - 1]) ==> InMentionOrder(rest, users[..|users| - 1])
    requires var u := users[|users| - 1];
      r == rest || (u.id in afk && r == rest + [AfkNotice(u, afk[u.id].reason)])
    ensures DistinctIds(users) ==> InMentionOrder(r, users)
  {
    if DistinctIds(users) {
      var front := users[..|users| - 1];
      var last := |users| - 1;
      assert DistinctIds(front) by {
        forall p, q | 0 <= p < q < |front|
          ensures front[p].id != front[q].id
        {
          assert front[p] == users[p] && front[q] == users[q];
        }
      }
      forall i, j, p, q | 0 <= i < j < |r| && 0 <= p < |users| && 0 <= q < |users|
        && r[i].AfkNotice? && r[j].AfkNotice? && r[i].user == users[p] && r[j].user == users[q]
        ensures p < q
      {
        assert r[i] == rest[i] && rest[i] in rest;
        var p' :| 0 <= p' < |front| && front[p'] == rest[i].user;
        assert users[p'] == front[p'];
        assert p == p';
        if j < |rest| {
          assert r[j] == rest[j] && rest[j] in rest;
          var q' :| 0 <= q' < |front| && front[q'] == rest[j].user;
          assert users[q'] == front[q'];
          assert q == q';
        } else {
          assert r[j].user == users[last];
          assert q == last;
        }
      }
    }
  }

  /** The `mentions.users.forEach` loop, collecting its replies. */
  method CollectMentionNotices(afk: map<string, AfkRecord>, users: seq<User>) returns (notices: seq<Effect>)
    ensures notices == MentionNotices(afk, users)
  {
    notices := [];
    for i := 0 to |users|
      invariant notices == MentionNotices(afk, users[..i])
    {
      MentionNoticesSnoc(afk, users, i);
      if users[i].id in afk {
        notices := notices + [AfkNotice(users[i], afk[users[i].id].reason)];
      }
    }
    assert users[..|users|] == users;
  }

  /** The notices for one more mention are those before it and then its own, if any. */
  lemma MentionNoticesSnoc(afk: map<string, AfkRecord>, users: seq<User>, i: nat)
    requires i < |users|
    ensures MentionNotices(afk, users[..i + 1]) == MentionNotices(afk, users[..i])
      + (if users[i].id in afk then [AfkNotice(users[i], afk[users[i].id].reason)] else [])
  {
    assert users[..i + 1][..i] == users[..i];
  }

  /** The guild has chat settings and the message is in its chat channel. */
  predicate InChatChannel(cfg: MessageConfig, m: Message)
    requires m.guildId.Some?
  {
    var g := m.guildId.value;
    g in cfg.chatSettings && cfg.chatSettings[g].chatChannelId == Some(m.channelId)
  }

  /**
   * The last part of the handler, on the lower-cased content: in the chat
   * channel, a keyword hit answers and ends the handler; otherwise the first
   * filter that fires deletes the message and posts its notice.
   */
  function Respond(cfg: MessageConfig, m: Message, content: string, roll: nat): (r: seq<Effect>)
    requires m.guildId.Some?
    ensures || r == []
            || (|r| == 1 && r[0].ChatReply?)
            || (|r| == 2 && r[0] == Delete && r[1].FilterNotice?)
  {
    if InChatChannel(cfg, m) && FirstKeyword(content).Some? then
      [ChatReply(Pick(RepliesOf(FirstKeyword(content).value), roll))]
    else
      match Evaluate(cfg.filters, cfg.denylist, content)
      case None => []
      case Some(v) => [Delete, FilterNotice(v)]
  }

  /** Everything the handler does for one message, in order. */
  function MessageEffects(afk: map<string, AfkRecord>, cfg: MessageConfig, m: Message, roll: nat): (r: seq<Effect>)
    ensures Ignored(m) ==> r == []
    ensures |r| <= 1 + |m.mentions| + 2
    ensures !Ignored(m) && m.author.id in afk ==> |r| >= 1 && r[0] == WelcomeBack(m.author.username)
  {
    if Ignored(m) then []
    else
      (if m.author.id in afk then [WelcomeBack(m.author.username)] else [])
      + MentionNotices(AfkAfter(afk, m), m.mentions)
      + Respond(cfg, m, Lower(m.content), roll)
  }

  /** Bot and direct messages change nothing and produce nothing. */
  lemma IgnoredIsSilent(afk: map<string, AfkRecord>, cfg: MessageConfig, m: Message, roll: nat)
    requires Ignored(m)
    ensures MessageEffects(afk, cfg, m, roll) == [] && AfkAfter(afk, m) == afk
  {
  }

  /**
   * A returning author is welcomed back exactly once: the first message gives
   * one welcome, first of all effects, and the next one, read against the
   * updated store, gives none.
   */
  lemma {:induction false} WelcomedBackOnce(afk: map<string, AfkRecord>, cfg: MessageConfig,
                                            m: Message, next: Message, roll: nat, roll2: nat)
    requires !Ignored(m) && m.author.id in afk && next.author == m.author
    ensures MessageEffects(afk, cfg, m, roll)[0] == WelcomeBack(m.author.username)
    ensures forall i :: 1 <= i < |MessageEffects(afk, cfg, m, roll)| ==> !MessageEffects(afk, cfg, m, roll)[i].WelcomeBack?
    ensures forall e :: e in MessageEffects(AfkAfter(afk, m), cfg, next, roll2) ==> !e.WelcomeBack?
  {
    var effects := MessageEffects(afk, cfg, m, roll);
    var notices := MentionNotices(AfkAfter(afk, m), m.mentions);
    var rest := Respond(cfg, m, Lower(m.content), roll);
    assert effects == [WelcomeBack(m.author.username)] + (notices + rest);
    forall i | 1 <= i < |effects|
      ensures !effects[i].WelcomeBack?
    {
      assert effects[i] in notices + rest;
    }
    NoWelcomeWhenPresent(AfkAfter(afk, m), cfg, next, roll2);
  }

  /** An author with no AFK record is not welcomed back. */
  lemma {:induction false} NoWelcomeWhenPresent(afk: map<string, AfkRecord>, cfg: MessageConfig, m: Message, roll: nat)
    requires m.author.id !in afk
    ensures forall e :: e in MessageEffects(afk, cfg, m, roll) ==> !e.WelcomeBack?
  {
    if !Ignored(m) {
      var notices := MentionNotices(AfkAfter(afk, m), m.mentions);
      var rest := Respond(cfg, m, Lower(m.content), roll);
      assert MessageEffects(afk, cfg, m, roll) == notices + rest;
    }
  }

  /**
   * The AFK notices are exactly those for mentioned users other than the
   * author who are away, with their stored reason: the author's own record is
   * removed before the mentions are read.
   */
  lemma {:induction false} AfkNoticesExactly(afk: map<string, AfkRecord>, cfg: MessageConfig, m: Message, roll: nat, u: User, reason: string)
    requires !Ignored(m)
    ensures AfkNotice(u, reason) in MessageEffects(afk, cfg, m, roll)
        <==> u in m.mentions && u.id != m.author.id && u.id in afk && reason == afk[u.id].reason
  {
    var welcome := if m.author.id in afk then [WelcomeBack(m.author.username)] else [];
    var notices := MentionNotices(AfkAfter(afk, m), m.mentions);
    var rest := Respond(cfg, m, Lower(m.content), roll);
    assert MessageEffects(afk, cfg, m, roll) == welcome + notices + rest;
    assert AfkNotice(u, reason) in welcome + notices + rest <==> AfkNotice(u, reason) in notices;
  }

  /** Mentions are read only: the store keeps every record except the author's. */
  lemma MentionsKeepAfk(afk: map<string, AfkRecord>, m: Message, u: User)
    requires !Ignored(m) && u in m.mentions && u.id in afk && u.id != m.author.id
    ensures u.id in AfkAfter(afk, m) && AfkAfter(afk, m)[u.id] == afk[u.id]
  {
  }

  /** The tail of the effects, after the welcome and the notices. */
  lemma {:induction false} EffectsSplit(afk: map<string, AfkRecord>, cfg: MessageConfig, m: Message, roll: nat)
    requires !Ignored(m)
    ensures var r := Respond(cfg, m, Lower(m.content), roll);
      && |r| <= |MessageEffects(afk, cfg, m, roll)|
      && MessageEffects(afk, cfg, m, roll)[|MessageEffects(afk, cfg, m, roll)| - |r|..] == r
      && (forall e :: e in MessageEffects(afk, cfg, m, roll) && (e.ChatReply? || e.Delete? || e.FilterNotice?) ==> e in r)
      && forall i :: 0 <= i < |MessageEffects(afk, cfg, m, roll)| - |r| ==>
           MessageEffects(afk, cfg, m, roll)[i].WelcomeBack? || MessageEffects(afk, cfg, m, roll)[i].AfkNotice?
  {
    var welcome := if m.author.id in afk then [WelcomeBack(m.author.username)] else [];
    var notices := MentionNotices(AfkAfter(afk, m), m.mentions);
    var r := Respond(cfg, m, Lower(m.content), roll);
    var front := welcome + notices;
    assert MessageEffects(afk, cfg, m, roll) == front + r;
    forall e: Effect | e in front + r && (e.ChatReply? || e.Delete? || e.FilterNotice?)
      ensures e in r
    {
      assert e !in front;
    }
    forall i | 0 <= i < |front|
      ensures (front + r)[i].WelcomeBack? || (front + r)[i].AfkNotice?
    {
      assert (front + r)[i] == front[i] && front[i] in front;
    }
  }

  /**
   * In the chat channel a keyword hit is the last effect and no filter runs:
   * the message is neither deleted nor flagged.
   */
  lemma {:induction false} KeywordPreemptsFilters(afk: map<string, AfkRecord>, cfg: MessageConfig, m: Message, roll: nat)
    requires !Ignored(m) && InChatChannel(cfg, m) && FirstKeyword(Lower(m.content)).Some?
    ensures var effects := MessageEffects(afk, cfg, m, roll);
      && effects[|effects| - 1] == ChatReply(Pick(RepliesOf(FirstKeyword(Lower(m.content)).value), roll))
      && Delete !in effects
      && forall e :: e in effects ==> !e.FilterNotice?
  {
    EffectsSplit(afk, cfg, m, roll);
  }

  /** A chat reply is only ever made in the guild's configured chat channel, and only on a keyword. */
  lemma {:induction false} ChatReplyOnlyInChatChannel(afk: map<string, AfkRecord>, cfg: MessageConfig, m: Message, roll: nat, e: Effect)
    requires e in MessageEffects(afk, cfg, m, roll) && e.ChatReply?
    ensures !Ignored(m) && InChatChannel(cfg, m)
    ensures FirstKeyword(Lower(m.content)).Some?
    ensures e.response in RepliesOf(FirstKeyword(Lower(m.content)).value).All()
  {
    if Ignored(m) {
      assert false;
    }
    EffectsSplit(afk, cfg, m, roll);
  }

  /** The responder deletes exactly when no chat reply preempts and a filter fires, then posts that filter's notice. */
  lemma RespondDeletes(cfg: MessageConfig, m: Message, content: string, roll: nat)
    requires m.guildId.Some?
    ensures var r := Respond(cfg, m, content, roll);
      && (Delete in r <==>
            !(InChatChannel(cfg, m) && FirstKeyword(content).Some?)
            && Evaluate(cfg.filters, cfg.denylist, content).Some?)
      && (Delete in r ==> r == [Delete, FilterNotice(Evaluate(cfg.filters, cfg.denylist, content).value)])
  {
  }

  /**
   * The message is deleted exactly when no chat reply preempts the filters
   * and some enabled filter fires; then the deletion is followed by that
   * filter's notice and nothing else.
   */
  lemma {:induction false} DeleteExactlyOnViolation(afk: map<string, AfkRecord>, cfg: MessageConfig, m: Message, roll: nat)
    requires !Ignored(m)
    ensures var effects := MessageEffects(afk, cfg, m, roll);
      var content := Lower(m.content);
      && (Delete in effects <==>
            !(InChatChannel(cfg, m) && FirstKeyword(content).Some?)
            && Evaluate(cfg.filters, cfg.denylist, content).Some?)
      && (Delete in effects ==>
            effects[|effects| - 2..] == [Delete, FilterNotice(Evaluate(cfg.filters, cfg.denylist, content).value)])
  {
    var effects := MessageEffects(afk, cfg, m, roll);
    var content := Lower(m.content);
    var r := Respond(cfg, m, content, roll);
    EffectsSplit(afk, cfg, m, roll);
    RespondDeletes(cfg, m, content, roll);
    assert Delete in r ==> Delete in effects by {
      if Delete in r {
        assert r[0] == Delete;
        assert effects[|effects| - |r|] == r[0];
      }
    }
  }

  /**
   * A message is deleted at most once and gets at most one filter notice:
   * the notice is the last effect and comes right after the deletion.
   */
  lemma {:induction false} AtMostOneDeleteAndNotice(afk: map<string, AfkRecord>, cfg: MessageConfig, m: Message, roll: nat)
    ensures var effects := MessageEffects(afk, cfg, m, roll);
      && (forall i, j :: 0 <= i < j < |effects| ==> !(effects[i].Delete? && effects[j].Delete?))
      && forall i :: 0 <= i < |effects| && effects[i].FilterNotice? ==>
           i == |effects| - 1 && i >= 1 && effects[i - 1] == Delete
  {
    if !Ignored(m) {
      var effects := MessageEffects(afk, cfg, m, roll);
      EffectsSplit(afk, cfg, m, roll);
      var r := Respond(cfg, m, Lower(m.content), roll);
      var k := |effects| - |r|;
      forall i | 0 <= i < |effects| && (effects[i].Delete? || effects[i].FilterNotice?)
        ensures effects[i].Delete? ==> i == k
        ensures effects[i].FilterNotice? ==> i == k + 1 && i == |effects| - 1 && effects[i - 1] == Delete
      {
        assert effects[i] == r[i - k];
        if effects[i].FilterNotice? {
          assert effects[k] == r[0];
        }
      }
    }
  }
}
