/**
 * The two `interactionCreate` listeners (index.cjs:125-191 and 285-331):
 * slash-command dispatch, button routing by custom id, and the staff
 * application modal. Each listener is a function of the interaction, the
 * loaded command modules and the member's roles; the router runs the first
 * listener and then the second, in the order they were registered.
 */
module Interactions {
  import opened Wrappers
  import opened Text

  /** How a call into an external command module ends. */
  datatype Outcome = Completes | Throws

  /** The two `interactionCreate` listeners, in registration order. */
  datatype Listener = First | Second

  /**
   * A loaded command module: how its `execute` ends when the first listener
   * calls it and when the second one calls it again on the same interaction,
   * and, if it has one, how its `handleButtonInteraction` ends.
   */
  datatype CommandModule = CommandModule(executeInFirst: Outcome, executeInSecond: Outcome,
                                         handleButtonInteraction: Option<Outcome>)
  {
    function ExecuteIn(l: Listener): Outcome
    {
      if l == First then executeInFirst else executeInSecond
    }
  }

  /** One record of `applications.json`. */
  datatype Application = Application(name: string, age: string, experience: string, reason: string, role: string)

  datatype Interaction =
    | Command(commandName: string)
    | Button(customId: string)
    | ModalSubmit(customId: string, fields: map<string, string>)

  /** The modal shown for `apply_button`: its custom id and its text inputs' ids, in order. */
  datatype Modal = Modal(customId: string, inputIds: seq<string>)

  const ApplicationModal := Modal("resume_modal", ["nameInput", "ageInput", "experienceInput", "reasonInput", "roleInput"])

  /** What the listeners do, in order; every `Reply` is ephemeral. */
  datatype Effect =
    | Execute(commandName: string)
    | HandleTicketButton(customId: string)
    | Reply(text: string)
    | ShowModal(modal: Modal)

  /** The bot's side of routing: the loaded commands and the verify role id, if set. */
  datatype RouterConfig = RouterConfig(commands: map<string, CommandModule>, verifyRoleId: Option<string>)

  /** The guild's roles (id to name) and the ids of the roles the member holds. */
  datatype Member = Member(guildRoles: map<string, string>, roles: set<string>)

  /** The outcome of one listener, or of both: effects, the member's roles after, the applications after. */
  datatype Routed = Routed(effects: seq<Effect>, roles: set<string>, applications: seq<Application>)

  const CommandError := "Error executing command!"
  const TicketError := "There was an error handling this interaction."
  const RoleNotFound := "Role not found."
  const VerifyRoleUnset := "Verification role is not set. Please contact an administrator."
  const VerifyRoleGone := "The specified role no longer exists. Please contact an administrator."
  const ApplicationSubmitted := "Your application has been submitted."

  function RoleRemovedText(name: string): string
  {
    "The " + name + " role has been removed from you."
  }

  function RoleGivenText(name: string): string
  {
    "You have been given the " + name + " role!"
  }

  function VerifiedText(name: string): string
  {
    "You have been verified and assigned the **" + name + "** role!"
  }

  /**
   * A slash command in listener `l`: nothing when no module has that name;
   * else its `execute`, followed by the generic reply when that call throws.
   */
  function DispatchCommand(commands: map<string, CommandModule>, name: string, l: Listener): (r: seq<Effect>)
    ensures name !in commands ==> r == []
    ensures name in commands ==> |r| >= 1 && r[0] == Execute(name)
    ensures name in commands ==> (Reply(CommandError) in r <==> commands[name].ExecuteIn(l) == Throws)
  {
    if name !in commands then []
    else if commands[name].ExecuteIn(l) == Throws then [Execute(name), Reply(CommandError)]
    else [Execute(name)]
  }

  /**
   * `create-ticket` and `close-ticket` go to the `setup-ticket` module's button
   * handler; a missing module or handler throws before the call, and any
   * throw is answered with the generic error reply.
   */
  function TicketButton(commands: map<string, CommandModule>, customId: string): (r: seq<Effect>)
    ensures Reply(TicketError) in r <==>
      !("setup-ticket" in commands && commands["setup-ticket"].handleButtonInteraction == Some(Completes))
    ensures HandleTicketButton(customId) in r <==>
      "setup-ticket" in commands && commands["setup-ticket"].handleButtonInteraction.Some?
  {
    if "setup-ticket" !in commands then [Reply(TicketError)]
    else match commands["setup-ticket"].handleButtonInteraction
      case None => [Reply(TicketError)]
      case Some(Throws) => [HandleTicketButton(customId), Reply(TicketError)]
      case Some(Completes) => [HandleTicketButton(customId)]
  }

  /**
   * `const [action, roleId] = customId.split('_')`: the first piece, and the
   * second when there is one (`undefined` otherwise).
   */
  function ParseCustomId(customId: string): (r: (string, Option<string>))
    ensures var parts := Split(customId, '_');
      r.0 == parts[0] && (r.1.Some? <==> |parts| >= 2) && (r.1.Some? ==> r.1.value == parts[1])
  {
    var parts := Split(customId, '_');
    (parts[0], if |parts| >= 2 then Some(parts[1]) else None)
  }

  /**
   * A `toggle_<roleId>` button: an unknown role is refused; otherwise the
   * member loses the role if they hold it and gains it if not, and is told
   * which.
   */
  function ToggleRole(member: Member, roleId: Option<string>): (r: (set<string>, Effect))
    ensures roleId.None? || roleId.value !in member.guildRoles ==> r == (member.roles, Reply(RoleNotFound))
    ensures roleId.Some? && roleId.value in member.guildRoles ==>
      && (roleId.value in r.0 <==> roleId.value !in member.roles)
      && r.0 - {roleId.value} == member.roles - {roleId.value}
      && r.1 == Reply(if roleId.value in member.roles then RoleRemovedText(member.guildRoles[roleId.value])
                      else RoleGivenText(member.guildRoles[roleId.value]))
  {
    if roleId.None? || roleId.value !in member.guildRoles then (member.roles, Reply(RoleNotFound))
    else
      var id := roleId.value;
      var name := member.guildRoles[id];
      if id in member.roles then (member.roles - {id}, Reply(RoleRemovedText(name)))
      else (member.roles + {id}, Reply(RoleGivenText(name)))
  }

  /**
   * The five inputs of a submitted application; reading an input the
   * submission lacks throws, so nothing is recorded.
   */
  function ReadApplication(fields: map<string, string>): (r: Option<Application>)
    ensures r.Some? <==> forall id :: id in ApplicationModal.inputIds ==> id in fields
    ensures r.Some? ==> r.value == Application(fields["nameInput"], fields["ageInput"],
      fields["experienceInput"], fields["reasonInput"], fields["roleInput"])
  {
    if "nameInput" in fields && "ageInput" in fields && "experienceInput" in fields
       && "reasonInput" in fields && "roleInput" in fields
    then Some(Application(fields["nameInput"], fields["ageInput"], fields["experienceInput"],
                          fields["reasonInput"], fields["roleInput"]))
    else None
  }

  /**
   * The first listener: only a button changes the member's roles, and only a
   * modal submission records an application, at most one.
   */
  function FirstListener(cfg: RouterConfig, member: Member, applications: seq<Application>, i: Interaction): (r: Routed)
    ensures !i.Button? ==> r.roles == member.roles
    ensures !i.ModalSubmit? ==> r.applications == applications
    ensures applications <= r.applications && |r.applications| <= |applications| + 1
  {
    match i
    case Command(name) => Routed(DispatchCommand(cfg.commands, name, First), member.roles, applications)
    case Button(id) =>
      var ticket := if id == "create-ticket" || id == "close-ticket" then TicketButton(cfg.commands, id) else [];
      var (action, roleId) := ParseCustomId(id);
      if action == "toggle" then
        var (roles, reply) := ToggleRole(member, roleId);
        Routed(ticket + [reply], roles, applications)
      else if id == "apply_button" then
        Routed(ticket + [ShowModal(ApplicationModal)], member.roles, applications)
      else
        Routed(ticket, member.roles, applications)
    case ModalSubmit(id, fields) =>
      if id != ApplicationModal.customId then Routed([], member.roles, applications)
      else match ReadApplication(fields)
        case None => Routed([], member.roles, applications)
        case Some(app) => Routed([Reply(ApplicationSubmitted)], member.roles, applications + [app])
  }

  /**
   * The `verify_button`: refused when no verify role is configured or the
   * guild no longer has it; otherwise the role is added (never removed).
   */
  function VerifyButton(verifyRoleId: Option<string>, member: Member): (r: (set<string>, Effect))
    ensures member.roles <= r.0
    ensures !Truthy(verifyRoleId) ==> r == (member.roles, Reply(VerifyRoleUnset))
    ensures Truthy(verifyRoleId) && verifyRoleId.value !in member.guildRoles ==> r == (member.roles, Reply(VerifyRoleGone))
    ensures Truthy(verifyRoleId) && verifyRoleId.value in member.guildRoles ==>
      r == (member.roles + {verifyRoleId.value}, Reply(VerifiedText(member.guildRoles[verifyRoleId.value])))
  {
    if !Truthy(verifyRoleId) then (member.roles, Reply(VerifyRoleUnset))
    else if verifyRoleId.value !in member.guildRoles then (member.roles, Reply(VerifyRoleGone))
    else
      var id := verifyRoleId.value;
      (member.roles + {id}, Reply(VerifiedText(member.guildRoles[id])))
  }

  /**
   * The second listener: it never records an application, and only the
   * verify button changes the member's roles, only by adding.
   */
  function SecondListener(cfg: RouterConfig, member: Member, applications: seq<Application>, i: Interaction): (r: Routed)
    ensures r.applications == applications
    ensures member.roles <= r.roles
    ensures i != Button("verify_button") ==> r.roles == member.roles
  {
    match i
    case Command(name) => Routed(DispatchCommand(cfg.commands, name, Second), member.roles, applications)
    case Button(id) =>
      if id == "verify_button" then
        var (roles, reply) := VerifyButton(cfg.verifyRoleId, member);
        Routed([reply], roles, applications)
      else Routed([], member.roles, applications)
    case ModalSubmit(_, _) => Routed([], member.roles, applications)
  }

  /** Both listeners, in registration order, the second seeing the first's changes. */
  function Route(cfg: RouterConfig, member: Member, applications: seq<Application>, i: Interaction): (r: Routed)
    ensures i.Command? || i.ModalSubmit? ==> r.roles == member.roles
    ensures applications <= r.applications && |r.applications| <= |applications| + 1
  {
    var first := FirstListener(cfg, member, applications, i);
    var second := SecondListener(cfg, member.(roles := first.roles), first.applications, i);
    Routed(first.effects + second.effects, second.roles, second.applications)
  }

  /** A command no module answers to does nothing at all. */
  lemma UnknownCommandIsNoOp(cfg: RouterConfig, member: Member, applications: seq<Application>, name: string)
    requires name !in cfg.commands
    ensures Route(cfg, member, applications, Command(name)) == Routed([], member.roles, applications)
  {
  }

  /**
   * A known command runs once per listener, and each listener answers with
   * its own generic reply exactly when its own call throws; the two calls
   * may end differently.
   */
  lemma CommandRunsTwice(cfg: RouterConfig, member: Member, applications: seq<Application>, name: string)
    requires name in cfg.commands
    ensures var r := Route(cfg, member, applications, Command(name));
      var c := cfg.commands[name];
      && r.roles == member.roles && r.applications == applications
      && r.effects == [Execute(name)] + (if c.executeInFirst == Throws then [Reply(CommandError)] else [])
                      + [Execute(name)] + (if c.executeInSecond == Throws then [Reply(CommandError)] else [])
  {
  }

  /** Splitting `toggle_<roleId>` recovers the role id when it holds no `_`. */
  lemma {:induction false} ToggleIdRoundTrip(roleId: string)
    requires '_' !in roleId
    ensures ParseCustomId("toggle_" + roleId) == ("toggle", Some(roleId))
  {
    assert "toggle_" + roleId == "toggle" + ['_'] + roleId;
    SplitPiece("toggle", roleId, '_');
    SplitPiece(roleId, "", '_');
  }

  /** A fixed custom id without `_` parses to itself and no role id. */
  lemma {:induction false} PlainIdParse(id: string)
    requires '_' !in id
    ensures ParseCustomId(id) == (id, None)
  {
    SplitPiece(id, "", '_');
  }

  /** `apply_button` and `verify_button` split into `apply` and `verify`, so neither is taken for a toggle. */
  lemma {:induction false} UnderscoredIdParse(head: string, tail: string)
    requires '_' !in head && '_' !in tail
    ensures ParseCustomId(head + "_" + tail) == (head, Some(tail))
  {
    assert head + "_" + tail == head + ['_'] + tail;
    SplitPiece(head, tail, '_');
    SplitPiece(tail, "", '_');
  }

  /** Toggling the same existing role twice leaves the member's roles as they were. */
  lemma ToggleTwiceRestores(member: Member, roleId: string)
    requires roleId in member.guildRoles
    ensures ToggleRole(member.(roles := ToggleRole(member, Some(roleId)).0), Some(roleId)).0 == member.roles
  {
  }

  /** A toggle button: the ticket and modal branches stay out, and the role flips as `ToggleRole` says. */
  lemma {:induction false} ToggleButtonRoute(cfg: RouterConfig, member: Member, applications: seq<Application>, roleId: string)
    requires '_' !in roleId
    ensures var r := Route(cfg, member, applications, Button("toggle_" + roleId));
      var t := ToggleRole(member, Some(roleId));
      r == Routed([t.1], t.0, applications)
  {
    ToggleIdRoundTrip(roleId);
    var id := "toggle_" + roleId;
    assert id[..7] == "toggle_";
    assert id != "create-ticket" && id != "close-ticket" && id != "verify_button";
  }

  /**
   * `apply_button` and `verify_button` are none of the ticket ids, differ from
   * each other, and split to `apply` and `verify`, so neither is taken for a
   * toggle.
   */
  lemma ButtonIdFacts(head: string)
    requires head == "apply" || head == "verify"
    ensures var id := if head == "apply" then "apply_button" else "verify_button";
      && id == head + "_button"
      && id != "create-ticket" && id != "close-ticket"
      && ParseCustomId(id).0 == head
  {
    var id := if head == "apply" then "apply_button" else "verify_button";
    assert id == head + "_" + "button";
    UnderscoredIdParse(head, "button");
  }

  /** The ticket ids are neither `apply_button` nor `verify_button`, and are not taken for a toggle. */
  lemma TicketIdFacts(id: string)
    requires id == "create-ticket" || id == "close-ticket"
    ensures id != "apply_button" && id != "verify_button"
    ensures ParseCustomId(id).0 == id && ParseCustomId(id).0 != "toggle"
  {
    PlainIdParse(id);
  }

  /** The verify button only ever adds the configured role. */
  lemma {:induction false} VerifyOnlyAdds(cfg: RouterConfig, member: Member, applications: seq<Application>)
    ensures var r := Route(cfg, member, applications, Button("verify_button"));
      && member.roles <= r.roles
      && r.roles - member.roles <= (if cfg.verifyRoleId.Some? then {cfg.verifyRoleId.value} else {})
      && r.applications == applications
  {
    ButtonIdFacts("verify");
    assert FirstListener(cfg, member, applications, Button("verify_button")) == Routed([], member.roles, applications);
  }

  /**
   * A button whose id is none of the fixed ones and does not start a toggle
   * does nothing.
   */
  lemma UnknownButtonIsNoOp(cfg: RouterConfig, member: Member, applications: seq<Application>, id: string)
    requires id !in {"create-ticket", "close-ticket", "apply_button", "verify_button"}
    requires ParseCustomId(id).0 != "toggle"
    ensures Route(cfg, member, applications, Button(id)) == Routed([], member.roles, applications)
  {
  }

  /** `apply_button` shows the application modal and changes nothing. */
  lemma {:induction false} ApplyShowsModal(cfg: RouterConfig, member: Member, applications: seq<Application>)
    ensures Route(cfg, member, applications, Button("apply_button"))
      == Routed([ShowModal(ApplicationModal)], member.roles, applications)
  {
    ButtonIdFacts("apply");
    assert FirstListener(cfg, member, applications, Button("apply_button"))
      == Routed([ShowModal(ApplicationModal)], member.roles, applications);
  }

  /** The ticket buttons reach the ticket module and nothing else. */
  lemma {:induction false} TicketButtonRoute(cfg: RouterConfig, member: Member, applications: seq<Application>, id: string)
    requires id == "create-ticket" || id == "close-ticket"
    ensures Route(cfg, member, applications, Button(id))
      == Routed(TicketButton(cfg.commands, id), member.roles, applications)
  {
    TicketIdFacts(id);
    assert FirstListener(cfg, member, applications, Button(id))
      == Routed(TicketButton(cfg.commands, id), member.roles, applications);
  }

  /**
   * A submission of the application modal appends one record when every
   * input is present, and otherwise changes nothing.
   */
  lemma ModalAppendsOne(cfg: RouterConfig, member: Member, applications: seq<Application>, fields: map<string, string>)
    ensures var r := Route(cfg, member, applications, ModalSubmit("resume_modal", fields));
      && r.roles == member.roles
      && (ReadApplication(fields).Some? ==>
            r.applications == applications + [ReadApplication(fields).value]
            && r.effects == [Reply(ApplicationSubmitted)])
      && (ReadApplication(fields).None? ==> r.applications == applications && r.effects == [])
  {
  }

  /** The map a submission of the shown modal carries: each input id to the value entered in it. */
  function Submission(values: seq<string>): (fields: map<string, string>)
    requires |values| == |ApplicationModal.inputIds|
    ensures forall k :: 0 <= k < |values| ==>
      ApplicationModal.inputIds[k] in fields && fields[ApplicationModal.inputIds[k]] == values[k]
  {
    var ids := ApplicationModal.inputIds;
    map k | 0 <= k < |ids| :: ids[k] := values[k]
  }

  /**
   * Filling in the shown modal and submitting it records exactly the values
   * entered, input by input.
   */
  lemma {:induction false} ModalRoundTrip(values: seq<string>)
    requires |values| == |ApplicationModal.inputIds|
    ensures ReadApplication(Submission(values)) == Some(Application(values[0], values[1], values[2], values[3], values[4]))
  {
    var ids := ApplicationModal.inputIds;
    var fields := Submission(values);
    assert ids[0] in fields && ids[1] in fields && ids[2] in fields && ids[3] in fields && ids[4] in fields;
  }
}
