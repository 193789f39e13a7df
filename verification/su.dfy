/**
 * The su plugin: a map from a real user to the account (and optionally the
 * channel) they act as, the rewrite every incoming message goes through
 * before dispatch, and the state-changing branches of `mb.su` and
 * `mb.whoami`.
 */
module SuPlugin {
  import opened Text

  /** `Su(user_to, override_channel)` */
  datatype Su = Su(userTo: string, overrideChannel: Option<string>)

  type Sessions = map<string, Su>

  /** A chat message; `realUser` is `None` until the rewrite has set the attribute. */
  datatype Message = Message(text: string, user: string, channel: string, realUser: Option<string>)

  /**
   * The options of `mb.su` once parsed: `-h TOPIC`, `-L`, `-c COMMAND`,
   * `-C CHANNEL` and the positional user.
   */
  datatype SuArgs = SuArgs(help: Option<string>, logout: bool, command: Option<string>, channel: Option<string>, user: string)

  /** What `mb.su` did. `Redispatched` carries the message handed to the original dispatcher. */
  datatype SuReply =
    | Refused
    | Usage
    | HelpUsage
    | HelpTopic(topic: string)
    | NoSuchTopic
    | NotSued(user: string)
    | LoggedOut
    | Redispatched(msg: Message)
    | Switched(user: string)

  /** The topics `-h` knows, with their help texts. */
  const SuHelp: map<string, string> := map[
    "c" := "Specify a command that will be invoked.",
    "command" := "Specify a command that will be invoked.",
    "h" := "Requesting help for help? LOL",
    "help" := "Requesting help for help? LOL",
    "m" := "Do nothing. Just here for compatibility",
    "p" := "Do nothing. Just here for compatibility",
    "preserve-environment" := "Do nothing. Just here for compatibility",
    "minus" := "Do nothing. Just here for compatibility",
    "l" := "Do nothing. Just here for compatibility",
    "login" := "Do nothing. Just here for compatibility",
    "shell" := "Do nothing. Just here for compatibility",
    "s" := "Do nothing. Just here for compatibility",
    "L" := "Log out",
    "logout" := "Log out, duh"]

  /** The account a message really came from: `real_user` when set, else `user`. */
  function Sender(msg: Message): string
  {
    if msg.realUser.Some? then msg.realUser.value else msg.user
  }

  /** `_call_command_handlers`: the message as the original dispatcher receives it. */
  function Impersonated(sessions: Sessions, msg: Message): Message
  {
    var m := msg.(realUser := Some(msg.user));
    if msg.user !in sessions then m
    else
      var su := sessions[msg.user];
      var m' := m.(user := su.userTo);
      if su.overrideChannel.Some? then m'.(channel := su.overrideChannel.value) else m'
  }

  /**
   * The `su.su` guard as written: it refuses only a message without
   * `real_user` whose sender lacks the permission. `missingPermissions` is
   * the outcome of `check_permissions`.
   */
  predicate GuardRefusesAsWritten(msg: Message, missingPermissions: bool)
  {
    msg.realUser.None? && missingPermissions
  }

  /** `command_su` as written: the new sessions and the reply. */
  function SuOutcomeAsWritten(sessions: Sessions, msg: Message, parsed: Option<SuArgs>, missingPermissions: bool): (Sessions, SuReply)
  {
    if GuardRefusesAsWritten(msg, missingPermissions) then (sessions, Refused) else SuCommand(sessions, msg, parsed)
  }

  /** `command_su` with the guard corrected: a sender without `su.su` is refused. */
  function SuOutcome(sessions: Sessions, msg: Message, parsed: Option<SuArgs>, missingPermissions: bool): (Sessions, SuReply)
  {
    if missingPermissions then (sessions, Refused) else SuCommand(sessions, msg, parsed)
  }

  /** The branches of `command_su` after the permission guard. */
  function SuCommand(sessions: Sessions, msg: Message, parsed: Option<SuArgs>): (Sessions, SuReply)
  {
    match parsed
      case None => (sessions, Usage)
      case Some(a) =>
        if a.help.Some? then
          (sessions, if a.help.value == "usage" then HelpUsage
                     else if a.help.value in SuHelp then HelpTopic(SuHelp[a.help.value])
                     else NoSuchTopic)
        else if a.logout then
          if Sender(msg) !in sessions then (sessions, NotSued(Sender(msg)))
          else (sessions - {Sender(msg)}, LoggedOut)
        else if a.command.Some? && a.command.value != "" then
          var channel := if a.channel.None? then msg.channel else a.channel.value;
          (sessions, Redispatched(Impersonated(sessions, Message(a.command.value, a.user, channel, None))))
        else (sessions[Sender(msg) := Su(a.user, a.channel)], Switched(a.user))
  }

  /** `command_whoami`: who is addressed, and the account reported. */
  function WhoAmI(msg: Message): (string, string)
  {
    (Sender(msg), msg.user)
  }

  // ---------------------------------------------------------------------
  // Properties of the rewrite
  // ---------------------------------------------------------------------

  /**
   * The rewrite records the incoming user as the real user; a user without
   * a session passes through otherwise unchanged, and a session replaces
   * the user and, only when it names one, the channel.
   */
  lemma ImpersonatedSpec(sessions: Sessions, msg: Message)
    ensures var m := Impersonated(sessions, msg);
      && m.realUser == Some(msg.user) && m.text == msg.text
      && (msg.user !in sessions ==> m.user == msg.user && m.channel == msg.channel)
      && (msg.user in sessions ==> m.user == sessions[msg.user].userTo)
      && (m.channel != msg.channel ==> msg.user in sessions && sessions[msg.user].overrideChannel == Some(m.channel))
  {
  }

  /**
   * The rewrite is single-level: a user who acts as someone who is in turn
   * su-ed ends up as that someone, not as whoever that someone acts as.
   */
  lemma ImpersonationDoesNotChain(sessions: Sessions, msg: Message)
    requires msg.user in sessions && sessions[msg.user].userTo in sessions
    requires sessions[sessions[msg.user].userTo].userTo != sessions[msg.user].userTo
    ensures Impersonated(sessions, msg).user != Impersonated(sessions, Impersonated(sessions, msg)).user
  {
  }

  /** After the rewrite, `whoami` addresses the real sender and reports the account acted as. */
  lemma WhoAmIAfterRewrite(sessions: Sessions, msg: Message)
    ensures WhoAmI(Impersonated(sessions, msg)) ==
      (msg.user, if msg.user in sessions then sessions[msg.user].userTo else msg.user)
  {
  }

  /**
   * As written, the `su.su` permission guard only looks at messages without
   * `real_user`, and the rewrite sets it on every message: a dispatched
   * message from a sender without the permission is served in full, so
   * anyone can switch accounts.
   */
  lemma GuardNeverRefusesDispatched(sessions: Sessions, msg: Message, parsed: Option<SuArgs>)
    ensures SuOutcomeAsWritten(sessions, Impersonated(sessions, msg), parsed, true) ==
      SuCommand(sessions, Impersonated(sessions, msg), parsed)
    ensures SuOutcomeAsWritten(sessions, Impersonated(sessions, msg), parsed, true).1 != Refused
    ensures parsed.Some? && parsed.value.help.None? && !parsed.value.logout && parsed.value.command.None? ==>
      SuOutcomeAsWritten(sessions, Impersonated(sessions, msg), parsed, true) ==
        (sessions[msg.user := Su(parsed.value.user, parsed.value.channel)], Switched(parsed.value.user))
  {
  }

  /**
   * Corrected: a sender without `su.su` is refused and changes nothing,
   * whether or not the message went through the rewrite, and a sender with
   * it is never refused.
   */
  lemma GuardRefusesWithoutPermission(sessions: Sessions, msg: Message, parsed: Option<SuArgs>, missingPermissions: bool)
    ensures SuOutcome(sessions, msg, parsed, missingPermissions).1 == Refused <==> missingPermissions
    ensures missingPermissions ==> SuOutcome(sessions, msg, parsed, missingPermissions).0 == sessions
    ensures missingPermissions ==> SuOutcome(sessions, Impersonated(sessions, msg), parsed, missingPermissions) == (sessions, Refused)
  {
  }

  // ---------------------------------------------------------------------
  // Properties of `mb.su`
  // ---------------------------------------------------------------------

  /**
   * Only a plain su changes an entry other than by deletion, and it changes
   * exactly the sender's entry; a logout deletes exactly the sender's
   * entry; every other outcome leaves the sessions as they were.
   */
  lemma SuOutcomeFrame(sessions: Sessions, msg: Message, parsed: Option<SuArgs>, missingPermissions: bool)
    ensures var (s', reply) := SuOutcome(sessions, msg, parsed, missingPermissions);
      && (reply.Switched? ==> s' == sessions[Sender(msg) := Su(parsed.value.user, parsed.value.channel)])
      && (reply.LoggedOut? ==> Sender(msg) in sessions && s' == sessions - {Sender(msg)})
      && (reply.NotSued? ==> Sender(msg) !in sessions && reply.user == Sender(msg))
      && (!reply.Switched? && !reply.LoggedOut? ==> s' == sessions)
      && (forall u :: u != Sender(msg) ==> (u in s' <==> u in sessions) && (u in s' ==> s'[u] == sessions[u]))
  {
  }

  /** After a plain su, the sender's next message is rewritten to the chosen user and channel. */
  lemma SuThenRewrite(sessions: Sessions, msg: Message, a: SuArgs, next: Message)
    requires SuOutcome(sessions, msg, Some(a), false).1.Switched?
    requires next.user == Sender(msg)
    ensures var m := Impersonated(SuOutcome(sessions, msg, Some(a), false).0, next);
      && m.user == a.user && m.realUser == Some(Sender(msg))
      && m.channel == (if a.channel.Some? then a.channel.value else next.channel)
  {
  }

  /** Logging out right after a su by a user without a session restores the sessions. */
  lemma LogoutUndoesSu(sessions: Sessions, msg: Message, a: SuArgs, out: Message, b: SuArgs)
    requires Sender(msg) !in sessions
    requires SuOutcome(sessions, msg, Some(a), false).1.Switched?
    requires Sender(out) == Sender(msg) && b.help.None? && b.logout
    ensures SuOutcome(SuOutcome(sessions, msg, Some(a), false).0, out, Some(b), false) == (sessions, LoggedOut)
  {
    var s1 := sessions[Sender(msg) := Su(a.user, a.channel)];
    assert s1 - {Sender(msg)} == sessions;
  }

  /**
   * `-c` runs the command as the target user in the chosen channel, through
   * the same rewrite, and leaves the sessions alone.
   */
  lemma CommandRunsAsTarget(sessions: Sessions, msg: Message, a: SuArgs, missingPermissions: bool)
    requires SuOutcome(sessions, msg, Some(a), missingPermissions).1.Redispatched?
    ensures var (s', reply) := SuOutcome(sessions, msg, Some(a), missingPermissions);
      && s' == sessions
      && a.command.Some? && reply.msg.text == a.command.value && reply.msg.realUser == Some(a.user)
      && (a.user !in sessions ==>
            reply.msg.user == a.user && reply.msg.channel == (if a.channel.Some? then a.channel.value else msg.channel))
  {
  }

  /** `su_ed_users` and the two entry points that read or change it. */
  class SuSessions {
    var sessions: Sessions

    constructor()
      ensures sessions == map[]
    {
      sessions := map[];
    }

    /** `_call_command_handlers`: rewrite the message in place and pass it on; the sessions are read only. */
    method Rewrite(msg: Message) returns (forwarded: Message)
      ensures forwarded == Impersonated(sessions, msg)
    {
      forwarded := msg.(realUser := Some(msg.user));
      if msg.user in sessions {
        var su := sessions[msg.user];
        forwarded := forwarded.(user := su.userTo);
        if su.overrideChannel.Some? {
          forwarded := forwarded.(channel := su.overrideChannel.value);
        }
      }
    }

    /** `command_su`, with the permission guard corrected. */
    method CommandSu(msg: Message, parsed: Option<SuArgs>, missingPermissions: bool) returns (reply: SuReply)
      modifies this
      ensures (sessions, reply) == SuOutcome(old(sessions), msg, parsed, missingPermissions)
    {
      if missingPermissions {
        return Refused;
      }
      if parsed.None? {
        return Usage;
      }
      var a := parsed.value;
      if a.help.Some? {
        if a.help.value == "usage" {
          return HelpUsage;
        } else if a.help.value in SuHelp {
          return HelpTopic(SuHelp[a.help.value]);
        }
        return NoSuchTopic;
      }
      if a.logout {
        var who := if msg.realUser.Some? then msg.realUser.value else msg.user;
        if who !in sessions {
          return NotSued(who);
        }
        sessions := sessions - {who};
        return LoggedOut;
      }
      if a.command.Some? && a.command.value != "" {
        var channel := if a.channel.None? then msg.channel else a.channel.value;
        var forwarded := Rewrite(Message(a.command.value, a.user, channel, None));
        return Redispatched(forwarded);
      }
      var who := if msg.realUser.Some? then msg.realUser.value else msg.user;
      sessions := sessions[who := Su(a.user, a.channel)];
      return Switched(a.user);
    }
  }
}
