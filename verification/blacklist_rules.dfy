/**
 * Deny-rules of the blacklist plugin (`BlacklistEntry`) and the pure part of
 * their matching: the three field predicates, `_validate`, and what makes a
 * call to `check` reach its expiry test.
 *
 * A user or channel field holds the referenced user's `last_known_username`;
 * `None` (SQL NULL) is a wildcard.
 */
module BlacklistRules {
  import opened Text

  /**
   * The `command` column of a rule: NULL (any command), the Python `True`
   * that `command:all` stores, or a command name.
   */
  datatype CommandField = AnyCommand | AllSentinel | Named(name: string)

  /** `is_active` is a nullable Boolean column, so it can hold `None` as well as `True`/`False`. */
  datatype Rule = Rule(
    target: Option<string>,
    channel: Option<string>,
    command: CommandField,
    expiresOn: Option<int>,
    isActive: Option<bool>)

  /** A rule object; `key` stands for the object's identity, which is what `list.remove` compares. */
  datatype Entry = Entry(key: nat, rule: Rule)

  /** What a rule is checked against: the message's user and channel and the command's `chat_command`. */
  datatype Action = Action(user: string, channel: string, command: string)

  /** `_check_channel` */
  predicate ChannelOk(r: Rule, a: Action)
  {
    r.channel.None? || Lower(r.channel.value) == Lower(a.channel)
  }

  /** `_check_user` */
  predicate UserOk(r: Rule, a: Action)
  {
    r.target.None? || Lower(a.user) == Lower(r.target.value)
  }

  /** Command names are compared lower-cased with trailing spaces stripped. */
  function NormalCommand(s: string): string
  {
    RStrip(Lower(s), ' ')
  }

  /**
   * `_check_command`, as the `command:all` sentinel is evidently meant to
   * behave: it matches every command (see FieldsMatchAsWritten for the code).
   */
  predicate CommandOk(r: Rule, a: Action)
  {
    match r.command
    case AnyCommand => true
    case AllSentinel => true
    case Named(n) => NormalCommand(a.command) == NormalCommand(n)
  }

  /** `_validate`: a rule with no scoping field at all would block everything and is refused. */
  predicate HasScope(r: Rule)
  {
    !(r.command.AnyCommand? && r.channel.None? && r.target.None?)
  }

  /** `check` gets past its two guards: `is_active` is not literally `False` and the rule validates. */
  predicate PassesGuards(r: Rule)
  {
    r.isActive != Some(false) && HasScope(r)
  }

  /** The conjunction that `check` returns once past its guards. */
  predicate FieldsMatch(r: Rule, a: Action)
  {
    ChannelOk(r, a) && CommandOk(r, a) && UserOk(r, a)
  }

  /** The value `check` returns. Expiry plays no part in it. */
  predicate Denies(r: Rule, a: Action)
  {
    PassesGuards(r) && FieldsMatch(r, a)
  }

  /** `_check_expire`'s condition: `expires_on` is set and not after `now`. */
  predicate ExpiredAt(r: Rule, now: int)
  {
    r.expiresOn.Some? && r.expiresOn.value <= now
  }

  /** A call of `check` at time `now` removes and enqueues the rule. */
  predicate ExpiresOnCheck(r: Rule, now: int)
  {
    PassesGuards(r) && ExpiredAt(r, now)
  }

  // ---------------------------------------------------------------------
  // Properties of matching
  // ---------------------------------------------------------------------

  /** A rule that is inactive (literally `False`) or has no scoping field never denies. */
  lemma GuardsReject(r: Rule, a: Action)
    requires r.isActive == Some(false) || (r.command == AnyCommand && r.channel.None? && r.target.None?)
    ensures !Denies(r, a)
  {
  }

  /** Only a literal `False` deactivates: an `is_active` of `None` behaves like `True`. */
  lemma NullActiveFlagPasses(r: Rule, a: Action)
    requires r.isActive.None? && HasScope(r)
    ensures Denies(r, a) <==> Denies(r.(isActive := Some(true)), a)
  {
  }

  /** Matching ignores the letter case of the action's user, channel and command. */
  lemma MatchIgnoresCase(r: Rule, a: Action)
    ensures FieldsMatch(r, a) <==> FieldsMatch(r, Action(Lower(a.user), Lower(a.channel), Lower(a.command)))
  {
    LowerIdempotent(a.user);
    LowerIdempotent(a.channel);
    LowerIdempotent(a.command);
  }

  lemma RStripSpaceAppended(s: string)
    ensures RStrip(s + " ", ' ') == RStrip(s, ' ')
  {
    assert (s + " ")[..|s + " "| - 1] == s;
  }

  /** Trailing spaces after the action's command name do not change the outcome. */
  lemma MatchIgnoresTrailingSpace(r: Rule, a: Action)
    ensures FieldsMatch(r, a) <==> FieldsMatch(r, a.(command := a.command + " "))
  {
    LowerAppend(a.command, " ");
    assert Lower(" ") == " ";
    RStripSpaceAppended(Lower(a.command));
  }

  /**
   * A rule scoped to one field only constrains that field: a channel-only
   * rule denies every command of every user in its channel, and nothing
   * in a channel whose name differs case-insensitively.
   */
  lemma ChannelOnlyRule(r: Rule, a: Action)
    requires r.channel.Some? && r.target.None? && r.command == AnyCommand && r.isActive != Some(false)
    ensures Denies(r, a) <==> Lower(r.channel.value) == Lower(a.channel)
  {
  }

  /** With every set field equal up to case, a rule past its guards denies; a mismatch on any set field allows. */
  lemma DeniesIffSetFieldsAgree(r: Rule, a: Action)
    requires PassesGuards(r) && r.command != AllSentinel
    ensures Denies(r, a) <==>
      && (r.channel.Some? ==> Lower(r.channel.value) == Lower(a.channel))
      && (r.target.Some? ==> Lower(r.target.value) == Lower(a.user))
      && (r.command.Named? ==> NormalCommand(r.command.name) == NormalCommand(a.command))
  {
  }

  // ---------------------------------------------------------------------
  // `command:all` as written
  // ---------------------------------------------------------------------

  /**
   * The field conjunction as the code evaluates it: `and` short-circuits, and
   * `_check_command` calls `.lower()` on the stored `command`, which raises
   * `AttributeError` when it is the `True` that `command:all` stores.
   * `None` stands for the raised error.
   */
  function FieldsMatchAsWritten(r: Rule, a: Action): (res: Option<bool>)
    ensures r.command != AllSentinel ==> res == Some(FieldsMatch(r, a))
    ensures res.None? <==> r.command == AllSentinel && ChannelOk(r, a)
  {
    if !ChannelOk(r, a) then Some(false)
    else match r.command
      case AllSentinel => None
      case _ => Some(CommandOk(r, a) && UserOk(r, a))
  }

  /**
   * The rule that `plonk scope:global user:everyone command:all` creates
   * raises on every action instead of denying it.
   */
  lemma AllRuleRaisesAsWritten(a: Action)
    ensures FieldsMatchAsWritten(Rule(None, None, AllSentinel, None, Some(true)), a).None?
  {
  }

  /** With `command:all` read as intended, the same rule denies every action. */
  lemma AllRuleDeniesEverything(r: Rule, a: Action)
    requires r.command == AllSentinel && r.isActive != Some(false)
    ensures Denies(r, a) <==> ChannelOk(r, a) && UserOk(r, a)
    ensures r.channel.None? && r.target.None? ==> Denies(r, a)
  {
  }
}
