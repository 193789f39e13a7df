/**
 * The state of the blacklist plugin: the in-memory list `blacklists`, the
 * `expire_queue` of rules that expired while being checked, and the rows the
 * periodic sweep has deleted from the database. Its operations are
 * `BlacklistEntry.check`, the middleware's `command` hook, one round of
 * `_periodically_expire`, `reload_blacklist` and the `plonk` command.
 *
 * Times are integer seconds and `now` is a parameter; the database session
 * is reduced to the list of deleted rows and a `lookup` function standing
 * for `User.get_by_name`.
 */
module BlacklistEngine {
  import opened Text
  import opened BlacklistRules
  import opened BlacklistArgs

  /** The outcome of one `check`: its Boolean, or the `ValueError` of `blacklists.remove` on a rule no longer listed. */
  datatype CheckResult = Verdict(deny: bool) | RemoveFailed

  /** The replies of `plonk`; every one but `Added` leaves the rules as they were when it was produced. */
  datatype Reply =
    | Help
    | ParseFailed(error: ParseError)
    | NoCommandGiven
    | NoUserGiven
    | UserNotFound
    | MultipleUsers
    | ChannelNotFound(channel: string)
    | MultipleChannels(channel: string)
    | Added

  /** The rules a `plonk` command appends, in order, and its reply. */
  datatype Plan = Plan(added: seq<Rule>, reply: Reply)

  // ---------------------------------------------------------------------
  // What one pass of the middleware does to the list
  // ---------------------------------------------------------------------

  /** The entries of `s` that a check at time `now` leaves in place, in order. */
  function Surviving(s: seq<Entry>, now: int): seq<Entry>
  {
    if |s| == 0 then []
    else Surviving(s[..|s| - 1], now) + (if ExpiresOnCheck(s[|s| - 1].rule, now) then [] else [s[|s| - 1]])
  }

  /** The entries of `s` that a check at time `now` removes and enqueues, in order. */
  function Expiring(s: seq<Entry>, now: int): seq<Entry>
  {
    if |s| == 0 then []
    else Expiring(s[..|s| - 1], now) + (if ExpiresOnCheck(s[|s| - 1].rule, now) then [s[|s| - 1]] else [])
  }

  /** The middleware cancels a command when some rule of the list denies it. */
  predicate Cancels(s: seq<Entry>, a: Action)
  {
    |s| > 0 && (Cancels(s[..|s| - 1], a) || Denies(s[|s| - 1].rule, a))
  }

  lemma {:induction false} SurvivingMembers(s: seq<Entry>, now: int)
    ensures forall x :: x in Surviving(s, now) <==> x in s && !ExpiresOnCheck(x.rule, now)
    decreases |s|
  {
    if |s| > 0 {
      var p := s[..|s| - 1];
      SurvivingMembers(p, now);
      assert s == p + [s[|s| - 1]];
    }
  }

  lemma {:induction false} ExpiringMembers(s: seq<Entry>, now: int)
    ensures forall x :: x in Expiring(s, now) <==> x in s && ExpiresOnCheck(x.rule, now)
    decreases |s|
  {
    if |s| > 0 {
      var p := s[..|s| - 1];
      ExpiringMembers(p, now);
      assert s == p + [s[|s| - 1]];
    }
  }

  /** A pass splits the list: every entry either stays or is enqueued, exactly once. */
  lemma {:induction false} PassPartitions(s: seq<Entry>, now: int)
    ensures multiset(Surviving(s, now)) + multiset(Expiring(s, now)) == multiset(s)
    decreases |s|
  {
    if |s| > 0 {
      var p := s[..|s| - 1];
      PassPartitions(p, now);
      assert s == p + [s[|s| - 1]];
    }
  }

  /** A second pass at the same time removes nothing more. */
  lemma {:induction false} SecondPassKeepsAll(s: seq<Entry>, now: int)
    ensures Surviving(Surviving(s, now), now) == Surviving(s, now)
    ensures Expiring(Surviving(s, now), now) == []
    decreases |s|
  {
    if |s| > 0 {
      var p := s[..|s| - 1];
      var x := s[|s| - 1];
      SecondPassKeepsAll(p, now);
      if !ExpiresOnCheck(x.rule, now) {
        var t := Surviving(p, now) + [x];
        assert Surviving(s, now) == t;
        assert t[..|t| - 1] == Surviving(p, now) && t[|t| - 1] == x;
        assert Surviving(t, now) == Surviving(Surviving(p, now), now) + [x];
        assert Expiring(t, now) == Expiring(Surviving(p, now), now);
      } else {
        assert Surviving(s, now) == Surviving(p, now);
      }
    }
  }

  lemma SurvivingNoDup(s: seq<Entry>, now: int)
    requires NoDup(s)
    ensures NoDup(Surviving(s, now))
    decreases |s|
  {
    if |s| > 0 {
      var p := s[..|s| - 1];
      assert NoDup(p);
      SurvivingNoDup(p, now);
      SurvivingMembers(p, now);
      if !ExpiresOnCheck(s[|s| - 1].rule, now) {
        assert s[|s| - 1] !in p;
        NoDupAppend(Surviving(p, now), s[|s| - 1]);
      }
    }
  }

  /** Extending the checked prefix by one entry. */
  lemma PassStep(p: seq<Entry>, x: Entry, now: int)
    ensures Surviving(p + [x], now) == Surviving(p, now) + (if ExpiresOnCheck(x.rule, now) then [] else [x])
    ensures Expiring(p + [x], now) == Expiring(p, now) + (if ExpiresOnCheck(x.rule, now) then [x] else [])
  {
    assert (p + [x])[..|p|] == p;
  }

  lemma CancelsStep(p: seq<Entry>, x: Entry, a: Action)
    ensures Cancels(p + [x], a) == (Cancels(p, a) || Denies(x.rule, a))
  {
    assert (p + [x])[..|p|] == p;
  }

  /**
   * The list while the pass stands at `x`, after the prefix `p`: `check`
   * removes `x` exactly when it expires, leaving the list the pass
   * describes for `p + [x]`.
   */
  lemma CheckStep(p: seq<Entry>, x: Entry, rest: seq<Entry>, now: int)
    requires x !in p
    ensures x in Surviving(p, now) + ([x] + rest)
    ensures (if ExpiresOnCheck(x.rule, now) then RemoveFirst(Surviving(p, now) + ([x] + rest), x)
             else Surviving(p, now) + ([x] + rest))
         == Surviving(p + [x], now) + rest
  {
    var done := Surviving(p, now);
    PassStep(p, x, now);
    assert done + ([x] + rest) == done + [x] + rest;
    if ExpiresOnCheck(x.rule, now) {
      SurvivingMembers(p, now);
      RemoveFirstAfter(done, x, rest);
      assert done + [] == done;
    }
  }

  /** The queue grows by the entry `check` removed. */
  lemma QueueStep(q: seq<Entry>, p: seq<Entry>, x: Entry, now: int)
    ensures q + Expiring(p, now) + (if ExpiresOnCheck(x.rule, now) then [x] else []) == q + Expiring(p + [x], now)
  {
    assert (p + [x])[..|p|] == p;
    assert Expiring(p + [x], now) == Expiring(p, now) + (if ExpiresOnCheck(x.rule, now) then [x] else []);
  }

  /** A pass keeps the list free of duplicates and of entries newer than `bound`, and leaves no entry that expires at `now`. */
  lemma SurvivingValid(s: seq<Entry>, now: int, bound: nat)
    requires NoDup(s) && forall e :: e in s ==> e.key < bound
    ensures NoDup(Surviving(s, now)) && forall e :: e in Surviving(s, now) ==> e.key < bound
    ensures forall e :: e in Surviving(s, now) ==> !ExpiresOnCheck(e.rule, now)
  {
    SurvivingMembers(s, now);
    SurvivingNoDup(s, now);
  }

  /** The list, the queue and whether the command was cancelled, as a pass goes along. */
  datatype PassState = PassState(rules: seq<Entry>, queue: seq<Entry>, cancelled: bool)

  /**
   * One call of `check` on `e` as a value: the list and the queue after it,
   * and its outcome. Only literal `False` in `is_active` and a rule without
   * scope stop it before `_check_expire`.
   */
  function CheckEffect(rules: seq<Entry>, queue: seq<Entry>, e: Entry, a: Action, now: int): (seq<Entry>, seq<Entry>, CheckResult)
  {
    if e.rule.isActive == Some(false) || !HasScope(e.rule) then (rules, queue, Verdict(false))
    else if !ExpiredAt(e.rule, now) then (rules, queue, Verdict(FieldsMatch(e.rule, a)))
    else if e !in rules then (rules, queue, RemoveFailed)
    else (RemoveFirst(rules, e), queue + [e], Verdict(FieldsMatch(e.rule, a)))
  }

  /** The middleware's loop over the snapshot entries `p`, from `start`: it checks every entry and never stops early. */
  function Run(p: seq<Entry>, start: PassState, a: Action, now: int): PassState
    decreases |p|
  {
    if |p| == 0 then start
    else
      var st := Run(p[..|p| - 1], start, a, now);
      var (rules, queue, r) := CheckEffect(st.rules, st.queue, p[|p| - 1], a, now);
      PassState(rules, queue, st.cancelled || (r.Verdict? && r.deny))
  }

  /**
   * `check`'s result is `Denies` whenever the removal does not fail, expired
   * or not; it fails exactly on an expiring rule that is no longer listed.
   */
  lemma CheckEffectSpec(rules: seq<Entry>, queue: seq<Entry>, e: Entry, a: Action, now: int)
    ensures var (rs, q, r) := CheckEffect(rules, queue, e, a, now);
      && (r.RemoveFailed? <==> ExpiresOnCheck(e.rule, now) && e !in rules)
      && (r.Verdict? ==> r.deny == Denies(e.rule, a))
      && (ExpiresOnCheck(e.rule, now) && e in rules ==> rs == RemoveFirst(rules, e) && q == queue + [e])
      && (!ExpiresOnCheck(e.rule, now) || e !in rules ==> rs == rules && q == queue)
  {
  }

  /**
   * A pass over a snapshot without duplicates, after its first part `p`:
   * the entries of `p` that expire are gone from the list and appended to
   * the queue, in order, and the command is cancelled iff one of them denies.
   */
  lemma {:induction false} RunPass(p: seq<Entry>, rest: seq<Entry>, q: seq<Entry>, a: Action, now: int)
    requires NoDup(p + rest)
    ensures Run(p, PassState(p + rest, q, false), a, now)
         == PassState(Surviving(p, now) + rest, q + Expiring(p, now), Cancels(p, a))
    decreases |p|
  {
    if |p| > 0 {
      var p', x := p[..|p| - 1], p[|p| - 1];
      assert p == p' + [x];
      assert p + rest == p' + ([x] + rest);
      RunPass(p', [x] + rest, q, a, now);
      assert x !in p' by {
        forall j | 0 <= j < |p'| ensures p'[j] != x {
          assert (p + rest)[j] == p'[j] && (p + rest)[|p'|] == x;
        }
      }
      CheckStep(p', x, rest, now);
      QueueStep(q, p', x, now);
      CancelsStep(p', x, a);
    }
  }

  // ---------------------------------------------------------------------
  // The plonk command as a specification
  // ---------------------------------------------------------------------

  /** The `user:` argument looked up: `None` for `everyone`, else every user of that name. */
  function TargetsOf(user: UserArg, lookup: string -> seq<string>): Option<seq<string>>
  {
    match user
    case UserName(n) => Some(lookup(n))
    case _ => None
  }

  /** The `command` column a parsed `command:` argument stores. */
  function CommandFieldOf(c: CommandArg): CommandField
  {
    match c
    case AllCommands => AllSentinel
    case CommandName(n) => Named(n)
    case NoCommand => AnyCommand
  }

  /** The target of a new rule: none for `everyone`, the single user found, or the error reply. */
  function TargetOutcome(targets: Option<seq<string>>): (r: Result<Option<string>, Reply>)
    ensures r.Ok? <==> targets.None? || |targets.value| == 1
    ensures r.Ok? && targets.Some? ==> r.value == Some(targets.value[0])
    ensures targets == Some([]) ==> r == Err(UserNotFound)
    ensures targets.Some? && |targets.value| > 1 ==> r == Err(MultipleUsers)
  {
    match targets
    case None => Ok(None)
    case Some(ts) =>
      if |ts| == 1 then Ok(Some(ts[0]))
      else if |ts| == 0 then Err(UserNotFound)
      else Err(MultipleUsers)
  }

  /** Every rule `plonk` creates is active. */
  function NewRule(target: Option<string>, channel: Option<string>, kw: Kwargs): Rule
  {
    Rule(target, channel, CommandFieldOf(kw.command), kw.expires, Some(true))
  }

  /**
   * The rule a global `plonk` creates, or the reply when the user is not
   * found or is ambiguous. The user lookup gives the same answer for every
   * channel, so a scoped `plonk` derives each channel's rule from it.
   */
  function RuleTemplate(targets: Option<seq<string>>, kw: Kwargs): Result<Rule, Reply>
  {
    match TargetOutcome(targets)
    case Ok(t) => Ok(NewRule(t, None, kw))
    case Err(e) => Err(e)
  }

  /** One channel of a scoped `plonk`: the channel must name one user, then the target must. */
  function ChannelStep(ch: string, template: Result<Rule, Reply>, lookup: string -> seq<string>): Result<Rule, Reply>
  {
    if |lookup(ch)| != 1 then Err(if |lookup(ch)| == 0 then ChannelNotFound(ch) else MultipleChannels(ch))
    else if template.Ok? then Ok(template.value.(channel := Some(lookup(ch)[0])))
    else template
  }

  /** The channels from index `from` on, in order; the first failure stops the loop, keeping the rules already added. */
  function ScopedPlan(chs: seq<string>, from: nat, template: Result<Rule, Reply>, lookup: string -> seq<string>): Plan
    decreases |chs| - from
  {
    if from >= |chs| then Plan([], Added)
    else match ChannelStep(chs[from], template, lookup)
      case Err(e) => Plan([], e)
      case Ok(rule) =>
        var rest := ScopedPlan(chs, from + 1, template, lookup);
        Plan([rule] + rest.added, rest.reply)
  }

  /** What `plonk <text>` appends and replies, before any database write. */
  function ManagePlan(text: string, ctx: Context, lookup: string -> seq<string>): Plan
  {
    match SplitOnce(RStrip(text, ' '), ' ')
    case None => Plan([], Help)
    case Some(argv) =>
      match ApplyWords(Defaults, Split(argv.1, ' '), ctx)
      case Err(e) => Plan([], ParseFailed(e))
      case Ok(kw) =>
        if kw.command.NoCommand? then Plan([], NoCommandGiven)
        else if kw.user.NoUser? then Plan([], NoUserGiven)
        else
          var template := RuleTemplate(TargetsOf(kw.user, lookup), kw);
          match kw.scope
          case Global => if template.Ok? then Plan([template.value], Added) else Plan([], template.error)
          case Channels(chs) => ScopedPlan(chs, 0, template, lookup)
  }

  /** `ks` numbered from `k` on: the identities of freshly created entries. */
  function Keyed(rows: seq<Rule>, k: nat): seq<Entry>
    decreases |rows|
  {
    if |rows| == 0 then []
    else Keyed(rows[..|rows| - 1], k) + [Entry(k + |rows| - 1, rows[|rows| - 1])]
  }

  /** Entry `i` holds row `i` under identity `k + i`. */
  lemma {:induction false} KeyedSpec(rows: seq<Rule>, k: nat)
    ensures |Keyed(rows, k)| == |rows|
    ensures forall i :: 0 <= i < |rows| ==> Keyed(rows, k)[i] == Entry(k + i, rows[i])
    decreases |rows|
  {
    if |rows| > 0 {
      KeyedSpec(rows[..|rows| - 1], k);
    }
  }

  lemma KeyedAppend(rows: seq<Rule>, r: Rule, k: nat)
    ensures Keyed(rows + [r], k) == Keyed(rows, k) + [Entry(k + |rows|, r)]
  {
    assert (rows + [r])[..|rows|] == rows;
  }

  // ---------------------------------------------------------------------
  // Properties of plonk
  // ---------------------------------------------------------------------

  /**
   * A scoped plan adds one rule per remaining channel on success, and rules
   * for a proper prefix of them otherwise; rule `j` is the one built for
   * channel `from + j`.
   */
  lemma {:induction false} ScopedPlanShape(chs: seq<string>, from: nat, template: Result<Rule, Reply>, lookup: string -> seq<string>)
    requires from <= |chs| && (template.Err? ==> !template.error.Added?)
    ensures var p := ScopedPlan(chs, from, template, lookup);
      && (p.reply == Added ==> |p.added| == |chs| - from)
      && (p.reply != Added ==> |p.added| < |chs| - from)
    ensures var p := ScopedPlan(chs, from, template, lookup);
      p.reply.Added? || p.reply.ChannelNotFound? || p.reply.MultipleChannels? || Err(p.reply) == template
    ensures var p := ScopedPlan(chs, from, template, lookup);
      forall j :: 0 <= j < |p.added| ==> ChannelStep(chs[from + j], template, lookup) == Ok(p.added[j])
    ensures var p := ScopedPlan(chs, from, template, lookup);
      p.reply != Added ==> Err(p.reply) == ChannelStep(chs[from + |p.added|], template, lookup)
    decreases |chs| - from
  {
    if from < |chs| {
      ScopedPlanShape(chs, from + 1, template, lookup);
      var p := ScopedPlan(chs, from, template, lookup);
      var step := ChannelStep(chs[from], template, lookup);
      if step.Ok? {
        var rest := ScopedPlan(chs, from + 1, template, lookup);
        assert p.added == [step.value] + rest.added && p.reply == rest.reply;
        forall j | 0 <= j < |p.added|
          ensures ChannelStep(chs[from + j], template, lookup) == Ok(p.added[j])
        {
          if j > 0 {
            assert p.added[j] == rest.added[j - 1] && from + 1 + (j - 1) == from + j;
          }
        }
      }
    }
  }

  /** A failed user lookup fails at the first channel, before any rule is added. */
  lemma ScopedPlanFailsAtOnce(chs: seq<string>, from: nat, template: Result<Rule, Reply>, lookup: string -> seq<string>)
    requires template.Err?
    ensures ScopedPlan(chs, from, template, lookup).added == []
  {
  }

  /** Every rule `plonk` adds is active and passes `_validate`, so `check` never skips it. */
  lemma ManageAddsEffectiveRules(text: string, ctx: Context, lookup: string -> seq<string>)
    ensures forall r :: r in ManagePlan(text, ctx, lookup).added ==>
      r.isActive == Some(true) && r.command != AnyCommand && PassesGuards(r)
  {
    var argv := SplitOnce(RStrip(text, ' '), ' ');
    if argv.Some? {
      var parsed := ApplyWords(Defaults, Split(argv.value.1, ' '), ctx);
      if parsed.Ok? && !parsed.value.command.NoCommand? && !parsed.value.user.NoUser? {
        var kw := parsed.value;
        if kw.scope.Channels? {
          var chs := kw.scope.names;
          var template := RuleTemplate(TargetsOf(kw.user, lookup), kw);
          assert template.Err? ==> template.error.UserNotFound? || template.error.MultipleUsers?;
          assert template.Ok? ==> template.value.isActive == Some(true) && template.value.command != AnyCommand;
          var p := ScopedPlan(chs, 0, template, lookup);
          ScopedPlanShape(chs, 0, template, lookup);
          forall r | r in p.added ensures r.isActive == Some(true) && r.command != AnyCommand {
            var i :| 0 <= i < |p.added| && p.added[i] == r;
            assert ChannelStep(chs[i], template, lookup) == Ok(r);
            assert r == template.value.(channel := r.channel);
          }
        }
      }
    }
  }

  /**
   * Help, parse errors, the missing command or user, and an unknown or
   * ambiguous user add nothing, in global and in scoped mode alike: the
   * user lookup is the same for every channel, so no channel gets a rule
   * before it fails.
   */
  lemma ManageErrorsAddNothing(text: string, ctx: Context, lookup: string -> seq<string>)
    ensures var p := ManagePlan(text, ctx, lookup);
      && (p.reply.Help? || p.reply.ParseFailed? || p.reply.NoCommandGiven? || p.reply.NoUserGiven? ==> p.added == [])
      && (p.reply.UserNotFound? || p.reply.MultipleUsers? ==> p.added == [])
      && (p.reply == Help <==> ' ' !in RStrip(text, ' '))
  {
    var argv := SplitOnce(RStrip(text, ' '), ' ');
    if argv.Some? {
      var parsed := ApplyWords(Defaults, Split(argv.value.1, ' '), ctx);
      if parsed.Ok? && !parsed.value.command.NoCommand? && !parsed.value.user.NoUser? {
        var kw := parsed.value;
        var template := RuleTemplate(TargetsOf(kw.user, lookup), kw);
        assert template.Err? ==> template.error.UserNotFound? || template.error.MultipleUsers?;
        if kw.scope.Channels? {
          ScopedPlanShape(kw.scope.names, 0, template, lookup);
          if template.Err? {
            ScopedPlanFailsAtOnce(kw.scope.names, 0, template, lookup);
          }
        }
      }
    }
  }

  /**
   * The checks after parsing come in the handler's order: a missing
   * command is reported whatever the user, and a missing user only once a
   * command is given; otherwise the reply comes from the lookups.
   */
  lemma ManageChecksInOrder(text: string, ctx: Context, lookup: string -> seq<string>, name: string, args: string, kw: Kwargs)
    requires SplitOnce(RStrip(text, ' '), ' ') == Some((name, args))
    requires ApplyWords(Defaults, Split(args, ' '), ctx) == Ok(kw)
    ensures kw.command.NoCommand? ==> ManagePlan(text, ctx, lookup) == Plan([], NoCommandGiven)
    ensures !kw.command.NoCommand? && kw.user.NoUser? ==> ManagePlan(text, ctx, lookup) == Plan([], NoUserGiven)
    ensures !kw.command.NoCommand? && !kw.user.NoUser? ==>
      !ManagePlan(text, ctx, lookup).reply.NoCommandGiven? && !ManagePlan(text, ctx, lookup).reply.NoUserGiven?
  {
    if !kw.command.NoCommand? && !kw.user.NoUser? {
      var template := RuleTemplate(TargetsOf(kw.user, lookup), kw);
      assert template.Err? ==> template.error.UserNotFound? || template.error.MultipleUsers?;
      if kw.scope.Channels? {
        ScopedPlanShape(kw.scope.names, 0, template, lookup);
      }
    }
  }

  lemma SplitThree(w1: string, w2: string, w3: string)
    requires ' ' !in w1 && ' ' !in w2 && ' ' !in w3
    ensures Split(w1 + " " + w2 + " " + w3, ' ') == [w1, w2, w3]
  {
    assert w1 + " " + w2 + " " + w3 == w1 + [' '] + (w2 + [' '] + w3);
    SplitAtFirst(w1, ' ', w2 + [' '] + w3);
    SplitAtFirst(w2, ' ', w3);
    SplitWithoutSeparator(w3, ' ');
  }

  /**
   * The arguments `scope:<g> user:<u> command:<c>`, with `g`, `u` and `c` the
   * sentinels `global`, `everyone` and `all` in any letter case, parse to a
   * global scope and both sentinels.
   */
  lemma EveryoneAllArgs(g: string, u: string, c: string, ctx: Context)
    requires Lower(g) == "global" && Lower(u) == "everyone" && Lower(c) == "all"
    ensures ApplyWords(Defaults, Split(("scope:" + g) + " " + ("user:" + u) + " " + ("command:" + c), ' '), ctx)
      == Ok(Kwargs(Global, Everyone, AllCommands, None))
  {
    LowerKeepsNonLetter(g, ' ');
    LowerKeepsNonLetter(u, ' ');
    LowerKeepsNonLetter(c, ' ');
    var w1, w2, w3 := "scope:" + g, "user:" + u, "command:" + c;
    SplitThree(w1, w2, w3);
    var all := Kwargs(Global, Everyone, AllCommands, None);
    GlobalSentinel(Defaults, g, ctx);
    EveryoneSentinel(Defaults, u, ctx);
    AllCommandsSentinel(Defaults.(user := Everyone), c, ctx);
    ApplyWordsCons(Defaults, w1, [w2, w3], ctx, Defaults);
    ApplyWordsCons(Defaults, w2, [w3], ctx, Defaults.(user := Everyone));
    ApplyWordsCons(Defaults.(user := Everyone), w3, [], ctx, all);
    assert [w1, w2, w3] == [w1] + [w2, w3] && [w2, w3] == [w2] + [w3] && [w3] == [w3] + [];
  }

  /** A command line whose arguments do not end in a space is cut into the command name and the arguments. */
  lemma CommandLine(text: string, name: string, args: string)
    requires text == name + [' '] + args && ' ' !in name && |args| > 0 && args[|args| - 1] != ' '
    ensures SplitOnce(RStrip(text, ' '), ' ') == Some((name, args))
  {
    assert text[|text| - 1] == args[|args| - 1];
    SplitOnceAt(name, ' ', args);
  }

  /**
   * `plonk scope:global user:everyone command:all` (sentinels in any case)
   * adds one rule with no target, no channel and the `command:all` sentinel,
   * which, read as intended, denies every command of every user.
   */
  lemma PlonkEveryoneAll(g: string, u: string, c: string, ctx: Context, lookup: string -> seq<string>, a: Action)
    requires Lower(g) == "global" && Lower(u) == "everyone" && Lower(c) == "all"
    ensures var p := ManagePlan("plonk " + (("scope:" + g) + " " + ("user:" + u) + " " + ("command:" + c)), ctx, lookup);
      && p.reply == Added && |p.added| == 1 && p.added[0] == Rule(None, None, AllSentinel, None, Some(true))
      && Denies(p.added[0], a)
  {
    var args := ("scope:" + g) + " " + ("user:" + u) + " " + ("command:" + c);
    LowerSpec(c);
    LowerKeepsNonLetter(c, ' ');
    assert args[|args| - 1] == c[2];
    CommandLine("plonk " + args, "plonk", args);
    EveryoneAllArgs(g, u, c, ctx);
    var kw := Kwargs(Global, Everyone, AllCommands, None);
    assert RuleTemplate(TargetsOf(kw.user, lookup), kw) == Ok(Rule(None, None, AllSentinel, None, Some(true)));
  }

  // ---------------------------------------------------------------------
  // The plugin's state
  // ---------------------------------------------------------------------

  class Engine {
    /** `blacklists` */
    var rules: seq<Entry>
    /** `expire_queue` */
    var expireQueue: seq<Entry>
    /** The entries `session.delete` has been called on, in order. */
    var deleted: seq<Entry>
    /** The identity the next created entry receives. */
    var nextKey: nat

    /** Every listed entry is a distinct object created before now. */
    ghost predicate Valid()
      reads this
    {
      NoDup(rules) && forall e :: e in rules ==> e.key < nextKey
    }

    /** The module state on import: an empty list and an empty queue. */
    constructor ()
      ensures Valid()
      ensures rules == [] && expireQueue == [] && deleted == [] && nextKey == 0
    {
      rules := [];
      expireQueue := [];
      deleted := [];
      nextKey := 0;
    }

    /**
     * `BlacklistEntry.check` at time `now`: the guards, then `_check_expire`
     * (which removes and enqueues an expired rule), then the field test.
     * The field test still runs after an expiry, so a rule can deny on the
     * very call that expires it.
     */
    method Check(e: Entry, a: Action, now: int) returns (r: CheckResult)
      modifies this
      ensures old(Valid()) ==> Valid()
      ensures deleted == old(deleted) && nextKey == old(nextKey)
      ensures (rules, expireQueue, r) == CheckEffect(old(rules), old(expireQueue), e, a, now)
    {
      if e.rule.isActive == Some(false) {
        return Verdict(false);
      }
      if !HasScope(e.rule) {
        return Verdict(false);
      }
      if ExpiredAt(e.rule, now) {
        if e !in rules {
          return RemoveFailed;
        }
        if Valid() {
          RemoveFirstNoDup(rules, e);
        }
        rules := RemoveFirst(rules, e);
        expireQueue := expireQueue + [e];
      }
      r := Verdict(FieldsMatch(e.rule, a));
    }

    /**
     * The middleware's `command` hook: every rule of a snapshot of the list
     * is checked, without stopping at the first that denies; the command is
     * cancelled when any of them denied it.
     */
    method Middleware(a: Action, now: int) returns (cancelled: bool)
      requires Valid()
      modifies this
      ensures Valid()
      ensures cancelled <==> Cancels(old(rules), a)
      ensures rules == Surviving(old(rules), now)
      ensures expireQueue == old(expireQueue) + Expiring(old(rules), now)
      ensures forall e :: e in rules ==> !ExpiresOnCheck(e.rule, now)
      ensures deleted == old(deleted) && nextKey == old(nextKey)
    {
      var snapshot := rules;
      ghost var start := PassState(rules, expireQueue, false);
      cancelled := false;
      var i := 0;
      while i < |snapshot|
        invariant 0 <= i <= |snapshot|
        invariant PassState(rules, expireQueue, cancelled) == Run(snapshot[..i], start, a, now)
        invariant deleted == old(deleted) && nextKey == old(nextKey)
      {
        assert snapshot[..i + 1][..i] == snapshot[..i];
        var r := Check(snapshot[i], a, now);
        if r.Verdict? && r.deny {
          cancelled := true;
        }
        i := i + 1;
      }
      assert snapshot[..i] == snapshot == snapshot + [];
      RunPass(snapshot, [], start.queue, a, now);
      assert Surviving(snapshot, now) + [] == Surviving(snapshot, now);
      SurvivingValid(snapshot, now, nextKey);
    }

    /**
     * One round of `_periodically_expire`: the queue is drained into a
     * batch, and when the batch is not empty each of its entries is deleted
     * from the database. The in-memory list is not touched.
     */
    method Sweep() returns (batch: seq<Entry>)
      modifies this
      ensures batch == old(expireQueue) && expireQueue == []
      ensures deleted == old(deleted) + batch
      ensures rules == old(rules) && nextKey == old(nextKey)
    {
      batch := [];
      while expireQueue != []
        invariant batch + expireQueue == old(expireQueue)
        invariant deleted == old(deleted) && rules == old(rules) && nextKey == old(nextKey)
        decreases |expireQueue|
      {
        var o := expireQueue[0];
        expireQueue := expireQueue[1..];
        batch := batch + [o];
      }
      if batch != [] {
        var i := 0;
        while i < |batch|
          invariant 0 <= i <= |batch|
          invariant deleted == old(deleted) + batch[..i]
          invariant rules == old(rules) && nextKey == old(nextKey) && expireQueue == []
        {
          assert batch[..i + 1] == batch[..i] + [batch[i]];
          deleted := deleted + [batch[i]];
          i := i + 1;
        }
        assert batch[..i] == batch;
      }
    }

    /**
     * `reload_blacklist` (and the initial load of `_post_init`): the list is
     * replaced by fresh objects for the stored rows. The queue is kept.
     */
    method Reload(rows: seq<Rule>)
      requires Valid()
      modifies this
      ensures Valid()
      ensures rules == Keyed(rows, old(nextKey)) && nextKey == old(nextKey) + |rows|
      ensures forall e :: e in rules ==> e.key >= old(nextKey) && e !in old(rules)
      ensures expireQueue == old(expireQueue) && deleted == old(deleted)
    {
      var entries := Keyed(rows, nextKey);
      KeyedSpec(rows, nextKey);
      forall i, j | 0 <= i < j < |entries| ensures entries[i] != entries[j] {
        assert entries[i].key != entries[j].key;
      }
      rules := entries;
      nextKey := nextKey + |rows|;
    }

    /** `blacklists.append(obj)` for a newly created entry. */
    method Append(rule: Rule)
      requires Valid()
      modifies this
      ensures Valid()
      ensures rules == old(rules) + [Entry(old(nextKey), rule)] && nextKey == old(nextKey) + 1
      ensures expireQueue == old(expireQueue) && deleted == old(deleted)
    {
      var e := Entry(nextKey, rule);
      assert e !in rules;
      NoDupAppend(rules, e);
      rules := rules + [e];
      nextKey := nextKey + 1;
    }

    /**
     * `command_manage_blacklists`: parse, check that a command and a user
     * were given, then append one rule (global scope) or one per channel.
     */
    method ManageBlacklists(text: string, ctx: Context, lookup: string -> seq<string>) returns (reply: Reply)
      requires Valid()
      modifies this
      ensures Valid()
      ensures reply == ManagePlan(text, ctx, lookup).reply
      ensures rules == old(rules) + Keyed(ManagePlan(text, ctx, lookup).added, old(nextKey))
      ensures nextKey == old(nextKey) + |ManagePlan(text, ctx, lookup).added|
      ensures expireQueue == old(expireQueue) && deleted == old(deleted)
    {
      var argv := SplitOnce(RStrip(text, ' '), ' ');
      if argv.None? {
        return Help;
      }
      var parsed := ParseArgs(argv.value.1, ctx);
      if parsed.Err? {
        return ParseFailed(parsed.error);
      }
      var kw := parsed.value;
      if kw.command.NoCommand? {
        return NoCommandGiven;
      }
      if kw.user.NoUser? {
        return NoUserGiven;
      }
      var template := RuleTemplate(TargetsOf(kw.user, lookup), kw);
      if kw.scope.Global? {
        if template.Err? {
          return template.error;
        }
        Append(template.value);
        return Added;
      }
      reply := AddPerChannel(kw.scope.names, template, lookup);
    }

    /** The per-channel loop of `command_manage_blacklists`: stop at the first channel that fails. */
    method AddPerChannel(chs: seq<string>, template: Result<Rule, Reply>, lookup: string -> seq<string>)
      returns (reply: Reply)
      requires Valid()
      modifies this
      ensures Valid()
      ensures reply == ScopedPlan(chs, 0, template, lookup).reply
      ensures rules == old(rules) + Keyed(ScopedPlan(chs, 0, template, lookup).added, old(nextKey))
      ensures nextKey == old(nextKey) + |ScopedPlan(chs, 0, template, lookup).added|
      ensures expireQueue == old(expireQueue) && deleted == old(deleted)
    {
      ghost var plan := ScopedPlan(chs, 0, template, lookup);
      ghost var added: seq<Rule> := [];
      var i := 0;
      while i < |chs|
        invariant 0 <= i <= |chs| && Valid()
        invariant plan == Plan(added + ScopedPlan(chs, i, template, lookup).added, ScopedPlan(chs, i, template, lookup).reply)
        invariant rules == old(rules) + Keyed(added, old(nextKey)) && nextKey == old(nextKey) + |added|
        invariant expireQueue == old(expireQueue) && deleted == old(deleted)
      {
        var step := ChannelStep(chs[i], template, lookup);
        if step.Err? {
          assert added + [] == added;
          return step.error;
        }
        ghost var rest := ScopedPlan(chs, i + 1, template, lookup);
        assert added + ([step.value] + rest.added) == (added + [step.value]) + rest.added;
        KeyedAppend(added, step.value, old(nextKey));
        Append(step.value);
        added := added + [step.value];
        i := i + 1;
      }
      assert added + [] == added;
      return Added;
    }
  }
}
