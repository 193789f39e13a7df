/**
 * The plugin manager's per-channel command blacklist (`blacklist`, a dict
 * from channel name to a list of `chat_command` names), the command
 * dispatcher that consults it, and the one-shot fire alarm
 * (`ExceptionDetectionMiddleware`).
 */
module PluginManager {
  import opened Text

  /** Channel name -> blacklisted `chat_command` names, in insertion order. */
  type Table = map<string, seq<string>>

  /** A chat message: who sent it, where, and its text. */
  datatype Message = Message(user: string, channel: string, text: string)

  /**
   * A registered command: its `chat_command`, the `ef_command` prefix it
   * answers to, and whether its `matcher_function` is callable.
   */
  datatype Handler = Handler(chatCommand: string, efCommand: string, hasMatcher: bool)

  /** One handler invocation: the command body ran, or the blacklist suppressed it. */
  datatype Call = Ran(command: string) | Suppressed(command: string)

  /**
   * What the dispatcher did with a message: handed it to the forced-prefix
   * commands, or walked the handlers with the (possibly padded) text,
   * producing `calls` and falling back to the unknown-command path when
   * `unknown` holds.
   */
  datatype Dispatched = ForcedPrefix | Prefixed(text: string, calls: seq<Call>, unknown: bool)

  /** The replies of the blacklist commands; `Raised` stands for an exception leaving the command. */
  datatype Reply =
    | Usage
    | AlreadyBlacklisted
    | Blacklisted(command: string)
    | NotBlacklisted(command: string)
    | Unblacklisted(command: string, channel: string)
    | Nonexistent(command: string)
    | CannotJoin(chan: string)
    | AlreadyIn(chan: string)
    | Joining(chan: string)
    | Raised

  /** The three commands that a freshly joined channel keeps. */
  const MbBlacklist := "mb.blacklist_command"
  const MbUnblacklist := "mb.unblacklist_command"
  const MbList := "mb.list_blacklisted_commands"

  predicate Management(c: string)
  {
    c == MbBlacklist || c == MbUnblacklist || c == MbList
  }

  /** The `chat_command` of every registered handler, in registration order. */
  function Names(hs: seq<Handler>): (r: seq<string>)
    ensures |r| == |hs| && forall i :: 0 <= i < |hs| ==> r[i] == hs[i].chatCommand
  {
    seq(|hs|, i requires 0 <= i < |hs| => hs[i].chatCommand)
  }

  // ---------------------------------------------------------------------
  // The table
  // ---------------------------------------------------------------------

  /** The block test of `_acall_handler`: the channel has a list and the command is on it. */
  predicate Blocked(t: Table, channel: string, command: string)
  {
    channel in t && command in t[channel]
  }

  /** `ensure_blacklist`: the channel gets an empty list unless it has one. */
  function Ensured(t: Table, channel: string): (r: Table)
    ensures channel in r && r.Keys == t.Keys + {channel}
    ensures forall c :: c in t ==> r[c] == t[c]
    ensures channel !in t ==> r[channel] == []
  {
    if channel in t then t else t[channel := []]
  }

  lemma EnsuredIdempotent(t: Table, channel: string)
    ensures Ensured(Ensured(t, channel), channel) == Ensured(t, channel)
  {
  }

  /** Ensuring a list never changes what is blocked. */
  lemma EnsuredBlocksNothing(t: Table, channel: string, ch: string, command: string)
    ensures Blocked(Ensured(t, channel), ch, command) <==> Blocked(t, ch, command)
  {
  }

  /**
   * `command_blacklist` in `channel`, given the message text split on
   * single spaces: the new table and the reply.
   */
  function BlacklistOutcome(t: Table, channel: string, args: seq<string>, names: seq<string>): (Table, Reply)
  {
    var t1 := Ensured(t, channel);
    if |args| != 2 then (t1, Usage)
    else if args[1] in t1[channel] then (t1, AlreadyBlacklisted)
    else if args[1] in names then (t1[channel := t1[channel] + [args[1]]], Blacklisted(args[1]))
    else (t1, Nonexistent(args[1]))
  }

  /** `command_unblacklist`, in the same terms. */
  function UnblacklistOutcome(t: Table, channel: string, args: seq<string>, names: seq<string>): (Table, Reply)
  {
    var t1 := Ensured(t, channel);
    if |args| != 2 then (t1, Usage)
    else if args[1] !in names then (t1, Nonexistent(args[1]))
    else if args[1] !in t1[channel] then (t1, NotBlacklisted(args[1]))
    else (t1[channel := RemoveFirst(t1[channel], args[1])], Unblacklisted(args[1], channel))
  }

  /**
   * Blacklisting succeeds exactly for a two-word command line naming a
   * registered command that is not yet on the channel's list; it then
   * blocks that command in that channel, keeps the list free of
   * duplicates, and touches no other channel. Otherwise the reply names the
   * first check that failed: the word count, the list, the registry.
   */
  lemma BlacklistSpec(t: Table, channel: string, args: seq<string>, names: seq<string>)
    ensures var (t', reply) := BlacklistOutcome(t, channel, args, names);
      && (|args| != 2 ==> reply == Usage)
      && (|args| == 2 && Blocked(t, channel, args[1]) ==> reply == AlreadyBlacklisted)
      && (|args| == 2 && !Blocked(t, channel, args[1]) && args[1] !in names ==> reply == Nonexistent(args[1]))
      && (reply.Blacklisted? <==> |args| == 2 && args[1] in names && !Blocked(t, channel, args[1]))
      && (reply.Blacklisted? ==> reply.command == args[1] && Blocked(t', channel, args[1]))
      && (!reply.Blacklisted? ==> t' == Ensured(t, channel))
      && (channel in t && NoDup(t[channel]) ==> NoDup(t'[channel]))
      && (forall c :: c in t && c != channel ==> c in t' && t'[c] == t[c])
  {
    var t1 := Ensured(t, channel);
    if |args| == 2 && args[1] !in t1[channel] && channel in t && NoDup(t[channel]) {
      NoDupAppend(t[channel], args[1]);
    }
  }

  /**
   * Unblacklisting succeeds exactly for a two-word command line naming a
   * registered, blocked command; on a duplicate-free list it lifts the
   * block, and it touches no other channel. Otherwise the reply names the
   * first check that failed: the word count, the registry, the list.
   */
  lemma UnblacklistSpec(t: Table, channel: string, args: seq<string>, names: seq<string>)
    ensures var (t', reply) := UnblacklistOutcome(t, channel, args, names);
      && (|args| != 2 ==> reply == Usage)
      && (|args| == 2 && args[1] !in names ==> reply == Nonexistent(args[1]))
      && (|args| == 2 && args[1] in names && !Blocked(t, channel, args[1]) ==> reply == NotBlacklisted(args[1]))
      && (reply.Unblacklisted? <==> |args| == 2 && args[1] in names && Blocked(t, channel, args[1]))
      && (reply.Unblacklisted? && NoDup(t[channel]) ==>
           !Blocked(t', channel, args[1]) && NoDup(t'[channel]))
      && (!reply.Unblacklisted? ==> t' == Ensured(t, channel))
      && (forall c :: c in t && c != channel ==> c in t' && t'[c] == t[c])
  {
    if |args| == 2 && args[1] in names && Blocked(t, channel, args[1]) && NoDup(t[channel]) {
      RemoveFirstNoDup(t[channel], args[1]);
    }
  }

  lemma BlacklistAppends(t: Table, channel: string, args: seq<string>, names: seq<string>)
    requires BlacklistOutcome(t, channel, args, names).1.Blacklisted?
    ensures BlacklistOutcome(t, channel, args, names).0 ==
      Ensured(t, channel)[channel := Ensured(t, channel)[channel] + [args[1]]]
  {
  }

  lemma UnblacklistDropsLast(t: Table, channel: string, undo: seq<string>, names: seq<string>, list: seq<string>, c: string)
    requires channel in t && t[channel] == list + [c] && c !in list && c in names && |undo| == 2 && undo[1] == c
    ensures UnblacklistOutcome(t, channel, undo, names).0 == t[channel := list]
  {
    RemoveFirstAfter(list, c, []);
    assert list + [c] + [] == list + [c] && list + [] == list;
  }

  lemma RestoreAfterAppend(t: Table, channel: string, list: seq<string>, c: string)
    requires channel in t && t[channel] == list
    ensures t[channel := list + [c]][channel := list] == t
  {
  }

  /**
   * Unblacklisting a command right after blacklisting it in the same
   * channel restores the channel's list.
   */
  lemma UnblacklistUndoesBlacklist(t: Table, channel: string, args: seq<string>, undo: seq<string>, names: seq<string>)
    requires BlacklistOutcome(t, channel, args, names).1.Blacklisted?
    requires |undo| == 2 && undo[1] == args[1]
    ensures UnblacklistOutcome(BlacklistOutcome(t, channel, args, names).0, channel, undo, names) ==
      (Ensured(t, channel), Unblacklisted(args[1], channel))
  {
    var t1 := Ensured(t, channel);
    var list := t1[channel];
    var c := args[1];
    BlacklistAppends(t, channel, args, names);
    UnblacklistDropsLast(t1[channel := list + [c]], channel, undo, names, list, c);
    RestoreAfterAppend(t1, channel, list, c);
  }

  // ---------------------------------------------------------------------
  // blacklisted_join
  // ---------------------------------------------------------------------

  /**
   * The channel argument of `blacklisted_join`, lower-cased; `None` when the
   * text has no second space-separated word (the `IndexError` of
   * `split(' ')[1]`).
   */
  function JoinArgument(text: string): (r: Option<string>)
    ensures r.None? <==> ' ' !in text
  {
    var args := Split(text, ' ');
    SplitHasSecond(text, ' ');
    if |args| < 2 then None else Some(Lower(args[1]))
  }

  /**
   * The registered names after the three `list.remove` calls of the
   * management commands. The flag is false when a removal found its name
   * absent and raised `ValueError`; the list is then as that call left it.
   */
  function StripManagement(names: seq<string>): (seq<string>, bool)
  {
    if MbBlacklist !in names then (names, false)
    else
      var l1 := RemoveFirst(names, MbBlacklist);
      if MbUnblacklist !in l1 then (l1, false)
      else
        var l2 := RemoveFirst(l1, MbUnblacklist);
        if MbList !in l2 then (l2, false)
        else (RemoveFirst(l2, MbList), true)
  }

  lemma RemoveFirstKeeps(s: seq<string>, x: string, y: string)
    requires x in s && y in s && y != x
    ensures y in RemoveFirst(s, x)
  {
    RemoveFirstKeepsOthers(s, x, y);
  }

  /** The removals all succeed exactly when the three management commands are registered. */
  lemma StripManagementSucceeds(names: seq<string>)
    ensures StripManagement(names).1 <==> MbBlacklist in names && MbUnblacklist in names && MbList in names
  {
    if MbBlacklist in names && MbUnblacklist in names && MbList in names {
      RemoveFirstKeeps(names, MbBlacklist, MbUnblacklist);
      RemoveFirstKeeps(names, MbBlacklist, MbList);
      RemoveFirstKeeps(RemoveFirst(names, MbBlacklist), MbUnblacklist, MbList);
    } else if MbBlacklist in names {
      var l1 := RemoveFirst(names, MbBlacklist);
      RemoveFirstKeepsOthers(names, MbBlacklist, MbUnblacklist);
      RemoveFirstKeepsOthers(names, MbBlacklist, MbList);
      if MbUnblacklist in l1 {
        RemoveFirstKeepsOthers(l1, MbUnblacklist, MbList);
      }
    }
  }

  /**
   * After successful removals every other registered command is still
   * listed, and on a duplicate-free registry none of the three is.
   */
  lemma StripManagementContents(names: seq<string>, c: string)
    requires StripManagement(names).1
    ensures c in names && !Management(c) ==> c in StripManagement(names).0
    ensures NoDup(names) && Management(c) ==> c !in StripManagement(names).0
  {
    var l1 := RemoveFirst(names, MbBlacklist);
    var l2 := RemoveFirst(l1, MbUnblacklist);
    if c in names && !Management(c) {
      RemoveFirstKeeps(names, MbBlacklist, c);
      RemoveFirstKeeps(l1, MbUnblacklist, c);
      RemoveFirstKeeps(l2, MbList, c);
    }
    if NoDup(names) && Management(c) {
      RemoveFirstNoDup(names, MbBlacklist);
      RemoveFirstNoDup(l1, MbUnblacklist);
      RemoveFirstNoDup(l2, MbList);
    }
  }

  /**
   * The refusals of `blacklisted_join`, then the stripped list written
   * under `key`.
   */
  function JoinInto(t: Table, key: string, chan: string, names: seq<string>, connected: seq<string>): (Table, Reply)
  {
    if chan == "all" then (t, CannotJoin(chan))
    else if chan in connected then (t, AlreadyIn(chan))
    else
      var stripped := StripManagement(names);
      (t[key := stripped.0], if stripped.1 then Joining(chan) else Raised)
  }

  /**
   * `command_join_blacklisted` issued in `channel` with argument `arg`, as
   * written: the list goes to the channel the command was issued in.
   */
  function JoinAsWritten(t: Table, channel: string, arg: Option<string>, names: seq<string>, connected: seq<string>): (Table, Reply)
  {
    var t1 := Ensured(t, channel);
    match arg
    case None => (t1, Raised)
    case Some(chan) => JoinInto(t1, channel, chan, names, connected)
  }

  /** `command_join_blacklisted` as its reply describes it: the list goes to the channel being joined. */
  function JoinOutcome(t: Table, channel: string, arg: Option<string>, names: seq<string>, connected: seq<string>): (Table, Reply)
  {
    var t1 := Ensured(t, channel);
    match arg
    case None => (t1, Raised)
    case Some(chan) => JoinInto(t1, chan, chan, names, connected)
  }

  /**
   * A join succeeds exactly when the argument is present, is not `all`, is
   * not a connected channel, and the three management commands are
   * registered; only the issuing channel's (ensured) list and the joined
   * channel's list can change.
   */
  lemma JoinSucceeds(t: Table, channel: string, arg: Option<string>, names: seq<string>, connected: seq<string>)
    ensures var (t', reply) := JoinOutcome(t, channel, arg, names, connected);
      && (reply.Joining? <==>
           arg.Some? && arg.value != "all" && arg.value !in connected
           && MbBlacklist in names && MbUnblacklist in names && MbList in names)
      && (reply.Joining? ==> reply.chan == arg.value)
      && (forall c :: c in t && (arg.Some? ==> c != arg.value) ==> c in t' && t'[c] == t[c])
  {
    StripManagementSucceeds(names);
  }

  /**
   * After a successful join the joined channel blocks every registered
   * command but the three management ones, and (on a duplicate-free
   * registry) leaves those three open.
   */
  lemma JoinBlocksAllButManagement(t: Table, channel: string, arg: Option<string>, names: seq<string>, connected: seq<string>, c: string)
    requires JoinOutcome(t, channel, arg, names, connected).1.Joining?
    ensures var (t', reply) := JoinOutcome(t, channel, arg, names, connected);
      && (c in names && !Management(c) ==> Blocked(t', reply.chan, c))
      && (NoDup(names) && Management(c) ==> !Blocked(t', reply.chan, c))
  {
    StripManagementContents(names, c);
  }

  /**
   * As written, joining channel `new` from channel `home` leaves `new`
   * without a list, so nothing is blocked there, and blocks every other
   * registered command in `home` instead.
   */
  lemma JoinAsWrittenBlocksWrongChannel(t: Table, channel: string, arg: Option<string>, names: seq<string>, connected: seq<string>, c: string)
    requires JoinAsWritten(t, channel, arg, names, connected).1.Joining?
    requires var chan := JoinAsWritten(t, channel, arg, names, connected).1.chan; chan != channel && chan !in t
    requires c in names && !Management(c)
    ensures var (t', reply) := JoinAsWritten(t, channel, arg, names, connected);
      !Blocked(t', reply.chan, c) && Blocked(t', channel, c)
  {
    StripManagementContents(names, c);
  }

  // ---------------------------------------------------------------------
  // Dispatch
  // ---------------------------------------------------------------------

  /** `_acall_handler`: a blacklisted command is logged and skipped, any other runs. */
  function CallOf(t: Table, h: Handler, m: Message): (c: Call)
    ensures c.command == h.chatCommand
    ensures c.Ran? <==> !Blocked(t, m.channel, h.chatCommand)
  {
    if m.channel in t && h.chatCommand in t[m.channel] then Suppressed(h.chatCommand) else Ran(h.chatCommand)
  }

  /** The two independent reasons a handler is called for a message. */
  predicate MatcherFires(h: Handler, m: Message, matcher: (Message, Handler) -> bool)
  {
    h.hasMatcher && matcher(m, h)
  }

  predicate PrefixFires(h: Handler, m: Message, prefix: string)
  {
    prefix + h.efCommand <= m.text
  }

  /** The calls one handler receives: one per reason that holds. */
  function HandlerCalls(t: Table, h: Handler, m: Message, prefix: string, matcher: (Message, Handler) -> bool): seq<Call>
  {
    (if MatcherFires(h, m, matcher) then [CallOf(t, h, m)] else [])
      + (if PrefixFires(h, m, prefix) then [CallOf(t, h, m)] else [])
  }

  /** The calls of the whole handler walk, in handler order. */
  function AllCalls(t: Table, hs: seq<Handler>, m: Message, prefix: string, matcher: (Message, Handler) -> bool): seq<Call>
  {
    if hs == [] then []
    else AllCalls(t, hs[..|hs| - 1], m, prefix, matcher) + HandlerCalls(t, hs[|hs| - 1], m, prefix, matcher)
  }

  /** The text a prefixed message carries through the walk: a space is appended when it has none. */
  function Padded(text: string): (r: string)
    ensures ' ' in r && text <= r
  {
    if ' ' in text then text else text + " "
  }

  /** `_acall_command_handlers` */
  function DispatchSpec(t: Table, msg: Message, prefix: string, hs: seq<Handler>, matcher: (Message, Handler) -> bool): Dispatched
  {
    if !(prefix <= msg.text) then ForcedPrefix
    else
      var m := msg.(text := Padded(msg.text));
      var calls := AllCalls(t, hs, m, prefix, matcher);
      Prefixed(m.text, calls, calls == [])
  }

  /** At most two calls per handler. */
  lemma {:induction false} AllCallsLength(t: Table, hs: seq<Handler>, m: Message, prefix: string, matcher: (Message, Handler) -> bool)
    ensures |AllCalls(t, hs, m, prefix, matcher)| <= 2 * |hs|
  {
    if hs != [] {
      AllCallsLength(t, hs[..|hs| - 1], m, prefix, matcher);
    }
  }

  /** The walk produces no call exactly when no handler fires for either reason. */
  lemma {:induction false} AllCallsEmpty(t: Table, hs: seq<Handler>, m: Message, prefix: string, matcher: (Message, Handler) -> bool)
    ensures AllCalls(t, hs, m, prefix, matcher) == [] <==>
      forall i :: 0 <= i < |hs| ==> !MatcherFires(hs[i], m, matcher) && !PrefixFires(hs[i], m, prefix)
  {
    if hs != [] {
      var init := hs[..|hs| - 1];
      AllCallsEmpty(t, init, m, prefix, matcher);
      if AllCalls(t, hs, m, prefix, matcher) == [] {
        forall i | 0 <= i < |hs| ensures !MatcherFires(hs[i], m, matcher) && !PrefixFires(hs[i], m, prefix) {
          if i < |init| {
            assert hs[i] == init[i];
          }
        }
      }
    }
  }

  /** Some handler with the call's command fired. */
  predicate FromFiredHandler(hs: seq<Handler>, c: Call, m: Message, prefix: string, matcher: (Message, Handler) -> bool)
  {
    exists i :: 0 <= i < |hs| && hs[i].chatCommand == c.command &&
      (MatcherFires(hs[i], m, matcher) || PrefixFires(hs[i], m, prefix))
  }

  /**
   * Each call names a handler that fired, and it ran exactly when that
   * command is not blacklisted in the message's channel.
   */
  lemma {:induction false} AllCallsSource(t: Table, hs: seq<Handler>, m: Message, prefix: string, matcher: (Message, Handler) -> bool)
    ensures forall k :: 0 <= k < |AllCalls(t, hs, m, prefix, matcher)| ==>
      && (AllCalls(t, hs, m, prefix, matcher)[k].Ran? <==> !Blocked(t, m.channel, AllCalls(t, hs, m, prefix, matcher)[k].command))
      && FromFiredHandler(hs, AllCalls(t, hs, m, prefix, matcher)[k], m, prefix, matcher)
  {
    if hs != [] {
      var init := hs[..|hs| - 1];
      var h := hs[|hs| - 1];
      AllCallsSource(t, init, m, prefix, matcher);
      var before := AllCalls(t, init, m, prefix, matcher);
      var calls := before + HandlerCalls(t, h, m, prefix, matcher);
      assert calls == AllCalls(t, hs, m, prefix, matcher);
      forall k | 0 <= k < |calls|
        ensures (calls[k].Ran? <==> !Blocked(t, m.channel, calls[k].command))
        ensures FromFiredHandler(hs, calls[k], m, prefix, matcher)
      {
        if k < |before| {
          assert calls[k] == before[k];
          assert FromFiredHandler(init, before[k], m, prefix, matcher);
          var i :| 0 <= i < |init| && init[i].chatCommand == before[k].command &&
            (MatcherFires(init[i], m, matcher) || PrefixFires(init[i], m, prefix));
          assert hs[i] == init[i];
        } else {
          assert hs[|hs| - 1] == h;
        }
      }
    }
  }

  /**
   * The walk over two runs of handlers is the walk over the first followed
   * by the walk over the second: each handler's calls depend on that
   * handler alone, and they come in handler order.
   */
  lemma {:induction false} AllCallsAppend(t: Table, hs: seq<Handler>, more: seq<Handler>, m: Message, prefix: string,
                                          matcher: (Message, Handler) -> bool)
    ensures AllCalls(t, hs + more, m, prefix, matcher) == AllCalls(t, hs, m, prefix, matcher) + AllCalls(t, more, m, prefix, matcher)
    decreases |more|
  {
    if more == [] {
      assert hs + more == hs;
    } else {
      var init := more[..|more| - 1];
      var h := more[|more| - 1];
      assert (hs + more)[..|hs + more| - 1] == hs + init;
      AllCallsAppend(t, hs, init, m, prefix, matcher);
      ConcatAssoc(AllCalls(t, hs, m, prefix, matcher), AllCalls(t, init, m, prefix, matcher), HandlerCalls(t, h, m, prefix, matcher));
    }
  }

  /** One handler of the walk: its calls extend the calls so far, and the walk has handled the message once anything fired. */
  lemma WalkStep(t: Table, hs: seq<Handler>, i: nat, m: Message, prefix: string, matcher: (Message, Handler) -> bool,
                 before: seq<Call>, middle: seq<Call>, after: seq<Call>)
    requires i < |hs| && before == AllCalls(t, hs[..i], m, prefix, matcher)
    requires middle == before + (if MatcherFires(hs[i], m, matcher) then [CallOf(t, hs[i], m)] else [])
    requires after == middle + (if PrefixFires(hs[i], m, prefix) then [CallOf(t, hs[i], m)] else [])
    ensures after == AllCalls(t, hs[..i + 1], m, prefix, matcher)
    ensures after != [] <==> before != [] || MatcherFires(hs[i], m, matcher) || PrefixFires(hs[i], m, prefix)
  {
    assert hs[..i + 1] == hs[..i] + [hs[i]];
    AllCallsAppend(t, hs[..i], [hs[i]], m, prefix, matcher);
    assert [hs[i]][..0] == [];
    ConcatAssoc(before, if MatcherFires(hs[i], m, matcher) then [CallOf(t, hs[i], m)] else [],
      if PrefixFires(hs[i], m, prefix) then [CallOf(t, hs[i], m)] else []);
  }

  /**
   * A message without the prefix goes to the forced-prefix commands; one
   * with it is walked with a text that contains a space and extends the
   * original, and falls to the unknown-command path exactly when no
   * handler fires.
   */
  lemma DispatchRoutes(t: Table, msg: Message, prefix: string, hs: seq<Handler>, matcher: (Message, Handler) -> bool)
    ensures var d := DispatchSpec(t, msg, prefix, hs, matcher);
      && (d.ForcedPrefix? <==> !(prefix <= msg.text))
      && (d.Prefixed? ==>
           && ' ' in d.text && msg.text <= d.text && |d.calls| <= 2 * |hs|
           && (d.unknown <==> forall i :: 0 <= i < |hs| ==>
                !MatcherFires(hs[i], msg.(text := d.text), matcher) && !PrefixFires(hs[i], msg.(text := d.text), prefix)))
      && (d.Prefixed? && ' ' in msg.text ==> d.text == msg.text)
  {
    if prefix <= msg.text {
      AllCallsLength(t, hs, msg.(text := Padded(msg.text)), prefix, matcher);
      AllCallsEmpty(t, hs, msg.(text := Padded(msg.text)), prefix, matcher);
    }
  }

  /** The command blacklist and the operations on it. */
  class CommandBlacklist {
    var table: Table

    constructor()
      ensures table == map[]
    {
      table := map[];
    }

    method EnsureBlacklist(channel: string)
      modifies this
      ensures table == Ensured(old(table), channel)
    {
      if channel !in table {
        table := table[channel := []];
      }
    }

    /** Whether some registered handler has `chat_command == target` (the `for i in main.bot.commands` search). */
    static method IsRegistered(handlers: seq<Handler>, target: string) returns (found: bool)
      ensures found <==> target in Names(handlers)
    {
      var i := 0;
      while i < |handlers|
        invariant 0 <= i <= |handlers|
        invariant forall j :: 0 <= j < i ==> handlers[j].chatCommand != target
      {
        if handlers[i].chatCommand == target {
          assert Names(handlers)[i] == target;
          return true;
        }
        i := i + 1;
      }
      return false;
    }

    method BlacklistCommand(msg: Message, handlers: seq<Handler>) returns (reply: Reply)
      modifies this
      ensures (table, reply) == BlacklistOutcome(old(table), msg.channel, Split(msg.text, ' '), Names(handlers))
    {
      EnsureBlacklist(msg.channel);
      var args := Split(msg.text, ' ');
      if |args| != 2 {
        return Usage;
      }
      var target := args[1];
      if target in table[msg.channel] {
        return AlreadyBlacklisted;
      }
      var found := IsRegistered(handlers, target);
      if found {
        table := table[msg.channel := table[msg.channel] + [target]];
        return Blacklisted(target);
      }
      return Nonexistent(target);
    }

    method UnblacklistCommand(msg: Message, handlers: seq<Handler>) returns (reply: Reply)
      modifies this
      ensures (table, reply) == UnblacklistOutcome(old(table), msg.channel, Split(msg.text, ' '), Names(handlers))
    {
      EnsureBlacklist(msg.channel);
      var args := Split(msg.text, ' ');
      if |args| != 2 {
        return Usage;
      }
      var target := args[1];
      var found := IsRegistered(handlers, target);
      if !found {
        return Nonexistent(target);
      }
      if target !in table[msg.channel] {
        return NotBlacklisted(target);
      }
      table := table[msg.channel := RemoveFirst(table[msg.channel], target)];
      return Unblacklisted(target, msg.channel);
    }

    /**
     * `command_join_blacklisted`, with the list written under the joined
     * channel; a `Joining` reply stands for the confirmation and the join.
     */
    method JoinBlacklisted(msg: Message, handlers: seq<Handler>, connected: seq<string>) returns (reply: Reply)
      modifies this
      ensures (table, reply) == JoinOutcome(old(table), msg.channel, JoinArgument(msg.text), Names(handlers), connected)
    {
      EnsureBlacklist(msg.channel);
      var arg := JoinArgument(msg.text);
      if arg.None? {
        return Raised;
      }
      var chan := arg.value;
      if chan == "all" {
        return CannotJoin(chan);
      }
      if chan in connected {
        return AlreadyIn(chan);
      }
      var t1 := table;
      var list := Names(handlers);
      table := t1[chan := list];
      if MbBlacklist !in list {
        return Raised;
      }
      list := RemoveFirst(list, MbBlacklist);
      table := t1[chan := list];
      if MbUnblacklist !in list {
        return Raised;
      }
      list := RemoveFirst(list, MbUnblacklist);
      table := t1[chan := list];
      if MbList !in list {
        return Raised;
      }
      list := RemoveFirst(list, MbList);
      table := t1[chan := list];
      return Joining(chan);
    }

    /**
     * `command_list_blacklisted`: the channel's stored list, in order, after
     * ensuring it, and its length; the listed commands are exactly the ones
     * blocked there.
     */
    method ListBlacklisted(channel: string) returns (count: nat, listed: seq<string>)
      modifies this
      ensures table == Ensured(old(table), channel)
      ensures listed == Ensured(old(table), channel)[channel]
      ensures count == |listed|
      ensures forall c :: c in listed <==> Blocked(old(table), channel, c)
    {
      EnsureBlacklist(channel);
      listed := table[channel];
      count := |listed|;
    }

    /** `_acall_command_handlers`, reading the table and changing nothing. */
    method Dispatch(msg: Message, prefix: string, handlers: seq<Handler>, matcher: (Message, Handler) -> bool)
      returns (d: Dispatched)
      ensures d == DispatchSpec(table, msg, prefix, handlers, matcher)
    {
      if !(prefix <= msg.text) {
        return ForcedPrefix;
      }
      var m := msg;
      if ' ' !in m.text {
        m := m.(text := m.text + " ");
      }
      var handled := false;
      var calls: seq<Call> := [];
      var i := 0;
      while i < |handlers|
        invariant 0 <= i <= |handlers|
        invariant calls == AllCalls(table, handlers[..i], m, prefix, matcher)
        invariant handled <==> calls != []
      {
        var h := handlers[i];
        ghost var before := calls;
        if h.hasMatcher && matcher(m, h) {
          calls := calls + [CallOf(table, h, m)];
          handled := true;
        }
        ghost var middle := calls;
        if prefix + h.efCommand <= m.text {
          calls := calls + [CallOf(table, h, m)];
          handled := true;
        }
        assert before + [] == before && middle + [] == middle;
        WalkStep(table, handlers, i, m, prefix, matcher, before, middle, calls);
        i := i + 1;
      }
      assert handlers[..i] == handlers;
      return Prefixed(m.text, calls, !handled);
    }
  }

  // ---------------------------------------------------------------------
  // Fire alarm
  // ---------------------------------------------------------------------

  /**
   * Who is pinged: holders of the framework's global-bypass permission
   * (`bypass`), `util.fire_ping` or `parent.bot_admin`, unless they also hold
   * `util.fire_ping_disable`.
   */
  predicate PingWanted(perms: seq<string>, bypass: string)
  {
    (bypass in perms || "util.fire_ping" in perms || "parent.bot_admin" in perms)
      && "util.fire_ping_disable" !in perms
  }

  /** The pinged users, in the permission table's order. */
  function Pinged(users: seq<(string, seq<string>)>, bypass: string): seq<string>
  {
    if users == [] then []
    else
      var last := users[|users| - 1];
      Pinged(users[..|users| - 1], bypass) + (if PingWanted(last.1, bypass) then [last.0] else [])
  }

  /** The mention string: ` @name` per pinged user. */
  function Mentions(names: seq<string>): string
  {
    if names == [] then "" else Mentions(names[..|names| - 1]) + " @" + names[|names| - 1]
  }

  /** A user is pinged exactly when some entry of theirs wants the ping; the ping list keeps the table's order. */
  lemma {:induction false} PingedSpec(users: seq<(string, seq<string>)>, bypass: string)
    ensures |Pinged(users, bypass)| <= |users|
    ensures forall name :: name in Pinged(users, bypass) <==>
      exists i :: 0 <= i < |users| && users[i].0 == name && PingWanted(users[i].1, bypass)
  {
    if users != [] {
      var init := users[..|users| - 1];
      PingedSpec(init, bypass);
      forall name ensures name in Pinged(users, bypass) <==>
        exists i :: 0 <= i < |users| && users[i].0 == name && PingWanted(users[i].1, bypass)
      {
        if name in Pinged(init, bypass) {
          var i :| 0 <= i < |init| && init[i].0 == name && PingWanted(init[i].1, bypass);
          assert users[i] == init[i];
        }
        if exists i :: 0 <= i < |users| && users[i].0 == name && PingWanted(users[i].1, bypass) {
          var i :| 0 <= i < |users| && users[i].0 == name && PingWanted(users[i].1, bypass);
          if i < |init| {
            assert init[i] == users[i];
          }
        }
      }
    }
  }

  /** Each mention is a space, an `@` and the name, so the string grows by that much per user. */
  lemma {:induction false} MentionsLength(names: seq<string>)
    ensures |Mentions(names)| == 2 * |names| + SumLengths(names)
  {
    if names != [] {
      MentionsLength(names[..|names| - 1]);
    }
  }

  function SumLengths(names: seq<string>): nat
  {
    if names == [] then 0 else SumLengths(names[..|names| - 1]) + |names[|names| - 1]|
  }

  /** `ExceptionDetectionMiddleware`: the alarm goes off once per process. */
  class FireDetector {
    var fireTriggered: bool

    constructor()
      ensures !fireTriggered
    {
      fireTriggered := false;
    }

    /**
     * `fire`: the first call returns the mention string of the alert (empty
     * when the event's source is not a bot); every later call sends nothing.
     */
    method Fire(sourceIsBot: bool, users: seq<(string, seq<string>)>, bypass: string) returns (alert: Option<string>)
      modifies this
      ensures fireTriggered
      ensures old(fireTriggered) ==> alert.None?
      ensures !old(fireTriggered) ==> alert == Some(if sourceIsBot then Mentions(Pinged(users, bypass)) else "")
    {
      if fireTriggered {
        return None;
      }
      fireTriggered := true;
      var pinged := "";
      if sourceIsBot {
        var i := 0;
        while i < |users|
          invariant 0 <= i <= |users|
          invariant pinged == Mentions(Pinged(users[..i], bypass))
        {
          var (user, perms) := users[i];
          ghost var before := Pinged(users[..i], bypass);
          assert users[..i + 1][..i] == users[..i] && users[..i + 1][i] == users[i];
          if PingWanted(perms, bypass) {
            assert Pinged(users[..i + 1], bypass) == before + [user];
            assert (before + [user])[..|before|] == before;
            pinged := pinged + " @" + user;
          } else {
            assert Pinged(users[..i + 1], bypass) == before + [];
            assert before + [] == before;
          }
          i := i + 1;
        }
        assert users[..i] == users;
      }
      return Some(pinged);
    }

    /** `on_action`: only an event named `fire` reaches the alarm. */
    method OnAction(eventName: string, sourceIsBot: bool, users: seq<(string, seq<string>)>, bypass: string)
      returns (alert: Option<string>)
      modifies this
      ensures eventName != "fire" ==> alert.None? && fireTriggered == old(fireTriggered)
      ensures eventName == "fire" ==> fireTriggered
      ensures alert.Some? <==> eventName == "fire" && !old(fireTriggered)
    {
      if eventName == "fire" {
        alert := Fire(sourceIsBot, users, bypass);
      } else {
        alert := None;
      }
    }
  }
}
