# UtilityBot core, modelled in Dafny

UtilityBot is a Twitch chat bot built as a set of plugins. This project
models the parts of five plugins that make decisions from state held in
memory.

- **The blacklist plugin** holds a list of deny rules (`BlacklistEntry`).
  - A middleware consults the rules before every command runs and cancels the command when a rule matches.
  - A rule whose expiry time has come is taken out of the list on the check that sees it and queued for deletion.
  - A background sweep drains that queue.
  - The `plonk` command parses `key:value` options, including a duration grammar (`TIMEDELTA_REGEX`), and appends new rules.
- **The plugin manager** keeps a per-channel table of blacklisted command names.
  - It has three commands that edit that table and one that lists it.
  - It has a command that joins a channel with everything but the management commands blacklisted.
  - It has the command dispatcher that consults the table.
  - It has a one-shot "fire" alarm that pings the bot's administrators.
- **The su plugin** lets a user act as another account.
  - A rewrite applies to every incoming message before dispatch.
  - The `mb.su` and `mb.whoami` commands read and change that map.
- **The uptime plugin** keeps a queue of pending API requests.
  - A periodic pass handles every queued request. Handling a request may queue a follow-up.
  - It parses Twitch's `1h2m3s` video durations.
- **The whois plugin** builds the reply text.
  - It spells a user's roles with the last separator removed.
  - It shows the login when it differs from the display name.
  - It adds bot notes.
  - It caches the bot list, reloading it when the list is empty or ten minutes old.

Files and modules:

| file | module | what it holds |
|---|---|---|
| `text.dfy` | `Text` | Python string and list built-ins |
| `blacklist_rules.dfy` | `BlacklistRules` | a rule and how it matches an action |
| `blacklist_args.dfy` | `BlacklistArgs` | the duration grammar and the `plonk` option parser |
| `blacklist_engine.dfy` | `BlacklistEngine` | the class `Engine`: the rule list, the expiry queue, the middleware, the sweep, reload and `plonk` |
| `plugin_manager.dfy` | `PluginManager` | the class `CommandBlacklist` with its dispatcher, and the class `FireDetector` |
| `su.dfy` | `SuPlugin` | the class `SuSessions` |
| `uptime.dfy` | `Uptime` | the duration parser and the class `RequestQueue` |
| `whois.dfy` | `Whois` | the reply pieces and the class `BotCache` |

`Text` models these Python built-ins:
- `str.split`, and `str.split` with a limit of 1;
- `rstrip` and `lstrip`;
- ASCII `lower`;
- `int` on digit strings;
- `list.remove`.

Module-level state that the source changes in place becomes a class. Its methods are proved against pure functions of the old state. Properties that relate several operations are lemmas about those functions.

The model follows the code on these points, which a reader may not expect:
- The blacklist middleware checks every rule, so every rule that is due expires, even after a match.
- A rule that expires on a check still denies on that check.
- Unknown `plonk` option keys are ignored.
- A scoped `plonk` that fails on a later channel keeps the rules it already added for earlier channels.

Where the code has a defect listed under "## Findings", a member reproduces the code as written and exhibits the defect. The rest of the model uses the corrected behaviour; "## Left out" names the members this affects.

## Model

| member | source | states |
|---|---|---|
| BlacklistRules.GuardsReject | plugins/plugin_blacklist.py:103-116 | A rule whose `is_active` is `False` never denies. A rule that sets none of command, channel and user never denies either. |
| BlacklistRules.NullActiveFlagPasses | plugins/plugin_blacklist.py:103-106 | A NULL `is_active` behaves exactly like `True`; only a literal `False` disables a rule. |
| BlacklistRules.MatchIgnoresCase | plugins/plugin_blacklist.py:88-101 | Whether a rule matches does not depend on the case of the user, channel or command it is checked against. |
| BlacklistRules.MatchIgnoresTrailingSpace | plugins/plugin_blacklist.py:98-101 | A trailing space on the command name does not change whether a rule matches. |
| BlacklistRules.ChannelOnlyRule | plugins/plugin_blacklist.py:88-110 | A rule that names only a channel denies exactly the actions in that channel, compared case-insensitively. |
| BlacklistRules.DeniesIffSetFieldsAgree | plugins/plugin_blacklist.py:88-116 | A rule that passes the guards denies an action exactly when every field it sets agrees with the action. Both directions are stated. |
| BlacklistRules.FieldsMatchAsWritten | plugins/plugin_blacklist.py:98-101 | As written, the field test raises exactly when the command column holds the `True` of `command:all` and the channel test passes. Otherwise it is the plain field match. |
| BlacklistRules.AllRuleRaisesAsWritten | plugins/plugin_blacklist.py:98-101 | The global rule for everyone and every command raises on every action, as written. |
| BlacklistRules.AllRuleDeniesEverything | plugins/plugin_blacklist.py:98-110 | Corrected: an active `command:all` rule denies exactly the actions its channel and user allow. Without a channel and a user, it denies every action. |
| BlacklistArgs.IntOf | plugins/plugin_blacklist.py:226-229 | `int` succeeds exactly on a non-empty digit string. |
| BlacklistArgs.Delta | plugins/plugin_blacklist.py:226-231 | The corrected duration is never negative, so an expiry is never before the time of the command. |
| BlacklistArgs.UnitHeadValue | plugins/plugin_blacklist.py:119-120 | The number in front of `h`, `m` or `s` is all digits and at most 59. |
| BlacklistArgs.UnitGroupBounded | plugins/plugin_blacklist.py:119-120 | A matched hours, minutes or seconds group reads as at most 59, whatever spelling of the unit follows. |
| BlacklistArgs.UnitGroupsBounded | plugins/plugin_blacklist.py:119-120 | In every match, the hours, minutes and seconds are each at most 59. The days are unbounded. |
| BlacklistArgs.GroupValueAsWrittenShortForm | plugins/plugin_blacklist.py:226-229 | On a one-letter unit, the code's `int(group[:-1])` agrees with the corrected reading. |
| BlacklistArgs.GroupValueAsWrittenLongForm | plugins/plugin_blacklist.py:226-229 | On any spelling longer than one letter, the code's `int(group[:-1])` raises. |
| BlacklistArgs.LongDaysGroup | plugins/plugin_blacklist.py:119-120 | `<digits>days` is matched whole as the days group, and the other groups do not take part. |
| BlacklistArgs.LongDaysRaisesAsWritten | plugins/plugin_blacklist.py:226-229 | As written, every `<n>days` (for example `1days`) is accepted by the grammar and then makes `int` raise. |
| BlacklistArgs.LongDaysRead | plugins/plugin_blacklist.py:226-229 | Corrected: `<n>days` is read as n·86400 seconds, for every n. |
| BlacklistArgs.DaysGroupOfNumber | plugins/plugin_blacklist.py:119-120 | A number followed by `d` forms exactly the days group, which reads back as that number in both readings. |
| BlacklistArgs.ShortDaysLen | plugins/plugin_blacklist.py:119 | A `d` after the leading digits that is not followed by `ays` ends the days group right after the `d`. |
| BlacklistArgs.DaysGroupValue | plugins/plugin_blacklist.py:226 | The days group `<n>d` reads back as n, both in the code and corrected. |
| BlacklistArgs.UnitGroupOfNumber | plugins/plugin_blacklist.py:119-120 | A number below 60 followed by its unit letter forms exactly that unit's group, which reads back as that number in both readings. |
| BlacklistArgs.CanonicalGroups | plugins/plugin_blacklist.py:119-120 | The match of `<d>d<h>h<m>m<s>s` has the four numbers as its groups. |
| BlacklistArgs.CanonicalRoundTrip | plugins/plugin_blacklist.py:218-231 | Round trip: spelling a duration canonically and parsing it gives back its length in seconds, as written and corrected. |
| BlacklistArgs.GroupReadingsAgree | plugins/plugin_blacklist.py:226-229 | A group with a non-digit in it: wherever the code's `int(group[:-1])` succeeds, it reads the same number as the corrected reading. |
| BlacklistArgs.DaysGroupAgrees | plugins/plugin_blacklist.py:226 | The days group of any match reads the same in both readings wherever the code's conversion succeeds. |
| BlacklistArgs.UnitGroupAgrees | plugins/plugin_blacklist.py:227-229 | The hours, minutes and seconds groups of any match read the same in both readings wherever the code's conversion succeeds. |
| BlacklistArgs.DeltaReadingsAgree | plugins/plugin_blacklist.py:224-231 | For every `expires:` value, whenever the code computes a duration, the corrected duration is the same. The correction changes only the values on which the code raises. |
| BlacklistArgs.LastMatch | plugins/plugin_blacklist.py:209-212 | The resolved command is the last registered name that equals the argument case-insensitively. No later name matches. |
| BlacklistArgs.ScopeChannels | plugins/plugin_blacklist.py:194-199 | A channel list is rejected exactly when some entry, with `#` stripped and lower-cased, is not connected. Otherwise it is those names, in order. |
| BlacklistArgs.ParseArgs | plugins/plugin_blacklist.py:177-233 | The option loop computes the left fold of the per-word update over the words split on single spaces, starting from the defaults. It stops at the first error. `expires` durations are read the corrected way of the second Findings row. |
| BlacklistArgs.WordWithoutColonRejected | plugins/plugin_blacklist.py:184-188 | A word without `:` is a syntax error naming that word. |
| BlacklistArgs.WordIsPair | plugins/plugin_blacklist.py:184-189 | A `key:value` word acts as the pair `(key, value)`. |
| BlacklistArgs.UnknownKeyIgnored | plugins/plugin_blacklist.py:189-231 | A key other than scope, user, command and expires leaves the options unchanged. |
| BlacklistArgs.GlobalSentinel | plugins/plugin_blacklist.py:189-192 | `scope:global`, in any case, sets the global scope. |
| BlacklistArgs.EveryoneSentinel | plugins/plugin_blacklist.py:200-202 | `user:everyone`, in any case, targets every user. |
| BlacklistArgs.AllCommandsSentinel | plugins/plugin_blacklist.py:205-207 | `command:all`, in any case, targets every command. |
| BlacklistArgs.ApplyWordsAppend | plugins/plugin_blacklist.py:184-233 | Parsing words in two parts: after an error in the first part the rest is never read. Otherwise the second part continues from the options the first part reached. |
| BlacklistArgs.UpdateOfKey | plugins/plugin_blacklist.py:189-231 | Each of the four keys updates its own option and no other. |
| BlacklistArgs.RepeatedKeyOverwrites | plugins/plugin_blacklist.py:184-231 | When a key is given twice, the last value wins. |
| BlacklistArgs.DistinctKeysCommute | plugins/plugin_blacklist.py:184-231 | Options with different keys can be given in either order. |
| BlacklistArgs.ExpiresNeverFails | plugins/plugin_blacklist.py:218-231 | Corrected: `expires:` never gives the "doesn't match regex" reply, because the all-optional pattern always matches. Any value other than `never` gives an expiry no earlier than now. |
| BlacklistEngine.SurvivingMembers | plugins/plugin_blacklist.py:307-314 | After a middleware pass, the rule list holds exactly the rules that were not due to expire. |
| BlacklistEngine.ExpiringMembers | plugins/plugin_blacklist.py:69-72 | A pass queues for deletion exactly the rules that were due to expire. |
| BlacklistEngine.PassPartitions | plugins/plugin_blacklist.py:307-314 | Kept and queued rules together are a permutation of the rules before the pass. |
| BlacklistEngine.SecondPassKeepsAll | plugins/plugin_blacklist.py:307-314 | A second pass at the same time removes and queues nothing. |
| BlacklistEngine.SurvivingNoDup | plugins/plugin_blacklist.py:307-314 | A pass keeps the rule list free of duplicate objects. |
| BlacklistEngine.SurvivingValid | plugins/plugin_blacklist.py:307-314 | A pass keeps distinct, already numbered objects, none of them due to expire. |
| BlacklistEngine.CheckEffectSpec | plugins/plugin_blacklist.py:103-110 | One `check`: its verdict is the rule's match, and `list.remove` fails exactly when a due rule is no longer in the list. A due rule in the list is removed and queued. Otherwise the list and the queue are unchanged. |
| BlacklistEngine.RunPass | plugins/plugin_blacklist.py:307-314 | Checking a snapshot rule by rule leaves the kept rules followed by the unchecked rest and queues the due rules. The event is cancelled iff some rule denied. |
| BlacklistEngine.TargetOutcome | plugins/plugin_blacklist.py:249-260 | A user lookup is usable exactly when the rule is for everyone or the name resolves to one user, and then that user is the target. No match is "failed to find user", and several matches are "multiple users". |
| BlacklistEngine.KeyedSpec | plugins/plugin_blacklist.py:144-148 | Loaded rows become distinct new objects, one per row, in order. |
| BlacklistEngine.ScopedPlanShape | plugins/plugin_blacklist.py:262-280 | A scoped `plonk` adds one rule per channel when it succeeds, and every added rule comes from its channel's lookup. When it fails, it adds fewer, and the reply is the error of the first channel that got no rule. |
| BlacklistEngine.ScopedPlanFailsAtOnce | plugins/plugin_blacklist.py:262-276 | When the user lookup fails, a scoped `plonk` adds no rule for any channel. |
| BlacklistEngine.ManageAddsEffectiveRules | plugins/plugin_blacklist.py:247-280 | Every rule `plonk` adds is active, names a command and passes the guards. |
| BlacklistEngine.ManageErrorsAddNothing | plugins/plugin_blacklist.py:235-280 | Help, a parse error, a missing command or user, and an unknown or ambiguous user add no rule, in global and scoped mode alike. Help is given exactly when the trimmed text has no space. |
| BlacklistEngine.ManageChecksInOrder | plugins/plugin_blacklist.py:240-246 | After parsing, a missing command is reported whatever the user. A missing user is reported only once a command is given. With both given, the reply is neither. |
| BlacklistEngine.EveryoneAllArgs | plugins/plugin_blacklist.py:184-207 | `scope:global user:everyone command:all` parses to the all-everyone options. |
| BlacklistEngine.PlonkEveryoneAll | plugins/plugin_blacklist.py:235-260 | That command adds one global rule, which (corrected) denies every action. |
| BlacklistEngine.Engine.constructor | plugins/plugin_blacklist.py:122 | Starts with no rules, an empty expiry queue and nothing deleted. |
| BlacklistEngine.Engine.Check | plugins/plugin_blacklist.py:103-110 | The new list, the new queue and the verdict are those of `CheckEffect`, and the invariant is kept. A `command:all` rule is read the corrected way of the first Findings row. |
| BlacklistEngine.Engine.Middleware | plugins/plugin_blacklist.py:307-314 | The event is cancelled iff some rule denies. The list becomes the rules not due, with no due rule left. The queue grows by the due rules. `command:all` rules are read the corrected way. |
| BlacklistEngine.Engine.Sweep | plugins/plugin_blacklist.py:161-175 | The sweep deletes exactly the queued rules, in order, and empties the queue. |
| BlacklistEngine.Engine.Reload | plugins/plugin_blacklist.py:144-148 | The list is replaced by fresh objects for the loaded rows, none of them an old object. |
| BlacklistEngine.Engine.Append | plugins/plugin_blacklist.py:252-255 | A new rule object is appended at the end. |
| BlacklistEngine.Engine.ManageBlacklists | plugins/plugin_blacklist.py:235-281 | `plonk` replies as planned and appends exactly the planned rules as new objects. Its `expires` durations are read the corrected way. |
| BlacklistEngine.Engine.AddPerChannel | plugins/plugin_blacklist.py:262-280 | The per-channel loop appends exactly the scoped plan's rules and stops at the first channel that gets no rule. |
| PluginManager.Ensured | plugins/plugin_manager.py:251-253 | `ensure_blacklist` gives the channel an empty list when it has none and changes no existing list. |
| PluginManager.EnsuredIdempotent | plugins/plugin_manager.py:251-253 | Ensuring twice is ensuring once. |
| PluginManager.EnsuredBlocksNothing | plugins/plugin_manager.py:251-253 | Ensuring a list never changes what is blocked. |
| PluginManager.BlacklistSpec | plugins/plugin_manager.py:204-221 | Blacklisting succeeds exactly for two words naming a registered command that is not yet blocked. It then blocks that command, keeps the list free of duplicates and changes no other channel. Otherwise the reply is the usage for a wrong word count, then "already blacklisted", then "no such command". |
| PluginManager.UnblacklistSpec | plugins/plugin_manager.py:184-201 | Unblacklisting succeeds exactly for two words naming a registered, blocked command. It then lifts the block and changes no other channel. Otherwise the reply is the usage for a wrong word count, then "no such command", then "not blacklisted". |
| PluginManager.BlacklistAppends | plugins/plugin_manager.py:216-218 | A successful blacklist appends the command to the channel's ensured list. |
| PluginManager.UnblacklistDropsLast | plugins/plugin_manager.py:199 | Removing the last, unique entry gives back the list before it. |
| PluginManager.UnblacklistUndoesBlacklist | plugins/plugin_manager.py:184-221 | Unblacklisting right after blacklisting the same command restores the table (up to the ensured list). |
| PluginManager.JoinArgument | plugins/plugin_manager.py:236 | The join argument is missing, which raises `IndexError`, exactly when the text has no space. |
| PluginManager.StripManagementSucceeds | plugins/plugin_manager.py:242-245 | The three `remove` calls succeed exactly when the three management commands are registered. |
| PluginManager.StripManagementContents | plugins/plugin_manager.py:242-245 | After them, every other command is still listed. On a duplicate-free registry, none of the three is. |
| PluginManager.JoinSucceeds | plugins/plugin_manager.py:234-248 | A join succeeds exactly when the argument is present, is not `all`, is not a connected channel, and the management commands are registered. Only the lists of the issuing and the joined channel change. |
| PluginManager.JoinBlocksAllButManagement | plugins/plugin_manager.py:242-247 | Corrected: after a join, the joined channel blocks every registered command except the three management ones. |
| PluginManager.JoinAsWrittenBlocksWrongChannel | plugins/plugin_manager.py:242-245 | As written, the joined channel blocks nothing, and the issuing channel blocks every non-management command. |
| PluginManager.CallOf | plugins/plugin_manager.py:58-66 | A handler call runs exactly when its command is not blacklisted in the message's channel. |
| PluginManager.Padded | plugins/plugin_manager.py:97-98 | The walked text contains a space and extends the original. |
| PluginManager.AllCallsLength | plugins/plugin_manager.py:99-105 | A handler is called at most twice per message. |
| PluginManager.AllCallsEmpty | plugins/plugin_manager.py:99-107 | No handler is called exactly when no handler's matcher or prefix fires. |
| PluginManager.AllCallsSource | plugins/plugin_manager.py:99-105 | Every call belongs to a handler that fired. It ran exactly when that command is not blacklisted in the channel. |
| PluginManager.AllCallsAppend | plugins/plugin_manager.py:99-105 | The walk over two runs of handlers gives the calls of the first run followed by those of the second: each handler's calls depend on that handler alone, in handler order. |
| PluginManager.WalkStep | plugins/plugin_manager.py:99-105 | One handler of the walk appends its calls, matcher first, then prefix. After it, the message counts as handled exactly when something has fired so far. |
| PluginManager.DispatchRoutes | plugins/plugin_manager.py:93-110 | A message without the prefix goes to the forced-prefix commands. Otherwise it is walked with a padded text and falls to the unknown-command path exactly when nothing fires. |
| PluginManager.CommandBlacklist.constructor | plugins/plugin_manager.py:47-49 | The table starts empty. |
| PluginManager.CommandBlacklist.EnsureBlacklist | plugins/plugin_manager.py:251-253 | The table becomes `Ensured` of the old one. |
| PluginManager.CommandBlacklist.IsRegistered | plugins/plugin_manager.py:216-217 | The search finds the command exactly when some handler has that name. |
| PluginManager.CommandBlacklist.BlacklistCommand | plugins/plugin_manager.py:204-221 | The new table and the reply are those of `BlacklistOutcome`. |
| PluginManager.CommandBlacklist.UnblacklistCommand | plugins/plugin_manager.py:184-201 | The new table and the reply are those of `UnblacklistOutcome`. |
| PluginManager.CommandBlacklist.JoinBlacklisted | plugins/plugin_manager.py:234-248 | The new table and the reply are those of the corrected join. |
| PluginManager.CommandBlacklist.ListBlacklisted | plugins/plugin_manager.py:224-229 | The reply lists the channel's stored list itself, in order, with its length. Its entries are exactly the commands blocked there. The table becomes the ensured one. |
| PluginManager.CommandBlacklist.Dispatch | plugins/plugin_manager.py:93-110 | The dispatcher's route, text and calls are those of `DispatchSpec`, every handler checked against the table as it was when the walk began. |
| PluginManager.PingedSpec | plugins/plugin_manager.py:281-288 | A user is pinged exactly when their permissions include a ping permission and not the opt-out. The ping list is no longer than the table. |
| PluginManager.MentionsLength | plugins/plugin_manager.py:288 | Each mention adds ` @` and the name. |
| PluginManager.FireDetector.constructor | plugins/plugin_manager.py:265-267 | The alarm starts untriggered. |
| PluginManager.FireDetector.Fire | plugins/plugin_manager.py:275-294 | Only the first fire sends an alert, whose mentions are the pinged users when the source is a bot. The alarm then stays triggered. |
| PluginManager.FireDetector.OnAction | plugins/plugin_manager.py:270-273 | An alert is sent exactly for a `fire` event while the alarm is untriggered. Other events change nothing. |
| SuPlugin.ImpersonatedSpec | plugins/plugin_su.py:53-61 | The rewrite records the real user. A user without a session passes through unchanged. A session replaces the user and, only when it names one, the channel. |
| SuPlugin.ImpersonationDoesNotChain | plugins/plugin_su.py:53-61 | The rewrite is single-level: a user who acts as someone who is su-ed in turn does not act as that someone's target. |
| SuPlugin.WhoAmIAfterRewrite | plugins/plugin_su.py:156-161 | After the rewrite, `whoami` addresses the real sender and reports the account being acted as. |
| SuPlugin.GuardNeverRefusesDispatched | plugins/plugin_su.py:112-113 | As written, a dispatched message from a sender without `su.su` is served exactly as if the sender had it. It is never refused, and a plain su switches the account. |
| SuPlugin.GuardRefusesWithoutPermission | plugins/plugin_su.py:110-113 | Corrected: `mb.su` is refused exactly when the sender lacks `su.su`, rewritten message or not, and the sessions stay as they were. |
| SuPlugin.SuOutcomeFrame | plugins/plugin_su.py:111-150 | A plain su sets exactly the sender's entry, and a logout deletes exactly it. Nothing else changes the sessions. |
| SuPlugin.SuThenRewrite | plugins/plugin_su.py:145-149 | After a su, the sender's next message is rewritten to the chosen user and channel. |
| SuPlugin.LogoutUndoesSu | plugins/plugin_su.py:128-139 | A logout right after a first su restores the sessions. |
| SuPlugin.CommandRunsAsTarget | plugins/plugin_su.py:141-144 | `-c` leaves the sessions alone and runs the command through the rewrite as the target user, in the chosen channel. |
| SuPlugin.SuSessions.constructor | plugins/plugin_su.py:45-47 | There are no sessions at start. |
| SuPlugin.SuSessions.Rewrite | plugins/plugin_su.py:53-61 | The forwarded message is `Impersonated` of the incoming one, and the sessions are only read. |
| SuPlugin.SuSessions.CommandSu | plugins/plugin_su.py:111-150 | The new sessions and the reply are those of `SuOutcome`, with the permission guard corrected as in the fourth Findings row. |
| Uptime.Step | plugins/plugin_uptime.py:124-136 | One character keeps the parser state sound: the buffer holds only digits. |
| Uptime.Scan | plugins/plugin_uptime.py:124-136 | A whole string keeps the parser state sound. |
| Uptime.ScanAppend | plugins/plugin_uptime.py:124-136 | Parsing `a + b` is parsing `b` from the state after `a`. |
| Uptime.ScanAfterRaise | plugins/plugin_uptime.py:129-135 | Once `int('')` has raised, nothing recovers. |
| Uptime.ScanDigits | plugins/plugin_uptime.py:125-126 | Digits only accumulate in the buffer. |
| Uptime.Group | plugins/plugin_uptime.py:127-136 | A number and its unit add to seconds or minutes, or overwrite the hours, and clear the buffer. |
| Uptime.GroupStep | plugins/plugin_uptime.py:124-136 | A number followed by its unit letter, read from an empty buffer, acts as the unit letter read with the number in the buffer. |
| Uptime.GroupAfter | plugins/plugin_uptime.py:124-136 | A group after a prefix acts on the state that the prefix left. |
| Uptime.ThreeGroups | plugins/plugin_uptime.py:124-137 | Three groups give the total of the final clock. |
| Uptime.SpelledDuration | plugins/plugin_uptime.py:124-137 | The same, for the `h`, `m`, `s` spelling. |
| Uptime.CanonicalRoundTrip | plugins/plugin_uptime.py:119-137 | Round trip: `<h>h<m>m<s>s` parses back to h·3600 + m·60 + s seconds. |
| Uptime.OtherCharacterIgnored | plugins/plugin_uptime.py:127-136 | A character that is neither a digit nor a unit letter is skipped. |
| Uptime.TrailingDigitsDiscarded | plugins/plugin_uptime.py:124-137 | Digits after the last unit are dropped. |
| Uptime.EmptyGroupRaises | plugins/plugin_uptime.py:128-135 | A unit letter with no digits before it raises. |
| Uptime.TwoGroups | plugins/plugin_uptime.py:124-137 | Two groups of the same unit give the total after both. |
| Uptime.SameUnitTwice | plugins/plugin_uptime.py:128-136 | Two groups of the same unit: a second hours group replaces the first, while minutes and seconds groups add up. |
| Uptime.ParseDuration | plugins/plugin_uptime.py:119-137 | The loop computes `Duration`. |
| Uptime.AppendedFollowUps | plugins/plugin_uptime.py:94-116 | Under the downtime rule, a pass adds at most one follow-up per request, and every follow-up is a video request. |
| Uptime.VideoRequestsAppendNothing | plugins/plugin_uptime.py:140-168 | Video requests add nothing. |
| Uptime.TwoPassesDrain | plugins/plugin_uptime.py:171-181 | Under that rule, the follow-ups of a pass add nothing on the next pass, so two passes empty the queue. |
| Uptime.AppendedAppend | plugins/plugin_uptime.py:173-181 | The follow-ups of two runs of requests are those of the first run followed by those of the second, in queue order. |
| Uptime.QueueStep | plugins/plugin_uptime.py:173-181 | Handling one request and removing it leaves the unhandled rest followed by all follow-ups so far. |
| Uptime.RequestQueue.constructor | plugins/plugin_uptime.py:42 | The queue starts empty. |
| Uptime.RequestQueue.Enqueue | plugins/plugin_uptime.py:57-86 | An uptime or downtime command queues its request unless it is on cooldown. |
| Uptime.RequestQueue.CheckOnRequests | plugins/plugin_uptime.py:171-181 | Every queued request is handled once, in order. Afterwards the queue holds exactly their follow-ups. |
| Whois.Reverse | plugins/plugin_whois.py:107 | Reversal keeps the length. |
| Whois.ReverseAppend | plugins/plugin_whois.py:107 | Reversing a concatenation reverses the order of its parts. |
| Whois.ReverseReverse | plugins/plugin_whois.py:107 | Reversing twice gives the original. |
| Whois.ReverseMembers | plugins/plugin_whois.py:107 | Reversal keeps the characters. |
| Whois.ReplaceAbsent | plugins/plugin_whois.py:107 | A replacement whose pattern does not occur anywhere in the text leaves the text unchanged. |
| Whois.FirstCharAbsent | plugins/plugin_whois.py:107 | A pattern whose first character is missing from the text does not occur in it. |
| Whois.StripLastSeparator | plugins/plugin_whois.py:107 | The reverse, replace-once and reverse pipeline removes exactly a trailing separator. |
| Whois.RoleNames | plugins/plugin_whois.py:96-104 | No role is listed exactly when no flag is set. |
| Whois.SuffixedJoin | plugins/plugin_whois.py:96-107 | The roles text built with a separator after each role is the joined text followed by one separator. |
| Whois.JoinStartsWith | plugins/plugin_whois.py:96-107 | The joined roles start with the first role. |
| Whois.JoinEndsWith | plugins/plugin_whois.py:96-107 | The joined roles end with the last role. |
| Whois.AddRole | plugins/plugin_whois.py:97-104 | Each `if` appends `role, ` exactly when its flag is set. |
| Whois.RolesNone | plugins/plugin_whois.py:105-106 | The roles read `none` exactly when no flag is set. |
| Whois.RolesNoTrailingSeparator | plugins/plugin_whois.py:96-107 | The roles text never ends in a space or a comma. |
| Whois.BuildRoles | plugins/plugin_whois.py:96-107 | The roles text is the roles joined by `, `, or `none`. |
| Whois.LoginSuffix | plugins/plugin_whois.py:109-112 | The login part is empty or the login in parentheses. |
| Whois.LoginSuffixShown | plugins/plugin_whois.py:109-112 | The login is shown exactly when it differs from the display name case-insensitively. |
| Whois.LowerLoginHasNoSuffix | plugins/plugin_whois.py:109-112 | A display name that is the lower-cased login shows no login. |
| Whois.LookupSpec | plugins/plugin_whois.py:151-154 | No bot is found exactly when no bot has the name. Otherwise the first bot with the name is found. |
| Whois.LookupAt | plugins/plugin_whois.py:151-154 | The first bot with the name is the one found. |
| Whois.LookupMissing | plugins/plugin_whois.py:151-154 | An absent name finds nothing. |
| Whois.DropLastFour | plugins/plugin_whois.py:117 | `[:-4]` drops exactly the last four characters, or gives an empty string when there are fewer. |
| Whois.BotNotesShape | plugins/plugin_whois.py:116-121 | Bot notes start with the prefix part. They end with the language part, or with the last-active part when `lastSeen` is set. |
| Whois.CachedForTenMinutes | plugins/plugin_whois.py:62-63 | A loaded, non-empty list is reused for exactly ten minutes after loading. |
| Whois.EmptyListAlwaysReloads | plugins/plugin_whois.py:62 | An empty list is always reloaded. |
| Whois.BotCache.constructor | plugins/plugin_whois.py:134-135 | The cache starts empty, invalidating now. |
| Whois.BotCache.LoadBots | plugins/plugin_whois.py:138-148 | Every load moves the invalidation ten minutes ahead. Only a 200 status replaces the list. |
| Whois.BotCache.Refresh | plugins/plugin_whois.py:62-63 | A stale cache loads, and a fresh one is unchanged. |
| Whois.BotCache.FindBot | plugins/plugin_whois.py:151-154 | The loop finds the first bot with the name, or none. |

## Left out

- Persistence is left out: the SQLAlchemy session, `load_all`, `session.add` and `session.delete`. A loaded or deleted rule is a value, and the database is not modelled.
- The bot's `storage` is left out. The command table starts empty.
- Threads, the expiry lock and the scheduler are left out. The sweep is one atomic operation, and `time.sleep` is not modelled.
- Time is an integer number of seconds. `datetime` and `timedelta` are not modelled, so neither is the `OverflowError` they raise on a very large `expires:` value such as `3000000d`; the model gives such a rule its far expiry.
- `round_time_delta` (float rounding) is left out.
- HTTP requests and JSON decoding are left out.
  - An uptime request's handlers are the opaque function `appends`, which gives the follow-ups each request queues.
  - A whois bot list and its status code are parameters.
- `delete_spammer_chrs` is left out. `plonk` text is taken as already cleaned.
- `shlex` and `twitchirc.ArgumentParser` are left out. `mb.su` receives its already parsed options, and a parse failure is `None`.
- `check_permissions` and `do_cooldown` are left out. Their outcomes are Boolean parameters.
- The user and channel lookup (`main.User.get_by_name`) is the function parameter `lookup`.
- The global-bypass permission name is the parameter `bypass`.
- `send`, `log`, `print`, `flush_queue` and `join` are left out. Replies are datatype values, not the exact text.
- The alert's exception text (`repr` of the exception) is left out, and so is the notification channel.
- The whois reply assembly is left out:
  - the 404 branch;
  - the banned and bot markers;
  - colour, id, bio;
  - `createdAt` parsing.
  - The roles, login and bot-note pieces are modelled.
- The uptime handlers' own replies are left out: `_check_uptime_request`, `_check_downtime_request` and `_check_downtime_2_request`. The video-duration parser they use is modelled.
- Case folding and digit tests are ASCII only. Python's Unicode `lower`, `isnumeric` and `\d` accept more characters.
- Decorators, aliases, `on_reload` and the empty middleware hooks are left out. They only register code or do nothing.
- BlacklistArgs.ParseArgs: reads `expires` durations the corrected way (`Delta`). For a long unit spelling such as `expires:1days`, the code raises `ValueError`; the model adds the rule with a one-day expiry. `BlacklistArgs.DeltaReadingsAgree` shows that the two readings agree wherever the code does not raise.
- BlacklistEngine.ManagePlan and BlacklistEngine.Engine.ManageBlacklists: inherit the corrected `expires` reading from the parser. On a long unit spelling they add rules where the code raises before adding any.
- BlacklistEngine.Engine.Check and BlacklistEngine.Engine.Middleware: read a `command:all` rule the corrected way (it denies every command). The code raises `AttributeError` there once the channel test passes.
- SuPlugin.SuSessions.CommandSu: uses the corrected permission guard, which refuses every sender without `su.su`. The code refuses no dispatched message.
- PluginManager.CommandBlacklist.JoinBlacklisted: writes the stripped command list under the joined channel, the corrected behaviour of the third Findings row. The code writes it under `msg.channel`, the channel the command was sent in; `PluginManager.JoinAsWritten` models that.
- PluginManager.CommandBlacklist.Dispatch: does not model what a handler does when it runs. In particular, `mb.blacklist_command`, `mb.unblacklist_command` and `blacklisted_join` edit the table during the walk, and the handlers after them are then checked against the edited table. The model checks every handler against the table as it was before the walk.
- Uptime.RequestQueue.Enqueue: does not model the HTTP requests made before queuing, only the queued request's user, channel and kind.

## Findings

| source | as written | input that shows it | evidently intended | confidence | as-written member | corrected member |
|---|---|---|---|---|---|---|
| plugins/plugin_blacklist.py:98-101 | `command:all` stores `True` in the command column, and `_check_command` calls `.lower()` on it. | `plonk scope:global user:everyone command:all`, then any command: `AttributeError` in the middleware | an all-commands rule denies every command its channel and user allow | high, not executed | BlacklistRules.AllRuleRaisesAsWritten | BlacklistRules.AllRuleDeniesEverything |
| plugins/plugin_blacklist.py:226-229 | Each group is converted with `int(group[:-1])`, which drops only one character, while the regex accepts `days`, `hours`, `minutes`, `seconds`. | `plonk ... expires:1days`: `int('1day')` raises `ValueError` | the number in front of the unit is read, whatever spelling of the unit follows | high, not executed | BlacklistArgs.LongDaysRaisesAsWritten | BlacklistArgs.LongDaysRead |
| plugins/plugin_manager.py:242-245 | `blacklisted_join` writes the stripped command list under `msg.channel`, the channel the command was issued in. | `blacklisted_join newchan` from `#home`: every command but the three management ones is blocked in `#home`, and nothing in `#newchan` | the joined channel gets the list, as the reply says | medium, not executed | PluginManager.JoinAsWrittenBlocksWrongChannel | PluginManager.JoinBlocksAllButManagement |
| plugins/plugin_su.py:110-113 | The `su.su` check applies only to a message without `real_user`, but `_call_command_handlers` (line 55) sets `real_user` on every message before dispatch, and `mb.su` is registered with no required permission. | any user without `su.su` sends `mb.su someone`: the session switches to `someone`, and `mb.su -c <command> someone` runs a command as `someone` | a sender without `su.su` is refused | medium, not executed | SuPlugin.GuardNeverRefusesDispatched | SuPlugin.GuardRefusesWithoutPermission |
