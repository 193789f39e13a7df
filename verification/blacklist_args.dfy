/**
 * The argument syntax of the `plonk` command (`_parse_blacklist_args`):
 * space-separated `key:value` words, and the duration grammar
 * `TIMEDELTA_REGEX` written as a prefix parser.
 *
 * Times are integer seconds; `now` is a parameter.
 */
module BlacklistArgs {
  import opened Text

  datatype Scope = Global | Channels(names: seq<string>)

  /** `kwargs['user']`: `None`, the sentinel `True` (`everyone`) or a lower-cased name. */
  datatype UserArg = NoUser | Everyone | UserName(name: string)

  /** `kwargs['command']`: `None`, the sentinel `True` (`all`) or a registered command name. */
  datatype CommandArg = NoCommand | AllCommands | CommandName(name: string)

  /** `kwargs['expires']` is `None` (never) or an absolute time. */
  datatype Kwargs = Kwargs(scope: Scope, user: UserArg, command: CommandArg, expires: Option<int>)

  /** The error replies of the parser. */
  datatype ParseError =
    | NoColon(word: string)
    | NoSuchChannel(value: string)
    | NoSuchCommand(value: string)

  /** What the parser reads from the bot: the connected channels, the registered commands and the clock. */
  datatype Context = Context(connected: seq<string>, commands: seq<string>, now: int)

  const Defaults := Kwargs(Global, NoUser, NoCommand, None)

  // ---------------------------------------------------------------------
  // TIMEDELTA_REGEX
  //   (\d+d(?:ays)?)?([0-5]?\dh(?:ours?)?)?([0-5]?\dm(?:inutes?)?)?([0-5]?\ds(?:econds?)?)?
  // Every group is optional and every later part can match the empty
  // string, so the greedy first attempt at each group is the match.
  // ---------------------------------------------------------------------

  /** The number of leading digits. */
  function DigitRun(s: string): (k: nat)
    ensures k <= |s| && AllDigits(s[..k])
    ensures k < |s| ==> !IsDigit(s[k])
  {
    if |s| > 0 && IsDigit(s[0]) then 1 + DigitRun(s[1..]) else 0
  }

  function StartsWith(s: string, p: string): bool
  {
    |p| <= |s| && s[..|p|] == p
  }

  /** `(?:<long>)?` or `(?:<short>s?)?`: greedy, so the longer spelling wins. */
  function SuffixLen(s: string, long: string, short: string): (k: nat)
    ensures k <= |s|
  {
    if StartsWith(s, long) then |long| else if StartsWith(s, short) then |short| else 0
  }

  /** `(\d+d(?:ays)?)?`: the length of the group at the start of `s`, 0 when it does not take part. */
  function DaysGroupLen(s: string): (k: nat)
    ensures k <= |s|
  {
    var n := DigitRun(s);
    if 0 < n < |s| && s[n] == 'd' then n + 1 + SuffixLen(s[n + 1..], "ays", "ays") else 0
  }

  /** `[0-5]?\d<unit>`: the length of the number and unit letter, 0 when they do not match. */
  function UnitHeadLen(s: string, unit: char): (k: nat)
    ensures k == 0 || k == 2 || k == 3
    ensures k <= |s|
  {
    if |s| >= 3 && '0' <= s[0] <= '5' && IsDigit(s[1]) && s[2] == unit then 3
    else if |s| >= 2 && IsDigit(s[0]) && s[1] == unit then 2
    else 0
  }

  /** `([0-5]?\d<unit>(?:<long>|<short>)?)?` */
  function UnitGroupLen(s: string, unit: char, long: string, short: string): (k: nat)
    ensures k <= |s|
  {
    var h := UnitHeadLen(s, unit);
    if h == 0 then 0 else h + SuffixLen(s[h..], long, short)
  }

  /** The four groups of a match; `None` is a group that did not take part. */
  datatype Groups = Groups(days: Option<string>, hours: Option<string>, minutes: Option<string>, seconds: Option<string>)

  function Group(s: string, k: nat): Option<string>
    requires k <= |s|
  {
    if k == 0 then None else Some(s[..k])
  }

  /** `TIMEDELTA_REGEX.match(s)`: it always succeeds, possibly with the empty match. */
  function MatchTimedelta(s: string): (g: Groups)
  {
    var d := DaysGroupLen(s);
    var s1 := s[d..];
    var h := UnitGroupLen(s1, 'h', "ours", "our");
    var s2 := s1[h..];
    var m := UnitGroupLen(s2, 'm', "inutes", "inute");
    var s3 := s2[m..];
    var sec := UnitGroupLen(s3, 's', "econds", "econd");
    Groups(Group(s, d), Group(s1, h), Group(s2, m), Group(s3, sec))
  }

  /** `int(t)` on a string that may not be a number. */
  function IntOf(t: string): (r: Option<nat>)
    ensures r.Some? <==> |t| > 0 && AllDigits(t)
  {
    if |t| > 0 && AllDigits(t) then Some(DigitsValue(t)) else None
  }

  /** The number of a group as the code reads it: `int(group[:-1])`; absent groups count 0. */
  function GroupValueAsWritten(g: Option<string>): (r: Option<nat>)
  {
    match g
    case None => Some(0)
    case Some(t) => if |t| == 0 then None else IntOf(t[..|t| - 1])
  }

  /** The number of a group read from its leading digits, whatever spelling of the unit follows. */
  function GroupValue(g: Option<string>): nat
  {
    match g
    case None => 0
    case Some(t) => var n := DigitRun(t); DigitsValue(t[..n])
  }

  /** The duration as the code computes it; `None` is the `ValueError` that `int` raises. */
  function DeltaAsWritten(g: Groups): (r: Option<int>)
  {
    match (GroupValueAsWritten(g.days), GroupValueAsWritten(g.hours),
           GroupValueAsWritten(g.minutes), GroupValueAsWritten(g.seconds))
    case (Some(d), Some(h), Some(m), Some(sec)) => Some(d * 86400 + h * 3600 + m * 60 + sec)
    case _ => None
  }

  /** The duration, in seconds, with every spelling the grammar accepts read as intended. */
  function Delta(g: Groups): (r: int)
    ensures r >= 0
  {
    GroupValue(g.days) * 86400 + GroupValue(g.hours) * 3600 + GroupValue(g.minutes) * 60 + GroupValue(g.seconds)
  }

  // ---------------------------------------------------------------------
  // Properties of the duration grammar
  // ---------------------------------------------------------------------

  /** The number in front of the unit letter has one digit, or two with the first at most 5. */
  lemma UnitHeadValue(s: string, unit: char)
    requires UnitHeadLen(s, unit) > 0 && !IsDigit(unit)
    ensures var t := s[..UnitHeadLen(s, unit)];
      DigitRun(t) == |t| - 1 && DigitsValue(t[..|t| - 1]) <= 59
  {
    var k := UnitHeadLen(s, unit);
    var t := s[..k];
    var p := t[..k - 1];
    assert t == p + [unit];
    DigitRunPrefix(p, [unit]);
    assert p[..|p| - 1][..0] == [];
    if k == 3 {
      assert p[..1] == [t[0]] && p[1] == t[1];
      assert [t[0]][..0] == [];
      assert DigitsValue(p[..1]) == DigitValue(t[0]);
      assert DigitsValue(p) == 10 * DigitValue(t[0]) + DigitValue(t[1]);
    } else {
      assert DigitsValue(p) == DigitValue(t[0]);
    }
  }

  /** The hour, minute and second numbers are each at most 59; the day number is unbounded. */
  lemma UnitGroupsBounded(s: string)
    ensures var g := MatchTimedelta(s);
      GroupValue(g.hours) <= 59 && GroupValue(g.minutes) <= 59 && GroupValue(g.seconds) <= 59
  {
    var s1 := s[DaysGroupLen(s)..];
    var h := UnitGroupLen(s1, 'h', "ours", "our");
    var s2 := s1[h..];
    var m := UnitGroupLen(s2, 'm', "inutes", "inute");
    var s3 := s2[m..];
    UnitGroupBounded(s1, 'h', "ours", "our");
    UnitGroupBounded(s2, 'm', "inutes", "inute");
    UnitGroupBounded(s3, 's', "econds", "econd");
  }

  lemma UnitGroupBounded(s: string, unit: char, long: string, short: string)
    requires !IsDigit(unit)
    ensures GroupValue(Group(s, UnitGroupLen(s, unit, long, short))) <= 59
  {
    var k := UnitGroupLen(s, unit, long, short);
    if k > 0 {
      var h := UnitHeadLen(s, unit);
      UnitHeadValue(s, unit);
      var p := s[..h - 1];
      var t := s[..k];
      assert s[..h][..h - 1] == p;
      assert t == p + s[h - 1..k];
      assert s[h - 1] == unit;
      DigitRunPrefix(p, s[h - 1..k]);
      assert t[..h - 1] == p;
    }
  }

  /** Leading digits followed by a non-digit: the run stops exactly there. */
  lemma {:induction false} DigitRunPrefix(p: string, t: string)
    requires AllDigits(p) && (|t| == 0 || !IsDigit(t[0]))
    ensures DigitRun(p + t) == |p|
    decreases |p|
  {
    if |p| > 0 {
      assert (p + t)[1..] == p[1..] + t;
      DigitRunPrefix(p[1..], t);
    } else {
      assert p + t == t;
    }
  }

  /**
   * `int(group[:-1])` succeeds exactly on the short spellings (`1d`, `5h`,
   * `30m`, `9s`); there it agrees with the leading digits.
   */
  lemma GroupValueAsWrittenShortForm(t: string, unit: char)
    requires |t| >= 2 && AllDigits(t[..|t| - 1]) && t[|t| - 1] == unit && !IsDigit(unit)
    ensures GroupValueAsWritten(Some(t)) == Some(GroupValue(Some(t)))
  {
    DigitRunPrefix(t[..|t| - 1], [unit]);
    assert t[..|t| - 1] + [unit] == t;
  }

  lemma GroupValueAsWrittenLongForm(t: string, n: nat)
    requires n + 1 < |t| && !IsDigit(t[n])
    ensures GroupValueAsWritten(Some(t)).None?
  {
    assert t[..|t| - 1][n] == t[n];
  }

  /**
   * The long spellings the grammar accepts make `int` raise as the code is
   * written: `<n>days` is matched whole as the days group, and
   * `int('<n>day')` fails.
   */
  lemma LongDaysRaisesAsWritten(d: nat)
    ensures MatchTimedelta(NatToString(d) + "days").days == Some(NatToString(d) + "days")
    ensures DeltaAsWritten(MatchTimedelta(NatToString(d) + "days")).None?
  {
    var p := NatToString(d);
    var s := p + "days";
    LongDaysGroup(p);
    GroupValueAsWrittenLongForm(s, |p| + 1);
  }

  /** Corrected: any number of days spelt out in full is read as that many days. */
  lemma LongDaysRead(d: nat)
    ensures Delta(MatchTimedelta(NatToString(d) + "days")) == d * 86400
  {
    var p := NatToString(d);
    var s := p + "days";
    LongDaysGroup(p);
    DigitRunPrefix(p, "days");
    assert s[..|p|] == p;
    DigitsRoundTrip(d);
  }

  /** `<digits>days` is one whole days group, and nothing is left for the other groups. */
  lemma LongDaysGroup(p: string)
    requires |p| >= 1 && AllDigits(p)
    ensures var s := p + "days"; var g := MatchTimedelta(s);
      g.days == Some(s) && g.hours.None? && g.minutes.None? && g.seconds.None?
  {
    var s := p + "days";
    DigitRunPrefix(p, "days");
    assert s[|p| + 1..] == "ays";
    assert DaysGroupLen(s) == |s|;
    assert s[..|s|] == s && s[|s|..] == [];
  }

  /** A number followed by `d` and then a digit or nothing is read as that many days. */
  lemma DaysGroupOfNumber(s: string, d: nat, rest: string)
    requires |rest| == 0 || IsDigit(rest[0])
    requires s == NatToString(d) + ['d'] + rest
    ensures DaysGroupLen(s) == |NatToString(d)| + 1 && s[DaysGroupLen(s)..] == rest
    ensures GroupValue(Group(s, DaysGroupLen(s))) == d
    ensures GroupValueAsWritten(Group(s, DaysGroupLen(s))) == Some(d)
  {
    var p := NatToString(d);
    var k := |p| + 1;
    var t := p + ['d'];
    assert s == p + (['d'] + rest);
    DigitRunPrefix(p, ['d'] + rest);
    assert s[|p|] == 'd';
    assert s[k..] == rest;
    ShortDaysLen(s, |p|);
    assert s[..k] == t;
    DaysGroupValue(p, d);
  }

  /** A `d` after the leading digits, not followed by `ays`, ends the days group. */
  lemma ShortDaysLen(s: string, n: nat)
    requires 0 < n < |s| && DigitRun(s) == n && s[n] == 'd'
    requires n + 1 == |s| || IsDigit(s[n + 1])
    ensures DaysGroupLen(s) == n + 1
  {
    var rest := s[n + 1..];
    if |rest| >= 3 {
      assert rest[..3][0] == rest[0];
    }
    assert !StartsWith(rest, "ays");
  }

  /** The days group of a number reads back as that number, in both readings. */
  lemma DaysGroupValue(p: string, d: nat)
    requires p == NatToString(d)
    ensures GroupValue(Some(p + ['d'])) == d && GroupValueAsWritten(Some(p + ['d'])) == Some(d)
  {
    var t := p + ['d'];
    GroupValueAsWrittenShortForm(t, 'd');
    DigitRunPrefix(p, ['d']);
    assert t[..|p|] == p;
    DigitsRoundTrip(d);
  }

  /** A number below 60 followed by its unit letter and then a digit or nothing is read as that number. */
  lemma UnitGroupOfNumber(s: string, n: nat, unit: char, long: string, short: string, rest: string)
    requires n < 60 && !IsDigit(unit)
    requires |long| > 0 && |short| > 0 && !IsDigit(long[0]) && !IsDigit(short[0])
    requires |rest| == 0 || IsDigit(rest[0])
    requires s == NatToString(n) + [unit] + rest
    ensures UnitGroupLen(s, unit, long, short) == |NatToString(n)| + 1
    ensures s[UnitGroupLen(s, unit, long, short)..] == rest
    ensures GroupValue(Group(s, UnitGroupLen(s, unit, long, short))) == n
    ensures GroupValueAsWritten(Group(s, UnitGroupLen(s, unit, long, short))) == Some(n)
  {
    var p := NatToString(n);
    NatToStringShort(n);
    var k := UnitHeadLen(s, unit);
    assert k == |p| + 1;
    assert s[k..] == rest;
    assert !StartsWith(rest, long) && !StartsWith(rest, short);
    assert UnitGroupLen(s, unit, long, short) == k;
    var t := s[..k];
    assert t == p + [unit];
    GroupValueAsWrittenShortForm(t, unit);
    DigitRunPrefix(p, [unit]);
    assert t[..|p|] == p;
    DigitsRoundTrip(n);
  }

  /** The canonical spelling `<d>d<h>h<m>m<s>s`. */
  function Canonical(d: nat, h: nat, m: nat, sec: nat): string
  {
    NatToString(d) + "d" + NatToString(h) + "h" + NatToString(m) + "m" + NatToString(sec) + "s"
  }

  /** The four groups of the canonical spelling hold exactly the four numbers, and all convert as written. */
  lemma CanonicalGroups(s: string, d: nat, h: nat, m: nat, sec: nat) returns (g: Groups)
    requires h < 60 && m < 60 && sec < 60
    requires s == Canonical(d, h, m, sec)
    ensures g == MatchTimedelta(s)
    ensures GroupValue(g.days) == d && GroupValue(g.hours) == h
    ensures GroupValue(g.minutes) == m && GroupValue(g.seconds) == sec
    ensures GroupValueAsWritten(g.days) == Some(d) && GroupValueAsWritten(g.hours) == Some(h)
    ensures GroupValueAsWritten(g.minutes) == Some(m) && GroupValueAsWritten(g.seconds) == Some(sec)
  {
    var r3 := NatToString(sec) + ['s'] + [];
    var r2 := NatToString(m) + ['m'] + r3;
    var r1 := NatToString(h) + ['h'] + r2;
    assert s == NatToString(d) + ['d'] + r1;
    DaysGroupOfNumber(s, d, r1);
    UnitGroupOfNumber(r1, h, 'h', "ours", "our", r2);
    UnitGroupOfNumber(r2, m, 'm', "inutes", "inute", r3);
    UnitGroupOfNumber(r3, sec, 's', "econds", "econd", []);
    var k1 := DaysGroupLen(s);
    var k2 := UnitGroupLen(r1, 'h', "ours", "our");
    var k3 := UnitGroupLen(r2, 'm', "inutes", "inute");
    var k4 := UnitGroupLen(r3, 's', "econds", "econd");
    assert s[k1..] == r1 && r1[k2..] == r2 && r2[k3..] == r3;
    g := Groups(Group(s, k1), Group(r1, k2), Group(r2, k3), Group(r3, k4));
  }

  /** Reading the canonical spelling back gives the same duration: days unbounded, the rest below 60. */
  lemma CanonicalRoundTrip(d: nat, h: nat, m: nat, sec: nat)
    requires h < 60 && m < 60 && sec < 60
    ensures Delta(MatchTimedelta(Canonical(d, h, m, sec))) == d * 86400 + h * 3600 + m * 60 + sec
    ensures DeltaAsWritten(MatchTimedelta(Canonical(d, h, m, sec))) == Some(d * 86400 + h * 3600 + m * 60 + sec)
  {
    var g := CanonicalGroups(Canonical(d, h, m, sec), d, h, m, sec);
    DeltaOfGroups(g, d, h, m, sec);
    DeltaAsWrittenAgrees(g, d, h, m, sec);
  }

  lemma DeltaOfGroups(g: Groups, d: nat, h: nat, m: nat, sec: nat)
    requires GroupValue(g.days) == d && GroupValue(g.hours) == h
    requires GroupValue(g.minutes) == m && GroupValue(g.seconds) == sec
    ensures Delta(g) == d * 86400 + h * 3600 + m * 60 + sec
  {
  }

  /** Where every group converts as written, the two readings agree. */
  lemma DeltaAsWrittenAgrees(g: Groups, d: nat, h: nat, m: nat, sec: nat)
    requires GroupValueAsWritten(g.days) == Some(d) && GroupValueAsWritten(g.hours) == Some(h)
    requires GroupValueAsWritten(g.minutes) == Some(m) && GroupValueAsWritten(g.seconds) == Some(sec)
    ensures DeltaAsWritten(g) == Some(d * 86400 + h * 3600 + m * 60 + sec)
  {
  }

  /** A group with a non-digit at `j`: where `int(group[:-1])` succeeds, it reads the leading digits. */
  lemma GroupReadingsAgree(t: string, j: nat)
    requires j < |t| && !IsDigit(t[j])
    ensures GroupValueAsWritten(Some(t)).Some? ==> GroupValueAsWritten(Some(t)).value == GroupValue(Some(t))
  {
    if GroupValueAsWritten(Some(t)).Some? {
      var p := t[..|t| - 1];
      assert t == p + [t[j]];
      DigitRunPrefix(p, [t[j]]);
      assert t[..|p|] == p;
    }
  }

  lemma DaysGroupAgrees(s: string)
    ensures var g := Group(s, DaysGroupLen(s));
      GroupValueAsWritten(g).Some? ==> GroupValueAsWritten(g).value == GroupValue(g)
  {
    var k := DaysGroupLen(s);
    if k > 0 {
      var n := DigitRun(s);
      assert s[..k][n] == 'd';
      GroupReadingsAgree(s[..k], n);
    }
  }

  lemma UnitGroupAgrees(s: string, unit: char, long: string, short: string)
    requires !IsDigit(unit)
    ensures var g := Group(s, UnitGroupLen(s, unit, long, short));
      GroupValueAsWritten(g).Some? ==> GroupValueAsWritten(g).value == GroupValue(g)
  {
    var k := UnitGroupLen(s, unit, long, short);
    if k > 0 {
      var h := UnitHeadLen(s, unit);
      assert s[..k][h - 1] == unit;
      GroupReadingsAgree(s[..k], h - 1);
    }
  }

  /**
   * The correction changes nothing where the code works: wherever every
   * `int(group[:-1])` of a match succeeds, the code's duration is the
   * corrected one.
   */
  lemma DeltaReadingsAgree(s: string)
    ensures var g := MatchTimedelta(s);
      DeltaAsWritten(g).Some? ==> DeltaAsWritten(g).value == Delta(g)
  {
    var s1 := s[DaysGroupLen(s)..];
    var s2 := s1[UnitGroupLen(s1, 'h', "ours", "our")..];
    var s3 := s2[UnitGroupLen(s2, 'm', "inutes", "inute")..];
    DaysGroupAgrees(s);
    UnitGroupAgrees(s1, 'h', "ours", "our");
    UnitGroupAgrees(s2, 'm', "inutes", "inute");
    UnitGroupAgrees(s3, 's', "econds", "econd");
  }

  // ---------------------------------------------------------------------
  // key:value words
  // ---------------------------------------------------------------------

  /** The index of the last registered command whose name equals `name` case-insensitively, or -1. */
  function LastMatch(commands: seq<string>, name: string): (i: int)
    ensures -1 <= i < |commands|
    ensures i >= 0 ==> Lower(commands[i]) == Lower(name)
    ensures forall j :: i < j < |commands| ==> Lower(commands[j]) != Lower(name)
  {
    if |commands| == 0 then -1
    else if Lower(commands[|commands| - 1]) == Lower(name) then |commands| - 1
    else LastMatch(commands[..|commands| - 1], name)
  }

  /**
   * The `command:` lookup: the loop over the registered commands keeps
   * overwriting, so the LAST case-insensitive match wins.
   */
  function ResolveCommand(commands: seq<string>, name: string): (r: Option<string>)
  {
    var i := LastMatch(commands, name);
    if i < 0 then None else Some(commands[i])
  }

  /** The channels of `scope:a,#b,...`: each loses its leading `#`s, is lower-cased and must be connected. */
  function ScopeChannels(parts: seq<string>, connected: seq<string>): (r: Option<seq<string>>)
    ensures r.None? <==> exists i :: 0 <= i < |parts| && Lower(LStrip(parts[i], '#')) !in connected
    ensures r.Some? ==> (|r.value| == |parts|
      && forall i :: 0 <= i < |parts| ==> r.value[i] == Lower(LStrip(parts[i], '#')) && r.value[i] in connected)
  {
    if |parts| == 0 then Some([])
    else
      var ch := Lower(LStrip(parts[0], '#'));
      if ch !in connected then None
      else
        match ScopeChannels(parts[1..], connected)
        case None =>
          assert forall i :: 1 <= i < |parts| ==> parts[1..][i - 1] == parts[i];
          None
        case Some(rest) =>
          assert forall i :: 1 <= i < |parts| ==> parts[1..][i - 1] == parts[i];
          Some([ch] + rest)
  }

  /** What one `key:value` pair does to the arguments: it sets one of them, or nothing for an unknown key. */
  datatype Update =
    | SetScope(scope: Scope)
    | SetUser(user: UserArg)
    | SetCommand(command: CommandArg)
    | SetExpires(expires: Option<int>)
    | Ignore

  /** The update a pair stands for; it does not depend on the arguments parsed so far. */
  function PairUpdate(key: string, value: string, ctx: Context): Result<Update, ParseError>
  {
    if key == "scope" then
      if Lower(value) == "global" then Ok(SetScope(Global))
      else match ScopeChannels(Split(value, ','), ctx.connected)
        case None => Err(NoSuchChannel(value))
        case Some(chs) => Ok(SetScope(Channels(chs)))
    else if key == "user" then
      Ok(SetUser(if Lower(value) == "everyone" then Everyone else UserName(Lower(value))))
    else if key == "command" then
      if Lower(value) == "all" then Ok(SetCommand(AllCommands))
      else match ResolveCommand(ctx.commands, value)
        case None => Err(NoSuchCommand(value))
        case Some(c) => Ok(SetCommand(CommandName(c)))
    else if key == "expires" then
      if Lower(value) == "never" then Ok(SetExpires(None))
      else Ok(SetExpires(Some(ctx.now + Delta(MatchTimedelta(value)))))
    else Ok(Ignore)
  }

  function Apply(kw: Kwargs, u: Update): Kwargs
  {
    match u
    case SetScope(x) => kw.(scope := x)
    case SetUser(x) => kw.(user := x)
    case SetCommand(x) => kw.(command := x)
    case SetExpires(x) => kw.(expires := x)
    case Ignore => kw
  }

  /** The effect of one `key:value` pair on the arguments. */
  function ApplyPair(kw: Kwargs, key: string, value: string, ctx: Context): Result<Kwargs, ParseError>
  {
    match PairUpdate(key, value, ctx)
    case Err(e) => Err(e)
    case Ok(u) => Ok(Apply(kw, u))
  }

  /** One word: split on every `:`; the key is the first piece and the value the second, the rest is dropped. */
  function ApplyWord(kw: Kwargs, word: string, ctx: Context): Result<Kwargs, ParseError>
  {
    var sword := Split(word, ':');
    if |sword| == 1 then Err(NoColon(word)) else ApplyPair(kw, sword[0], sword[1], ctx)
  }

  /** The words left to right, stopping at the first error. */
  function ApplyWords(kw: Kwargs, words: seq<string>, ctx: Context): Result<Kwargs, ParseError>
    decreases |words|
  {
    if |words| == 0 then Ok(kw)
    else match ApplyWord(kw, words[0], ctx)
      case Err(e) => Err(e)
      case Ok(kw') => ApplyWords(kw', words[1..], ctx)
  }

  /** `_parse_blacklist_args`: a dictionary of defaults updated word by word. */
  method ParseArgs(text: string, ctx: Context) returns (r: Result<Kwargs, ParseError>)
    ensures r == ApplyWords(Defaults, Split(text, ' '), ctx)
  {
    var words := Split(text, ' ');
    var kw := Defaults;
    var i := 0;
    while i < |words|
      invariant 0 <= i <= |words|
      invariant ApplyWords(Defaults, words, ctx) == ApplyWords(kw, words[i..], ctx)
    {
      assert words[i..][1..] == words[i + 1..];
      var step := ApplyWord(kw, words[i], ctx);
      if step.Err? {
        return step;
      }
      kw := step.value;
      i := i + 1;
    }
    return Ok(kw);
  }

  // ---------------------------------------------------------------------
  // Properties of the parser
  // ---------------------------------------------------------------------

  /** A word without `:` is a syntax error naming that word. */
  lemma WordWithoutColonRejected(kw: Kwargs, word: string, ctx: Context)
    requires ':' !in word
    ensures ApplyWord(kw, word, ctx) == Err(NoColon(word))
  {
    SplitWithoutSeparator(word, ':');
  }

  /** A `key:value` word acts through its key and value alone. */
  lemma WordIsPair(kw: Kwargs, key: string, value: string, ctx: Context)
    requires ':' !in key && ':' !in value
    ensures ApplyWord(kw, key + ":" + value, ctx) == ApplyPair(kw, key, value, ctx)
  {
    SplitAtFirst(key, ':', value);
    SplitWithoutSeparator(value, ':');
  }

  /** Keys other than `scope`, `user`, `command` and `expires` are ignored. */
  lemma UnknownKeyIgnored(kw: Kwargs, key: string, value: string, ctx: Context)
    requires ':' !in key && ':' !in value
    requires key !in {"scope", "user", "command", "expires"}
    ensures ApplyWord(kw, key + ":" + value, ctx) == Ok(kw)
  {
    WordIsPair(kw, key, value, ctx);
  }

  /** `scope:global`, in any letter case, selects the global scope. */
  lemma GlobalSentinel(kw: Kwargs, value: string, ctx: Context)
    requires Lower(value) == "global"
    ensures ApplyWord(kw, "scope:" + value, ctx) == Ok(kw.(scope := Global))
  {
    LowerKeepsNonLetter(value, ':');
    assert "scope:" + value == "scope" + ":" + value;
    WordIsPair(kw, "scope", value, ctx);
  }

  /** `user:everyone`, in any letter case, stores the sentinel `True`, not a wildcard. */
  lemma EveryoneSentinel(kw: Kwargs, value: string, ctx: Context)
    requires Lower(value) == "everyone"
    ensures ApplyWord(kw, "user:" + value, ctx) == Ok(kw.(user := Everyone))
  {
    LowerKeepsNonLetter(value, ':');
    assert "user:" + value == "user" + ":" + value;
    WordIsPair(kw, "user", value, ctx);
  }

  /** `command:all`, in any letter case, stores the sentinel `True`, not a wildcard. */
  lemma AllCommandsSentinel(kw: Kwargs, value: string, ctx: Context)
    requires Lower(value) == "all"
    ensures ApplyWord(kw, "command:" + value, ctx) == Ok(kw.(command := AllCommands))
  {
    LowerKeepsNonLetter(value, ':');
    assert "command:" + value == "command" + ":" + value;
    WordIsPair(kw, "command", value, ctx);
  }

  /** Words that parse without error can be applied one at a time. */
  lemma ApplyWordsCons(kw: Kwargs, w: string, rest: seq<string>, ctx: Context, kw': Kwargs)
    requires ApplyWord(kw, w, ctx) == Ok(kw')
    ensures ApplyWords(kw, [w] + rest, ctx) == ApplyWords(kw', rest, ctx)
  {
    assert ([w] + rest)[1..] == rest;
  }

  /**
   * Parsing a text in two parts: the words after an error are never read,
   * and the second part continues from the arguments the first reached.
   */
  lemma {:induction false} ApplyWordsAppend(kw: Kwargs, w1: seq<string>, w2: seq<string>, ctx: Context)
    ensures ApplyWords(kw, w1 + w2, ctx) ==
      match ApplyWords(kw, w1, ctx)
      case Err(e) => Err(e)
      case Ok(k) => ApplyWords(k, w2, ctx)
    decreases |w1|
  {
    if |w1| == 0 {
      assert w1 + w2 == w2;
    } else {
      assert (w1 + w2)[0] == w1[0] && (w1 + w2)[1..] == w1[1..] + w2;
      match ApplyWord(kw, w1[0], ctx)
      case Err(e) =>
      case Ok(k) => ApplyWordsAppend(k, w1[1..], w2, ctx);
    }
  }

  /** The update of a known key sets the argument of that name. */
  lemma UpdateOfKey(key: string, value: string, ctx: Context)
    requires PairUpdate(key, value, ctx).Ok?
    ensures var u := PairUpdate(key, value, ctx).value;
      && (key == "scope" <==> u.SetScope?)
      && (key == "user" <==> u.SetUser?)
      && (key == "command" <==> u.SetCommand?)
      && (key == "expires" <==> u.SetExpires?)
  {
  }

  /** A later occurrence of a key overwrites an earlier one. */
  lemma RepeatedKeyOverwrites(kw: Kwargs, key: string, v1: string, v2: string, ctx: Context)
    requires key in {"scope", "user", "command", "expires"}
    requires ApplyPair(kw, key, v1, ctx).Ok?
    ensures ApplyPair(ApplyPair(kw, key, v1, ctx).value, key, v2, ctx) == ApplyPair(kw, key, v2, ctx)
  {
    UpdateOfKey(key, v1, ctx);
    if PairUpdate(key, v2, ctx).Ok? {
      UpdateOfKey(key, v2, ctx);
    }
  }

  /** Pairs with different keys commute when both succeed: the order of the words does not matter. */
  lemma DistinctKeysCommute(kw: Kwargs, k1: string, v1: string, k2: string, v2: string, ctx: Context)
    requires k1 != k2
    requires ApplyPair(kw, k1, v1, ctx).Ok? && ApplyPair(kw, k2, v2, ctx).Ok?
    ensures ApplyPair(ApplyPair(kw, k1, v1, ctx).value, k2, v2, ctx)
         == ApplyPair(ApplyPair(kw, k2, v2, ctx).value, k1, v1, ctx)
  {
    UpdateOfKey(k1, v1, ctx);
    UpdateOfKey(k2, v2, ctx);
  }

  /** An `expires:` value is never a syntax error: the grammar matches every string. */
  lemma ExpiresNeverFails(kw: Kwargs, value: string, ctx: Context)
    ensures ApplyPair(kw, "expires", value, ctx).Ok?
    ensures Lower(value) != "never" ==> ApplyPair(kw, "expires", value, ctx).value.expires.value >= ctx.now
  {
  }
}
