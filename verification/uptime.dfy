/**
 * The uptime plugin: the duration parser for video lengths such as
 * `3h25m7s`, and the pass that works through the pending API requests.
 */
module Uptime {
  import opened Text

  // ---------------------------------------------------------------------
  // `_parse_duration`
  // ---------------------------------------------------------------------

  /** The parser's variables between two characters: the digit buffer and the three components. */
  datatype Clock = Clock(buf: string, hours: nat, minutes: nat, seconds: nat)

  const Start := Clock("", 0, 0, 0)

  /** The buffer only ever holds digits; `None` stands for the `ValueError` of `int('')`. */
  predicate Sound(st: Option<Clock>)
  {
    st.Some? ==> AllDigits(st.value.buf)
  }

  /** One character: a digit is buffered, `s`/`m`/`h` consume the buffer, anything else is skipped. */
  function Step(st: Option<Clock>, c: char): (r: Option<Clock>)
    requires Sound(st)
    ensures Sound(r)
  {
    match st
    case None => None
    case Some(k) =>
      if IsDigit(c) then Some(k.(buf := k.buf + [c]))
      else if c == 's' || c == 'm' || c == 'h' then
        if k.buf == "" then None
        else
          var v := DigitsValue(k.buf);
          if c == 's' then Some(Clock("", k.hours, k.minutes, k.seconds + v))
          else if c == 'm' then Some(Clock("", k.hours, k.minutes + v, k.seconds))
          else Some(Clock("", v, k.minutes, k.seconds))
      else st
  }

  /** The parser's state after the characters of `s`, from `st`. */
  function Scan(st: Option<Clock>, s: string): (r: Option<Clock>)
    requires Sound(st)
    ensures Sound(r)
  {
    if s == [] then st else Step(Scan(st, s[..|s| - 1]), s[|s| - 1])
  }

  function TotalSeconds(k: Clock): nat
  {
    k.hours * 3600 + k.minutes * 60 + k.seconds
  }

  /** The value of `_parse_duration` in seconds, `None` when it raises. */
  function Duration(s: string): Option<nat>
  {
    match Scan(Some(Start), s)
    case None => None
    case Some(k) => Some(TotalSeconds(k))
  }

  lemma {:induction false} ScanAppend(st: Option<Clock>, a: string, b: string)
    requires Sound(st)
    ensures Scan(st, a + b) == Scan(Scan(st, a), b)
  {
    if b == [] {
      assert a + b == a;
    } else {
      assert (a + b)[..|a + b| - 1] == a + b[..|b| - 1];
      assert (a + b)[|a + b| - 1] == b[|b| - 1];
      ScanAppend(st, a, b[..|b| - 1]);
    }
  }

  /** Once the parser has raised, nothing more happens. */
  lemma {:induction false} ScanAfterRaise(s: string)
    ensures Scan(None, s) == None
  {
    if s != [] {
      ScanAfterRaise(s[..|s| - 1]);
    }
  }

  /** A run of digits only grows the buffer. */
  lemma {:induction false} ScanDigits(k: Clock, d: string)
    requires AllDigits(k.buf) && AllDigits(d)
    ensures Scan(Some(k), d) == Some(k.(buf := k.buf + d))
  {
    if d == [] {
      assert k.buf + d == k.buf;
    } else {
      var init := d[..|d| - 1];
      assert AllDigits(init);
      ScanDigits(k, init);
      var k' := k.(buf := k.buf + init);
      assert IsDigit(d[|d| - 1]);
      assert Step(Some(k'), d[|d| - 1]) == Some(k'.(buf := k'.buf + [d[|d| - 1]]));
      assert k.buf + init + [d[|d| - 1]] == k.buf + d;
    }
  }

  /** A non-empty number followed by its unit letter, read from an empty buffer. */
  lemma Group(k: Clock, d: string, unit: char)
    requires k.buf == "" && AllDigits(d) && d != [] && (unit == 's' || unit == 'm' || unit == 'h')
    ensures Scan(Some(k), d + [unit]) == Some(
      if unit == 's' then Clock("", k.hours, k.minutes, k.seconds + DigitsValue(d))
      else if unit == 'm' then Clock("", k.hours, k.minutes + DigitsValue(d), k.seconds)
      else Clock("", DigitsValue(d), k.minutes, k.seconds))
  {
    GroupStep(k, d, unit);
  }

  /** A number and its unit letter, read from an empty buffer, are one step from the buffered number. */
  lemma GroupStep(k: Clock, d: string, unit: char)
    requires k.buf == "" && AllDigits(d) && d != [] && (unit == 's' || unit == 'm' || unit == 'h')
    ensures Scan(Some(k), d + [unit]) == Step(Some(k.(buf := d)), unit)
  {
    ScanAppend(Some(k), d, [unit]);
    ScanDigits(k, d);
    assert k.buf + d == d;
    assert [unit][..0] == [];
  }

  /** Reading on after a prefix continues from the clock the prefix leaves. */
  lemma GroupAfter(p: string, k: Clock, d: string, unit: char)
    requires Scan(Some(Start), p) == Some(k)
    ensures Scan(Some(Start), p + d + [unit]) == Scan(Some(k), d + [unit])
  {
    ScanAppend(Some(Start), p, d + [unit]);
    assert p + d + [unit] == p + (d + [unit]);
  }

  /** Three groups in a row, each read from the clock the previous one leaves. */
  lemma ThreeGroups(a: string, x: char, b: string, y: char, c: string, z: char, k1: Clock, k2: Clock, k3: Clock)
    requires Scan(Some(Start), a + [x]) == Some(k1)
    requires Scan(Some(k1), b + [y]) == Some(k2)
    requires Scan(Some(k2), c + [z]) == Some(k3)
    ensures Duration(a + [x] + b + [y] + c + [z]) == Some(TotalSeconds(k3))
  {
    GroupAfter(a + [x], k1, b, y);
    GroupAfter(a + [x] + b + [y], k2, c, z);
  }

  /** `ThreeGroups` for the unit letters of the canonical spelling. */
  lemma SpelledDuration(hs: string, ms: string, ss: string, k1: Clock, k2: Clock, k3: Clock)
    requires Scan(Some(Start), hs + "h") == Some(k1)
    requires Scan(Some(k1), ms + "m") == Some(k2)
    requires Scan(Some(k2), ss + "s") == Some(k3)
    ensures Duration(hs + "h" + ms + "m" + ss + "s") == Some(TotalSeconds(k3))
  {
    ThreeGroups(hs, 'h', ms, 'm', ss, 's', k1, k2, k3);
  }

  /** The final clock's total, in the `Option` shape of the round trip's conclusion, solved apart from the parser facts. */
  lemma ClockSeconds(h: nat, m: nat, s: nat)
    ensures Some(TotalSeconds(Clock("", h, m, s))) == Some(h * 3600 + m * 60 + s)
  {
  }

  /** The `XhYmZs` spelling of a length is read back as that many seconds. */
  lemma CanonicalRoundTrip(h: nat, m: nat, s: nat)
    ensures Duration(NatToString(h) + "h" + NatToString(m) + "m" + NatToString(s) + "s") == Some(h * 3600 + m * 60 + s)
  {
    var hs, ms, ss := NatToString(h), NatToString(m), NatToString(s);
    DigitsRoundTrip(h);
    DigitsRoundTrip(m);
    DigitsRoundTrip(s);
    var k1 := Clock("", h, 0, 0);
    Group(Start, hs, 'h');
    assert k1 == Clock("", DigitsValue(hs), Start.minutes, Start.seconds);
    var k2 := Clock("", h, m, 0);
    Group(k1, ms, 'm');
    assert k2 == Clock("", k1.hours, k1.minutes + DigitsValue(ms), k1.seconds);
    var k3 := Clock("", h, m, s);
    Group(k2, ss, 's');
    assert k3 == Clock("", k2.hours, k2.minutes, k2.seconds + DigitsValue(ss));
    SpelledDuration(hs, ms, ss, k1, k2, k3);
    ClockSeconds(h, m, s);
  }

  /** A letter other than `s`, `m`, `h` and a non-digit are skipped without clearing the buffer. */
  lemma OtherCharacterIgnored(p: string, c: char, q: string)
    requires !IsDigit(c) && c != 's' && c != 'm' && c != 'h'
    ensures Duration(p + [c] + q) == Duration(p + q)
  {
    ScanAppend(Some(Start), p + [c], q);
    ScanAppend(Some(Start), p, [c]);
    ScanAppend(Some(Start), p, q);
    assert [c][..0] == [];
  }

  /** Digits after the last unit letter do not contribute. */
  lemma TrailingDigitsDiscarded(p: string, d: string)
    requires AllDigits(d)
    ensures Duration(p + d) == Duration(p)
  {
    ScanAppend(Some(Start), p, d);
    if Scan(Some(Start), p).Some? {
      ScanDigits(Scan(Some(Start), p).value, d);
    } else {
      ScanAfterRaise(d);
    }
  }

  /** A unit letter with nothing buffered raises, whatever follows. */
  lemma EmptyGroupRaises(p: string, unit: char, q: string)
    requires unit == 's' || unit == 'm' || unit == 'h'
    requires Scan(Some(Start), p).Some? ==> Scan(Some(Start), p).value.buf == ""
    ensures Duration(p + [unit] + q) == None
  {
    ScanAppend(Some(Start), p + [unit], q);
    ScanAppend(Some(Start), p, [unit]);
    assert [unit][..0] == [];
    ScanAfterRaise(q);
  }

  /** Two groups with the same unit letter, from the clock the first one leaves. */
  lemma TwoGroups(a: string, b: string, unit: char, k: Clock, k2: Clock)
    requires AllDigits(a) && AllDigits(b) && a != [] && b != [] && (unit == 's' || unit == 'm' || unit == 'h')
    requires Scan(Some(Start), a + [unit]) == Some(k) && k.buf == ""
    requires Scan(Some(k), b + [unit]) == Some(k2)
    ensures Duration(a + [unit] + b + [unit]) == Some(TotalSeconds(k2))
  {
    GroupAfter(a + [unit], k, b, unit);
  }

  /**
   * Two groups with the same unit: a second hours group replaces the
   * first, while minutes and seconds groups add up.
   */
  lemma SameUnitTwice(a: string, b: string, unit: char)
    requires AllDigits(a) && AllDigits(b) && a != [] && b != [] && (unit == 's' || unit == 'm' || unit == 'h')
    ensures Duration(a + [unit] + b + [unit]) == Some(
      if unit == 'h' then 3600 * DigitsValue(b)
      else if unit == 'm' then 60 * (DigitsValue(a) + DigitsValue(b))
      else DigitsValue(a) + DigitsValue(b))
  {
    var k := Step(Some(Start.(buf := a)), unit).value;
    var k2 := Step(Some(k.(buf := b)), unit).value;
    GroupStep(Start, a, unit);
    GroupStep(k, b, unit);
    TwoGroups(a, b, unit, k, k2);
    SameUnitClock(a, b, unit, k, k2);
  }

  lemma SameUnitClock(a: string, b: string, unit: char, k: Clock, k2: Clock)
    requires AllDigits(a) && AllDigits(b) && a != [] && b != [] && (unit == 's' || unit == 'm' || unit == 'h')
    requires k == Step(Some(Start.(buf := a)), unit).value
    requires k2 == Step(Some(k.(buf := b)), unit).value
    ensures TotalSeconds(k2) ==
      if unit == 'h' then 3600 * DigitsValue(b)
      else if unit == 'm' then 60 * (DigitsValue(a) + DigitsValue(b))
      else DigitsValue(a) + DigitsValue(b)
  {
  }

  /** `_parse_duration`, in seconds; `None` when `int('')` raises. */
  method ParseDuration(duration: string) returns (r: Option<nat>)
    ensures r == Duration(duration)
  {
    var buf := "";
    var hours: nat, minutes: nat, seconds: nat := 0, 0, 0;
    for i := 0 to |duration|
      invariant Scan(Some(Start), duration[..i]) == Some(Clock(buf, hours, minutes, seconds))
    {
      var c := duration[i];
      assert duration[..i + 1][..i] == duration[..i];
      if IsDigit(c) {
        buf := buf + [c];
      } else if c == 's' || c == 'm' || c == 'h' {
        if buf == "" {
          ScanAppend(Some(Start), duration[..i + 1], duration[i + 1..]);
          assert duration[..i + 1] + duration[i + 1..] == duration;
          ScanAfterRaise(duration[i + 1..]);
          return None;
        }
        if c == 's' {
          seconds := seconds + DigitsValue(buf);
        } else if c == 'm' {
          minutes := minutes + DigitsValue(buf);
        } else {
          hours := DigitsValue(buf);
        }
        buf := "";
      }
    }
    assert duration[..|duration|] == duration;
    return Some(hours * 3600 + minutes * 60 + seconds);
  }

  // ---------------------------------------------------------------------
  // `check_on_requests`
  // ---------------------------------------------------------------------

  /** The `type` of a pending request: `uptime`, `downtime` or `downtime_1`. */
  datatype Kind = Uptime | Downtime | DowntimeVideos

  /** A pending request: the message's user and channel, and its type. */
  datatype Request = Request(user: string, channel: string, kind: Kind)

  /** The requests appended while handling each of `s`, in order. */
  function Appended(s: seq<Request>, appends: Request -> seq<Request>): seq<Request>
  {
    if s == [] then [] else Appended(s[..|s| - 1], appends) + appends(s[|s| - 1])
  }

  /**
   * The handlers' appending rule: only a `downtime` request appends, and
   * then one `downtime_1` request for the same message.
   */
  ghost predicate FollowsDowntimeRule(appends: Request -> seq<Request>)
  {
    forall r :: appends(r) == [] || (r.kind == Downtime && appends(r) == [r.(kind := DowntimeVideos)])
  }

  /**
   * Under the handlers' rule, what a pass appends is one `downtime_1`
   * request per `downtime` request, for the same user and channel.
   */
  lemma {:induction false} AppendedFollowUps(s: seq<Request>, appends: Request -> seq<Request>)
    requires FollowsDowntimeRule(appends)
    ensures |Appended(s, appends)| <= |s|
    ensures forall k :: 0 <= k < |Appended(s, appends)| ==> Appended(s, appends)[k].kind == DowntimeVideos
  {
    if s != [] {
      AppendedFollowUps(s[..|s| - 1], appends);
      var r := s[|s| - 1];
      assert appends(r) == [] || appends(r) == [r.(kind := DowntimeVideos)];
    }
  }

  /** Requests that are all `downtime_1` append nothing. */
  lemma {:induction false} VideoRequestsAppendNothing(s: seq<Request>, appends: Request -> seq<Request>)
    requires FollowsDowntimeRule(appends)
    requires forall k :: 0 <= k < |s| ==> s[k].kind == DowntimeVideos
    ensures Appended(s, appends) == []
  {
    if s != [] {
      VideoRequestsAppendNothing(s[..|s| - 1], appends);
      var r := s[|s| - 1];
      assert appends(r) == [] || r.kind == Downtime;
    }
  }

  /** With no new commands in between, two passes empty the queue. */
  lemma TwoPassesDrain(s: seq<Request>, appends: Request -> seq<Request>)
    requires FollowsDowntimeRule(appends)
    ensures Appended(Appended(s, appends), appends) == []
  {
    AppendedFollowUps(s, appends);
    VideoRequestsAppendNothing(Appended(s, appends), appends);
  }

  /**
   * The follow-ups of two runs of requests are those of the first followed
   * by those of the second: each request's handler appends on its own, in
   * queue order.
   */
  lemma {:induction false} AppendedAppend(a: seq<Request>, b: seq<Request>, appends: Request -> seq<Request>)
    ensures Appended(a + b, appends) == Appended(a, appends) + Appended(b, appends)
    decreases |b|
  {
    if b == [] {
      assert a + b == a;
    } else {
      var init := b[..|b| - 1];
      assert (a + b)[..|a + b| - 1] == a + init;
      AppendedAppend(a, init, appends);
      ConcatAssoc(Appended(a, appends), Appended(init, appends), appends(b[|b| - 1]));
    }
  }

  lemma AppendedStep(s: seq<Request>, i: nat, appends: Request -> seq<Request>)
    requires i < |s|
    ensures Appended(s[..i + 1], appends) == Appended(s[..i], appends) + appends(s[i])
  {
    assert s[..i + 1][..i] == s[..i];
  }

  /**
   * One turn of the pass: after the handler of the `i`-th request has
   * appended its follow-ups, removing that request leaves the rest of the
   * snapshot followed by everything appended so far.
   */
  lemma QueueStep(snapshot: seq<Request>, i: nat, appends: Request -> seq<Request>)
    requires i < |snapshot|
    ensures RemoveFirst(snapshot[i..] + Appended(snapshot[..i], appends) + appends(snapshot[i]), snapshot[i])
         == snapshot[i + 1..] + Appended(snapshot[..i + 1], appends)
  {
    var r, tail, done := snapshot[i], snapshot[i + 1..], Appended(snapshot[..i], appends);
    var rest := tail + done + appends(r);
    assert snapshot[i..] == [r] + tail;
    assert snapshot[i..] + done + appends(r) == [r] + rest;
    RemoveHead(r, rest);
    AppendedStep(snapshot, i, appends);
    ConcatAssoc(tail, done, appends(r));
  }

  /** `reqs` and the commands that add to it and work through it. */
  class RequestQueue {
    var reqs: seq<Request>

    constructor()
      ensures reqs == []
    {
      reqs := [];
    }

    /** `command_uptime` / `command_downtime`: queue a request unless the command is on cooldown. */
    method Enqueue(user: string, channel: string, kind: Kind, onCooldown: bool)
      requires kind != DowntimeVideos
      modifies this
      ensures reqs == old(reqs) + (if onCooldown then [] else [Request(user, channel, kind)])
    {
      if !onCooldown {
        reqs := reqs + [Request(user, channel, kind)];
      }
    }

    /**
     * `check_on_requests`: every request present at the start is handled
     * once, in order, and removed; `appends` stands for what its handler
     * adds to `reqs`, which stays queued for the next pass.
     */
    method CheckOnRequests(appends: Request -> seq<Request>) returns (handled: seq<Request>)
      modifies this
      ensures handled == old(reqs)
      ensures reqs == Appended(old(reqs), appends)
    {
      var snapshot := reqs;
      handled := [];
      for i := 0 to |snapshot|
        invariant reqs == snapshot[i..] + Appended(snapshot[..i], appends)
        invariant handled == snapshot[..i]
      {
        var r := snapshot[i];
        handled := handled + [r];
        reqs := reqs + appends(r);
        QueueStep(snapshot, i, appends);
        reqs := RemoveFirst(reqs, r);
        TakeOneMore(snapshot, i);
      }
      assert snapshot[..|snapshot|] == snapshot;
    }
  }
}
