/**
 * The whois plugin's own logic: the roles text and the login suffix of the
 * reply, the bot notes, the linear search of the cached bot list, and the
 * rule that decides when that cache is reloaded.
 */
module Whois {
  import opened Text

  // ---------------------------------------------------------------------
  // String helpers for `[::-1]` and `str.replace(old, new, 1)`
  // ---------------------------------------------------------------------

  /** `s[::-1]` */
  function Reverse(s: string): (r: string)
    ensures |r| == |s|
  {
    if s == [] then [] else Reverse(s[1..]) + [s[0]]
  }

  lemma {:induction false} ReverseAppend(a: string, b: string)
    ensures Reverse(a + b) == Reverse(b) + Reverse(a)
    decreases |a|
  {
    if a == [] {
      assert a + b == b;
    } else {
      assert (a + b)[1..] == a[1..] + b;
      ReverseAppend(a[1..], b);
    }
  }

  lemma {:induction false} ReverseReverse(s: string)
    ensures Reverse(Reverse(s)) == s
    decreases |s|
  {
    if s != [] {
      ReverseReverse(s[1..]);
      ReverseAppend(Reverse(s[1..]), [s[0]]);
      assert Reverse([s[0]]) == [s[0]];
    }
  }

  lemma {:induction false} ReverseMembers(s: string, c: char)
    ensures c in Reverse(s) <==> c in s
    decreases |s|
  {
    if s != [] {
      ReverseMembers(s[1..], c);
      assert s == [s[0]] + s[1..];
    }
  }

  /** `s.replace(pat, rep, 1)` for a non-empty `pat`: the leftmost occurrence is replaced. */
  function ReplaceFirst(s: string, pat: string, rep: string): string
    requires pat != []
    decreases |s|
  {
    if |s| < |pat| then s
    else if s[..|pat|] == pat then rep + s[|pat|..]
    else [s[0]] + ReplaceFirst(s[1..], pat, rep)
  }

  /** `pat in s` */
  predicate Occurs(s: string, pat: string)
  {
    exists i :: 0 <= i <= |s| && pat <= s[i..]
  }

  /** A text in which the pattern does not occur is left as it is. */
  lemma {:induction false} ReplaceAbsent(s: string, pat: string, rep: string)
    requires pat != [] && !Occurs(s, pat)
    ensures ReplaceFirst(s, pat, rep) == s
    decreases |s|
  {
    if |s| >= |pat| {
      assert s[0..] == s;
      assert !Occurs(s[1..], pat) by {
        forall i | 0 <= i <= |s[1..]| ensures !(pat <= s[1..][i..]) {
          assert s[1..][i..] == s[i + 1..];
        }
      }
      ReplaceAbsent(s[1..], pat, rep);
    }
  }

  /** A pattern whose first character is missing from the text does not occur in it. */
  lemma FirstCharAbsent(s: string, pat: string)
    requires pat != [] && pat[0] !in s
    ensures !Occurs(s, pat)
  {
    forall i | 0 <= i <= |s| ensures !(pat <= s[i..]) {
      if i < |s| {
        assert s[i..][0] == s[i];
      }
    }
  }

  /** Reversing, dropping the first reversed separator and reversing back removes a trailing separator. */
  lemma StripLastSeparator(x: string, sep: string)
    requires sep != []
    ensures Reverse(ReplaceFirst(Reverse(x + sep), Reverse(sep), "")) == x
  {
    ReverseAppend(x, sep);
    var p := Reverse(sep);
    assert (p + Reverse(x))[..|p|] == p;
    assert (p + Reverse(x))[|p|..] == Reverse(x);
    assert "" + Reverse(x) == Reverse(x);
    ReverseReverse(x);
  }

  // ---------------------------------------------------------------------
  // Roles (`command_whois`, the `roles` variable)
  // ---------------------------------------------------------------------

  /** The four role flags of a resolved user, in the order the reply lists them. */
  datatype RoleFlags = RoleFlags(isAffiliate: bool, isPartner: bool, isSiteAdmin: bool, isStaff: bool)

  const Sep := ", "

  /** `names` with `name` appended when `flag` is set. */
  function AddIf(names: seq<string>, flag: bool, name: string): seq<string>
  {
    if flag then names + [name] else names
  }

  /** The names of the set flags, in the fixed order affiliate, partner, site admin, staff. */
  function RoleNames(f: RoleFlags): (r: seq<string>)
    ensures r == [] <==> !f.isAffiliate && !f.isPartner && !f.isSiteAdmin && !f.isStaff
  {
    AddIf(AddIf(AddIf(AddIf([], f.isAffiliate, "affiliate"), f.isPartner, "partner"),
                f.isSiteAdmin, "site admin"), f.isStaff, "staff")
  }

  /** `sep.join(parts)` */
  function JoinWith(parts: seq<string>, sep: string): string
  {
    if |parts| == 0 then ""
    else if |parts| == 1 then parts[0]
    else JoinWith(parts[..|parts| - 1], sep) + sep + parts[|parts| - 1]
  }

  /** Every part followed by the separator, as the `+=` steps build it. */
  function Suffixed(parts: seq<string>, sep: string): string
  {
    if parts == [] then "" else Suffixed(parts[..|parts| - 1], sep) + parts[|parts| - 1] + sep
  }

  lemma {:induction false} SuffixedJoin(parts: seq<string>, sep: string)
    requires parts != []
    ensures Suffixed(parts, sep) == JoinWith(parts, sep) + sep
    decreases |parts|
  {
    var init := parts[..|parts| - 1];
    if |parts| == 1 {
      assert init == [];
      assert Suffixed(parts, sep) == "" + parts[0] + sep;
      assert "" + parts[0] == parts[0];
    } else {
      SuffixedJoin(init, sep);
    }
  }

  lemma {:induction false} JoinStartsWith(parts: seq<string>, sep: string)
    requires parts != []
    ensures parts[0] <= JoinWith(parts, sep)
    decreases |parts|
  {
    if |parts| > 1 {
      var init := parts[..|parts| - 1];
      JoinStartsWith(init, sep);
      assert init[0] == parts[0];
    }
  }

  lemma JoinEndsWith(parts: seq<string>, sep: string)
    requires parts != []
    ensures var j, last := JoinWith(parts, sep), parts[|parts| - 1];
      |last| <= |j| && j[|j| - |last|..] == last
  {
  }

  /** One `if ...: roles += name + ", "` step. */
  lemma AddRole(roles: string, names: seq<string>, flag: bool, name: string, text: string)
    requires roles == Suffixed(names, Sep) && text == name + Sep
    ensures (if flag then roles + text else roles) == Suffixed(AddIf(names, flag, name), Sep)
  {
    if flag {
      assert (names + [name])[..|names|] == names;
    }
  }

  /** The roles text the reply shows: the set roles joined by `", "`, or `none`. */
  function RolesText(f: RoleFlags): string
  {
    if RoleNames(f) == [] then "none" else JoinWith(RoleNames(f), Sep)
  }

  /** The roles text is `none` exactly when no flag is set. */
  lemma RolesNone(f: RoleFlags)
    ensures RolesText(f) == "none" <==> !f.isAffiliate && !f.isPartner && !f.isSiteAdmin && !f.isStaff
  {
    var names := RoleNames(f);
    if names != [] {
      JoinStartsWith(names, Sep);
      assert |names[0]| >= 5;
    }
  }

  /** The roles text never ends with a separator or a blank: its last character is the last role's. */
  lemma RolesNoTrailingSeparator(f: RoleFlags)
    ensures var r := RolesText(f); |r| >= 4 && r[|r| - 1] != ' ' && r[|r| - 1] != ','
  {
    var names := RoleNames(f);
    if names != [] {
      JoinEndsWith(names, Sep);
      var j, last := JoinWith(names, Sep), names[|names| - 1];
      assert last in {"affiliate", "partner", "site admin", "staff"};
      assert j[|j| - 1] == last[|last| - 1];
    }
  }

  /**
   * `command_whois`, the roles lines: append each set role with its
   * separator, fall back to `none`, then drop the last separator by
   * reversing, replacing the first reversed separator and reversing back.
   */
  method BuildRoles(f: RoleFlags) returns (roles: string)
    ensures roles == RolesText(f)
  {
    ghost var names: seq<string> := [];
    roles := "";
    AddRole(roles, names, f.isAffiliate, "affiliate", "affiliate, ");
    if f.isAffiliate {
      roles := roles + "affiliate, ";
    }
    names := AddIf(names, f.isAffiliate, "affiliate");
    AddRole(roles, names, f.isPartner, "partner", "partner, ");
    if f.isPartner {
      roles := roles + "partner, ";
    }
    names := AddIf(names, f.isPartner, "partner");
    AddRole(roles, names, f.isSiteAdmin, "site admin", "site admin, ");
    if f.isSiteAdmin {
      roles := roles + "site admin, ";
    }
    names := AddIf(names, f.isSiteAdmin, "site admin");
    AddRole(roles, names, f.isStaff, "staff", "staff, ");
    if f.isStaff {
      roles := roles + "staff, ";
    }
    names := AddIf(names, f.isStaff, "staff");
    if roles == "" {
      roles := "none";
    }
    var pieces := Reverse(roles);
    pieces := ReplaceFirst(pieces, Reverse(Sep), "");
    roles := Reverse(pieces);
    if names == [] {
      ReverseMembers("none", ' ');
      FirstCharAbsent(Reverse("none"), Reverse(Sep));
      ReplaceAbsent(Reverse("none"), Reverse(Sep), "");
      ReverseReverse("none");
    } else {
      SuffixedJoin(names, Sep);
      StripLastSeparator(JoinWith(names, Sep), Sep);
    }
  }

  // ---------------------------------------------------------------------
  // Login suffix
  // ---------------------------------------------------------------------

  /** `(login)` after the display name, unless the two differ only in letter case. */
  function LoginSuffix(displayName: string, login: string): (r: string)
    ensures r == "" || r == "(" + login + ")"
  {
    if Lower(displayName) != Lower(login) then "(" + login + ")" else ""
  }

  /** The suffix is shown exactly when the names differ case-insensitively. */
  lemma LoginSuffixShown(displayName: string, login: string)
    ensures LoginSuffix(displayName, login) != "" <==> Lower(displayName) != Lower(login)
  {
  }

  /** A display name that is the login in other letter case gets no suffix. */
  lemma LowerLoginHasNoSuffix(login: string)
    ensures LoginSuffix(Lower(login), login) == ""
  {
    LowerIdempotent(login);
  }

  // ---------------------------------------------------------------------
  // Bots
  // ---------------------------------------------------------------------

  /** An entry of the active-bot list; the optional fields are `None` when the list has `null`. */
  datatype Bot = Bot(name: string, prefix: Option<string>, description: Option<string>,
                     language: Option<string>, lastSeen: Option<string>)

  /** The first bot of `bots` whose name is exactly `username`. */
  function Lookup(bots: seq<Bot>, username: string): Option<Bot>
  {
    if bots == [] then None
    else if bots[0].name == username then Some(bots[0])
    else Lookup(bots[1..], username)
  }

  /**
   * The search finds a bot exactly when one has the name; what it finds has
   * the name and is the first such bot of the list.
   */
  lemma {:induction false} LookupSpec(bots: seq<Bot>, username: string)
    ensures Lookup(bots, username).None? <==> forall j :: 0 <= j < |bots| ==> bots[j].name != username
    ensures Lookup(bots, username).Some? ==>
      exists i :: 0 <= i < |bots| && bots[i] == Lookup(bots, username).value && bots[i].name == username
        && forall j :: 0 <= j < i ==> bots[j].name != username
  {
    if bots != [] && bots[0].name != username {
      LookupSpec(bots[1..], username);
      if Lookup(bots[1..], username).Some? {
        var i :| 0 <= i < |bots[1..]| && bots[1..][i] == Lookup(bots[1..], username).value
          && bots[1..][i].name == username && forall j :: 0 <= j < i ==> bots[1..][j].name != username;
        assert bots[i + 1] == Lookup(bots, username).value;
        assert forall j :: 0 <= j < i + 1 ==> bots[j].name != username by {
          forall j | 0 <= j < i + 1 ensures bots[j].name != username {
            if j > 0 { assert bots[j] == bots[1..][j - 1]; }
          }
        }
      } else {
        forall j | 0 <= j < |bots| ensures bots[j].name != username {
          if j > 0 { assert bots[j] == bots[1..][j - 1]; }
        }
      }
    }
  }

  lemma {:induction false} LookupAt(bots: seq<Bot>, i: nat, username: string)
    requires i < |bots| && bots[i].name == username
    requires forall j :: 0 <= j < i ==> bots[j].name != username
    ensures Lookup(bots, username) == Some(bots[i])
    decreases i
  {
    if i > 0 {
      LookupAt(bots[1..], i - 1, username);
    }
  }

  lemma {:induction false} LookupMissing(bots: seq<Bot>, username: string)
    requires forall j :: 0 <= j < |bots| ==> bots[j].name != username
    ensures Lookup(bots, username) == None
    decreases |bots|
  {
    if bots != [] {
      LookupMissing(bots[1..], username);
    }
  }

  /** `s[:-4]`: everything but the last four characters, or nothing when there are fewer. */
  function DropLastFour(s: string): (r: string)
    ensures |s| >= 4 ==> r + s[|s| - 4..] == s
    ensures |s| < 4 ==> r == ""
  {
    if |s| >= 4 then s[..|s| - 4] else ""
  }

  /** A field shown as itself, or as the placeholder when it is missing. */
  function OrElse(o: Option<string>, placeholder: string): string
  {
    if o.Some? then o.value else placeholder
  }

  /** The bot notes appended to the reply: empty when the user is not a known bot. */
  function BotNotes(bot: Option<Bot>): string
  {
    match bot
    case None => ""
    case Some(b) =>
      var prefix := " Prefix: " + OrElse(b.prefix, "<blank>");
      var description := ", Description: " + OrElse(b.description, "<blank>");
      var language := ", Language: " + OrElse(b.language, "<unknown>");
      var lastActive := if b.lastSeen.Some? then ", Last active: " + DropLastFour(b.lastSeen.value) else "";
      prefix + description + language + lastActive
  }

  /** Where the first and the last parts of a four-part text sit. */
  lemma FourParts(a: string, b: string, c: string, d: string)
    ensures a <= a + b + c + d
    ensures |c| <= |a + b + c| && (a + b + c)[|a + b + c| - |c|..] == c
    ensures |d| <= |a + b + c + d| && (a + b + c + d)[|a + b + c + d| - |d|..] == d
  {
    assert a + b + c + d == a + (b + c + d);
  }

  /**
   * The notes of a known bot start with its prefix, `<blank>` standing for
   * a missing one, and end with the language (`<unknown>` when missing)
   * unless a last-seen time is present, in which case they end with that
   * time minus its last four characters.
   */
  lemma BotNotesShape(b: Bot)
    ensures var n := BotNotes(Some(b));
      && " Prefix: " + OrElse(b.prefix, "<blank>") <= n
      && (b.lastSeen.None? ==>
            var tail := ", Language: " + OrElse(b.language, "<unknown>");
            |tail| <= |n| && n[|n| - |tail|..] == tail)
      && (b.lastSeen.Some? ==>
            var tail := ", Last active: " + DropLastFour(b.lastSeen.value);
            |tail| <= |n| && n[|n| - |tail|..] == tail)
  {
    var head := " Prefix: " + OrElse(b.prefix, "<blank>");
    var mid := ", Description: " + OrElse(b.description, "<blank>");
    var lang := ", Language: " + OrElse(b.language, "<unknown>");
    var last := if b.lastSeen.Some? then ", Last active: " + DropLastFour(b.lastSeen.value) else "";
    FourParts(head, mid, lang, last);
    if b.lastSeen.None? {
      assert head + mid + lang + last == head + mid + lang;
    }
  }

  /** What `_load_bots` reports. */
  datatype LoadReply = Loaded | NotOkay(status: int)

  /** Whether `command_whois` reloads the bot list at time `now` (whole seconds). */
  predicate Stale(bots: seq<Bot>, invalidates: int, now: int)
  {
    bots == [] || invalidates <= now
  }

  /** After a load at `now` that leaves a non-empty list, no reload happens for ten minutes. */
  lemma CachedForTenMinutes(bots: seq<Bot>, now: int, t: int)
    requires bots != []
    ensures !Stale(bots, now + 600, t) <==> t < now + 600
  {
  }

  /** A list that is still empty (a first load that failed) is reloaded on every call. */
  lemma EmptyListAlwaysReloads(invalidates: int, t: int)
    ensures Stale([], invalidates, t)
  {
  }

  /** `bots` and `bots_invalidates`, and the operations that read or replace them. */
  class BotCache {
    var bots: seq<Bot>
    var invalidates: int

    /** At import: no bots, and an invalidation time of the import time. */
    constructor(now: int)
      ensures bots == [] && invalidates == now
    {
      bots := [];
      invalidates := now;
    }

    /**
     * `_load_bots`: the invalidation time moves ten minutes ahead before the
     * fetch; the list is replaced only by a fetch with status 200.
     */
    method LoadBots(now: int, status: int, fetched: seq<Bot>) returns (reply: LoadReply)
      modifies this
      ensures invalidates == now + 600
      ensures bots == (if status == 200 then fetched else old(bots))
      ensures reply == (if status == 200 then Loaded else NotOkay(status))
    {
      invalidates := now + 600;
      if status == 200 {
        bots := fetched;
        return Loaded;
      }
      return NotOkay(status);
    }

    /** The first lines of `command_whois`: reload when the cache is stale, else leave it alone. */
    method Refresh(now: int, status: int, fetched: seq<Bot>)
      modifies this
      ensures Stale(old(bots), old(invalidates), now) ==>
        invalidates == now + 600 && bots == (if status == 200 then fetched else old(bots))
      ensures !Stale(old(bots), old(invalidates), now) ==> bots == old(bots) && invalidates == old(invalidates)
    {
      if bots == [] || invalidates <= now {
        var _ := LoadBots(now, status, fetched);
      }
    }

    /** `_find_bot`: a front-to-back search of the list. */
    method FindBot(username: string) returns (found: Option<Bot>)
      ensures found == Lookup(bots, username)
    {
      for i := 0 to |bots|
        invariant forall j :: 0 <= j < i ==> bots[j].name != username
      {
        if bots[i].name == username {
          LookupAt(bots, i, username);
          return Some(bots[i]);
        }
      }
      LookupMissing(bots, username);
      return None;
    }
  }
}
