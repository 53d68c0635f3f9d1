/**
 * Reading the stored preferences back: the cookie parser `getCookie`, the
 * ordered storage fallback of `getRegionPreference` and
 * `getThemePreference`, and `isDarkMode`. Each storage backend is an input.
 * Local storage is what `localStorage.getItem` gives: the stored value or
 * `None`, or a `Failure` when the call throws (storage blocked), which the
 * getters do not catch. The service-worker cache is the value it holds,
 * `None` when absent or unreadable, since its read is wrapped in a
 * try/catch. The cookie jar is the `document.cookie` string.
 */
module Preferences {
  import opened Wrappers
  import opened Seqs

  const REGION_KEY := "selectedRegion"
  const THEME_KEY := "preferred-theme"
  const REGIONS: set<string> := {"SE1", "SE2", "SE3", "SE4"}
  const DEFAULT_REGION := "SE3"
  const THEMES: set<string> := {"light", "dark"}

  /** `s.split(sep)` for a one-character separator. */
  function Split(s: string, sep: char): (parts: seq<string>)
    ensures |parts| >= 1
    ensures forall k :: 0 <= k < |parts| ==> sep !in parts[k]
    decreases |s|
  {
    match FindIndex(s, (c: char) => c == sep)
    case None => [s]
    case Some(i) => [s[..i]] + Split(s[i + 1..], sep)
  }

  /** `parts.join(sep)`. */
  function Join(parts: seq<string>, sep: char): string
    requires |parts| >= 1
  {
    if |parts| == 1 then parts[0] else parts[0] + [sep] + Join(parts[1..], sep)
  }

  /** Splitting at the first separator, found at `i`. */
  lemma SplitAt(s: string, sep: char, i: nat)
    requires i < |s| && s[i] == sep
    requires forall j :: 0 <= j < i ==> s[j] != sep
    ensures Split(s, sep) == [s[..i]] + Split(s[i + 1..], sep)
  {
    FindIndexIsFirst(s, (c: char) => c == sep, i);
  }

  /** Splitting a string at a separator it does not contain yields it whole. */
  lemma SplitNoSeparator(s: string, sep: char)
    requires sep !in s
    ensures Split(s, sep) == [s]
  {
    if FindIndex(s, (c: char) => c == sep).Some? {
      assert false;
    }
  }

  /** Joining the parts of a split with the same separator gives back the string. */
  lemma {:induction false} SplitJoin(s: string, sep: char)
    ensures Join(Split(s, sep), sep) == s
    decreases |s|
  {
    match FindIndex(s, (c: char) => c == sep)
    case None =>
    case Some(i) =>
      SplitJoin(s[i + 1..], sep);
      assert s == s[..i] + [sep] + s[i + 1..];
  }

  /** Splitting `a + sep + b` splits `a` and `b` separately. */
  lemma {:induction false} SplitAppend(a: string, b: string, sep: char)
    ensures Split(a + [sep] + b, sep) == Split(a, sep) + Split(b, sep)
    decreases |a|
  {
    var s := a + [sep] + b;
    match FindIndex(a, (c: char) => c == sep)
    case None =>
      SplitAt(s, sep, |a|);
      assert s[..|a|] == a && s[|a| + 1..] == b;
      SplitNoSeparator(a, sep);
    case Some(i) =>
      var rest := a[i + 1..];
      SplitAt(a, sep, i);
      SplitAt(s, sep, i);
      assert s[..i] == a[..i];
      assert s[i + 1..] == rest + [sep] + b;
      SplitAppend(rest, b, sep);
      ConcatAssoc([a[..i]], Split(rest, sep), Split(b, sep));
  }

  /** Drops the spaces at the start of a cookie entry. */
  function TrimLeadingSpaces(c: string): (r: string)
    ensures |r| <= |c|
    ensures r == [] || r[0] != ' '
  {
    if |c| > 0 && c[0] == ' ' then TrimLeadingSpaces(c[1..]) else c
  }

  /** Dropping leading spaces leaves a suffix of the cookie. */
  lemma {:induction false} TrimIsSuffix(c: string)
    ensures TrimLeadingSpaces(c) == c[|c| - |TrimLeadingSpaces(c)|..]
    decreases |c|
  {
    if |c| > 0 && c[0] == ' ' {
      TrimIsSuffix(c[1..]);
    }
  }

  predicate StartsWith(s: string, prefix: string) {
    prefix <= s
  }

  /** The first cookie, leading spaces dropped, that starts with `nameEq`; its value after `nameEq`. */
  function FirstCookie(cookies: seq<string>, nameEq: string): (r: Option<string>)
    ensures r.Some? ==> exists k :: 0 <= k < |cookies| && TrimLeadingSpaces(cookies[k]) == nameEq + r.value
    ensures r.None? <==> forall k :: 0 <= k < |cookies| ==> !StartsWith(TrimLeadingSpaces(cookies[k]), nameEq)
  {
    if |cookies| == 0 then None
    else
      var c := TrimLeadingSpaces(cookies[0]);
      if StartsWith(c, nameEq) then
        assert c == nameEq + c[|nameEq|..];
        Some(c[|nameEq|..])
      else
        var r := FirstCookie(cookies[1..], nameEq);
        assert forall k :: 1 <= k < |cookies| ==> cookies[k] == cookies[1..][k - 1];
        r
  }

  /**
   * `getCookie(name)` over the cookie jar `jar`: the value of the first
   * `;`-separated cookie that reads `name=value` once its leading spaces are
   * dropped; `None` (null) when there is none. A value never holds a `;`.
   */
  function GetCookie(jar: string, name: string): (r: Option<string>)
    ensures r.Some? ==> ';' !in r.value
    ensures r.Some? ==> exists c :: c in Split(jar, ';') && TrimLeadingSpaces(c) == name + "=" + r.value
    ensures r.None? <==> forall c :: c in Split(jar, ';') ==> !StartsWith(TrimLeadingSpaces(c), name + "=")
  {
    var parts := Split(jar, ';');
    var r := FirstCookie(parts, name + "=");
    if r.Some? then
      var k :| 0 <= k < |parts| && TrimLeadingSpaces(parts[k]) == name + "=" + r.value;
      ValueHasNoSemicolon(parts[k], name + "=", r.value);
      r
    else
      assert forall c :: c in parts ==> !StartsWith(TrimLeadingSpaces(c), name + "=");
      r
  }

  /** The value part of a cookie without `;` has none either. */
  lemma ValueHasNoSemicolon(c: string, nameEq: string, value: string)
    requires ';' !in c
    requires TrimLeadingSpaces(c) == nameEq + value
    ensures ';' !in value
  {
    var t := TrimLeadingSpaces(c);
    TrimIsSuffix(c);
    forall j | 0 <= j < |value|
      ensures value[j] != ';'
    {
      assert value[j] == t[|nameEq| + j] == c[|c| - |t| + |nameEq| + j];
    }
  }

  /** Cookies are searched in order: a match in earlier cookies hides later ones. */
  lemma {:induction false} FirstCookieAppend(a: seq<string>, b: seq<string>, nameEq: string)
    ensures FirstCookie(a + b, nameEq) == if FirstCookie(a, nameEq).Some? then FirstCookie(a, nameEq) else FirstCookie(b, nameEq)
  {
    if |a| > 0 {
      assert (a + b)[0] == a[0];
      assert (a + b)[1..] == a[1..] + b;
      FirstCookieAppend(a[1..], b, nameEq);
    } else {
      assert a + b == b;
    }
  }

  /** A cookie entry `name=value` whose parts hold no `;` holds none either. */
  lemma EntryHasNoSemicolon(name: string, value: string)
    requires ';' !in name && ';' !in value
    ensures ';' !in name + "=" + value
  {
    var entry := name + "=" + value;
    forall k | 0 <= k < |entry|
      ensures entry[k] != ';'
    {
      if k < |name| {
        assert entry[k] == name[k];
      } else if k > |name| {
        assert entry[k] == value[k - |name| - 1];
      }
    }
  }

  /** The cookie `name=value`, possibly preceded by spaces, answers a lookup of `name` with `value`. */
  lemma EntryMatches(spaces: string, name: string, value: string)
    requires ';' !in name && ';' !in value
    requires name == [] || name[0] != ' '
    requires forall k :: 0 <= k < |spaces| ==> spaces[k] == ' '
    ensures FirstCookie([spaces + (name + "=" + value)], name + "=") == Some(value)
  {
    var nameEq := name + "=";
    var entry := nameEq + value;
    assert entry[0] != ' ' by {
      if name == [] { assert entry[0] == '='; } else { assert entry[0] == name[0]; }
    }
    TrimSpaces(spaces, entry);
    assert StartsWith(entry, nameEq);
    assert entry[|nameEq|..] == value;
    FirstCookieSingle(spaces + entry, nameEq);
  }

  /** A single cookie that starts with `nameEq` yields the rest of it. */
  lemma FirstCookieSingle(c: string, nameEq: string)
    requires StartsWith(TrimLeadingSpaces(c), nameEq)
    ensures FirstCookie([c], nameEq) == Some(TrimLeadingSpaces(c)[|nameEq|..])
  {
    assert [c][0] == c;
  }

  /** Dropping leading spaces from `spaces + c` gives `c` when `c` does not start with one. */
  lemma {:induction false} TrimSpaces(spaces: string, c: string)
    requires forall k :: 0 <= k < |spaces| ==> spaces[k] == ' '
    requires c == [] || c[0] != ' '
    ensures TrimLeadingSpaces(spaces + c) == c
  {
    if |spaces| > 0 {
      assert (spaces + c)[1..] == spaces[1..] + c;
      TrimSpaces(spaces[1..], c);
    } else {
      assert spaces + c == c;
    }
  }

  /** A cookie jar holding only `name=value` answers a lookup of `name` with `value`. */
  lemma SingleCookieRoundTrip(name: string, value: string)
    requires ';' !in name && ';' !in value
    requires name == [] || name[0] != ' '
    ensures GetCookie(name + "=" + value, name) == Some(value)
  {
    var entry := name + "=" + value;
    EntryHasNoSemicolon(name, value);
    SplitNoSeparator(entry, ';');
    EntryMatches([], name, value);
    assert [] + entry == entry;
  }

  /**
   * Appending `"; name=value"` to a jar whose cookies do not carry `name`
   * (how the browser lists a newly set cookie) makes the lookup return `value`.
   */
  lemma AppendedCookieRoundTrip(others: string, name: string, value: string)
    requires ';' !in name && ';' !in value
    requires name == [] || name[0] != ' '
    requires GetCookie(others, name) == None
    ensures GetCookie(others + "; " + (name + "=" + value), name) == Some(value)
  {
    var entry := name + "=" + value;
    var spaced := " " + entry;
    EntryHasNoSemicolon(name, value);
    assert ';' !in spaced;
    SplitNoSeparator(spaced, ';');
    EntryMatches(" ", name, value);
    SemicolonSpace(others, entry);
    SplitAppend(others, spaced, ';');
    FirstCookieAppend(Split(others, ';'), [spaced], name + "=");
  }

  lemma SemicolonSpace(a: string, b: string)
    ensures a + "; " + b == a + [';'] + (" " + b)
  {
  }

  /** The first backend, in priority order, that holds an allowed value. */
  function FirstValid(backends: seq<Option<string>>, allowed: set<string>): (r: Option<string>)
    ensures r.Some? ==> r.value in allowed
    ensures r.Some? ==> exists k :: (0 <= k < |backends| && backends[k] == r
                                     && forall j :: 0 <= j < k ==> !(backends[j].Some? && backends[j].value in allowed))
    ensures r.None? <==> forall k :: 0 <= k < |backends| ==> !(backends[k].Some? && backends[k].value in allowed)
  {
    if |backends| == 0 then None
    else if backends[0].Some? && backends[0].value in allowed then backends[0]
    else
      var r := FirstValid(backends[1..], allowed);
      assert forall k :: 1 <= k < |backends| ==> backends[k] == backends[1..][k - 1];
      if r.Some? then
        var k' :| 0 <= k' < |backends[1..]| && backends[1..][k'] == r
          && forall j :: 0 <= j < k' ==> !(backends[1..][j].Some? && backends[1..][j].value in allowed);
        assert backends[k' + 1] == r;
        r
      else r
  }

  /**
   * `getRegionPreference`: local storage, then the cookie, then the
   * service-worker cache, else SE3. A throwing local-storage read rejects
   * the whole call before the other backends are tried.
   */
  function GetRegionPreference(local: Result<Option<string>, string>, jar: string, worker: Option<string>): (r: Result<string, string>)
    ensures r.Success? ==> r.value in REGIONS
    ensures local.Failure? <==> r.Failure?
    ensures local.Failure? ==> r.error == local.error
  {
    match local
    case Failure(e) => Failure(e)
    case Success(stored) => Success(FirstValid([stored, GetCookie(jar, REGION_KEY), worker], REGIONS).GetOr(DEFAULT_REGION))
  }

  /** The region fallback in full: each backend wins exactly when every earlier one is empty or invalid. */
  lemma RegionFallbackOrder(local: Option<string>, jar: string, worker: Option<string>)
    ensures local.Some? && local.value in REGIONS ==> GetRegionPreference(Success(local), jar, worker) == Success(local.value)
    ensures !(local.Some? && local.value in REGIONS) && GetCookie(jar, REGION_KEY).Some? && GetCookie(jar, REGION_KEY).value in REGIONS
      ==> GetRegionPreference(Success(local), jar, worker) == Success(GetCookie(jar, REGION_KEY).value)
    ensures !(local.Some? && local.value in REGIONS) && !(GetCookie(jar, REGION_KEY).Some? && GetCookie(jar, REGION_KEY).value in REGIONS)
      ==> GetRegionPreference(Success(local), jar, worker) == Success(if worker.Some? && worker.value in REGIONS then worker.value else DEFAULT_REGION)
  {
    var backends := [local, GetCookie(jar, REGION_KEY), worker];
    assert backends[0] == local && backends[1] == GetCookie(jar, REGION_KEY) && backends[2] == worker;
  }

  /**
   * `getThemePreference`: the same fallback over light/dark, `None` (null)
   * when nothing valid is stored, and a rejection when local storage throws.
   */
  function GetThemePreference(local: Result<Option<string>, string>, jar: string, worker: Option<string>): (r: Result<Option<string>, string>)
    ensures r.Success? && r.value.Some? ==> r.value.value in THEMES
    ensures r.Success? && r.value.Some? ==> local == Success(r.value) || r.value == GetCookie(jar, THEME_KEY) || r.value == worker
    ensures local.Failure? <==> r.Failure?
    ensures local.Failure? ==> r.error == local.error
  {
    match local
    case Failure(e) => Failure(e)
    case Success(stored) =>
      var backends := [stored, GetCookie(jar, THEME_KEY), worker];
      var theme := FirstValid(backends, THEMES);
      assert theme.Some? ==> theme == backends[0] || theme == backends[1] || theme == backends[2];
      Success(theme)
  }

  /** The theme fallback in full: the first backend holding light or dark wins; with none, no theme. */
  lemma ThemeFallbackOrder(local: Option<string>, jar: string, worker: Option<string>)
    ensures local.Some? && local.value in THEMES ==> GetThemePreference(Success(local), jar, worker) == Success(local)
    ensures !(local.Some? && local.value in THEMES) && GetCookie(jar, THEME_KEY).Some? && GetCookie(jar, THEME_KEY).value in THEMES
      ==> GetThemePreference(Success(local), jar, worker) == Success(GetCookie(jar, THEME_KEY))
    ensures !(local.Some? && local.value in THEMES) && !(GetCookie(jar, THEME_KEY).Some? && GetCookie(jar, THEME_KEY).value in THEMES)
      ==> GetThemePreference(Success(local), jar, worker) == Success(if worker.Some? && worker.value in THEMES then worker else None)
  {
    var backends := [local, GetCookie(jar, THEME_KEY), worker];
    assert backends[0] == local && backends[1] == GetCookie(jar, THEME_KEY) && backends[2] == worker;
  }

  /**
   * `isDarkMode`: a stored theme decides; otherwise the system's
   * `prefers-color-scheme: dark`. It rejects when the theme lookup does.
   */
  function IsDarkMode(local: Result<Option<string>, string>, jar: string, worker: Option<string>, systemPrefersDark: bool): (r: Result<bool, string>)
    ensures local.Failure? <==> r.Failure?
    ensures r == Success(true) ==>
      systemPrefersDark || local == Success(Some("dark")) || GetCookie(jar, THEME_KEY) == Some("dark") || worker == Some("dark")
    ensures r == Success(false) ==>
      !systemPrefersDark || local == Success(Some("light")) || GetCookie(jar, THEME_KEY) == Some("light") || worker == Some("light")
  {
    match GetThemePreference(local, jar, worker)
    case Failure(e) => Failure(e)
    case Success(Some(theme)) => Success(theme == "dark")
    case Success(None) => Success(systemPrefersDark)
  }

  /** A stored theme overrides the system preference whichever way that points. */
  lemma StoredThemeWins(local: Option<string>, jar: string, worker: Option<string>)
    ensures GetThemePreference(Success(local), jar, worker).value.Some? ==>
      IsDarkMode(Success(local), jar, worker, true) == IsDarkMode(Success(local), jar, worker, false)
    ensures local == Some("dark") ==> IsDarkMode(Success(local), jar, worker, false) == Success(true)
    ensures local == Some("light") ==> IsDarkMode(Success(local), jar, worker, true) == Success(false)
    ensures GetThemePreference(Success(local), jar, worker).value.None? ==>
      IsDarkMode(Success(local), jar, worker, true) == Success(true) && IsDarkMode(Success(local), jar, worker, false) == Success(false)
  {
    var backends := [local, GetCookie(jar, THEME_KEY), worker];
    assert backends[0] == local;
  }

  /** When reading local storage throws, every preference read rejects instead of falling back to the cookie. */
  lemma BlockedStorageRejects(e: string, jar: string, worker: Option<string>, systemPrefersDark: bool)
    ensures GetRegionPreference(Failure(e), jar, worker) == Failure(e)
    ensures GetThemePreference(Failure(e), jar, worker) == Failure(e)
    ensures IsDarkMode(Failure(e), jar, worker, systemPrefersDark) == Failure(e)
  {
  }
}
