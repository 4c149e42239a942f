/**
  The API middleware (php/api/middleware.php): the Bearer-token check and
  the fixed-window rate limiter. PHP strings are byte strings; here they
  are strings whose characters stand for bytes. The environment variable,
  the clock and the per-address state file are inputs.
*/
module Middleware {
  import opened Wrappers

  // ------------------------------------------------------ authentication

  /** `getenv('DRAGON_API_KEY') ?: 'secret'`: an unset variable, and the
      PHP-falsy strings `""` and `"0"`, fall back to `secret`. */
  function ExpectedKey(env: Option<string>): (key: string)
    ensures |key| > 0
  {
    if env.None? || env.value == "" || env.value == "0" then "secret" else env.value
  }

  /** PCRE's `\s` outside Unicode mode: tab, newline, vertical tab, form
      feed, carriage return and space. */
  predicate PcreSpace(c: char)
  {
    '\t' <= c <= '\r' || c == ' '
  }

  /** The characters PHP's `trim` removes by default. */
  predicate TrimChar(c: char)
  {
    c == ' ' || c == '\t' || c == '\n' || c == '\r' || c == '\0' || c == '\U{B}'
  }

  /** `Bearer` followed by whitespace starts at `p`. */
  predicate BearerAt(h: string, p: nat)
  {
    p + 7 <= |h| && h[p..p + 6] == "Bearer" && PcreSpace(h[p + 6])
  }

  /** The leftmost position at or after `from` where `/Bearer\s+(.*)/`
      matches. */
  function FirstBearer(h: string, from: nat): (r: Option<nat>)
    ensures r.Some? ==> from <= r.value && BearerAt(h, r.value)
    ensures forall q :: from <= q && (r.None? || q < r.value) ==> !BearerAt(h, q)
    decreases |h| - from
  {
    if from + 7 > |h| then None
    else if BearerAt(h, from) then Some(from)
    else FirstBearer(h, from + 1)
  }

  /** Where a run of `\s` starting at `q` ends (`\s+` is greedy, and
      `(.*)` after it always matches). */
  function SpaceEnd(h: string, q: nat): (e: nat)
    requires q <= |h|
    ensures q <= e <= |h| && (e < |h| ==> !PcreSpace(h[e]))
    ensures forall i :: q <= i < e ==> PcreSpace(h[i])
    decreases |h| - q
  {
    if q == |h| || !PcreSpace(h[q]) then q else SpaceEnd(h, q + 1)
  }

  /** Where `.` stops matching: at the first newline at or after `q`. */
  function LineEnd(h: string, q: nat): (e: nat)
    requires q <= |h|
    ensures q <= e <= |h| && (e < |h| ==> h[e] == '\n')
    ensures forall i :: q <= i < e ==> h[i] != '\n'
    decreases |h| - q
  {
    if q == |h| || h[q] == '\n' then q else LineEnd(h, q + 1)
  }

  /** `$m[1]` for a match at `p`: after the whitespace, up to the end of the
      line. */
  function Captured(h: string, p: nat): (c: string)
    requires BearerAt(h, p)
    ensures forall i :: 0 <= i < |c| ==> c[i] != '\n'
    ensures c != [] ==> !PcreSpace(c[0])
  {
    var q := SpaceEnd(h, p + 6);
    h[q..LineEnd(h, q)]
  }

  function TrimStart(s: string): (t: string)
    ensures |t| <= |s| && t == s[|s| - |t|..]
    ensures t != [] ==> !TrimChar(t[0])
    ensures forall i :: 0 <= i < |s| - |t| ==> TrimChar(s[i])
  {
    if s == [] || !TrimChar(s[0]) then s else TrimStart(s[1..])
  }

  function TrimEnd(s: string): (t: string)
    ensures |t| <= |s| && t == s[..|t|]
    ensures t != [] ==> !TrimChar(t[|t| - 1])
    ensures forall i :: |t| <= i < |s| ==> TrimChar(s[i])
  {
    if s == [] || !TrimChar(s[|s| - 1]) then s else TrimEnd(s[..|s| - 1])
  }

  /** PHP's `trim`. */
  function Trim(s: string): (t: string)
    ensures |t| <= |s|
    ensures t != [] ==> !TrimChar(t[0]) && !TrimChar(t[|t| - 1])
  {
    TrimEnd(TrimStart(s))
  }

  /** `check_auth_header`: the first `Bearer` + whitespace match, and its
      trimmed capture compared with the expected key. */
  function CheckAuthHeader(header: string, env: Option<string>): (ok: bool)
    ensures ok ==> FirstBearer(header, 0).Some?
    ensures ok ==> Trim(Captured(header, FirstBearer(header, 0).value)) != []
  {
    match FirstBearer(header, 0)
    case None => false
    case Some(p) => Trim(Captured(header, p)) == ExpectedKey(env)
  }

  /** A header with no `Bearer` followed by whitespace is rejected. */
  lemma NoBearerRejected(header: string, env: Option<string>)
    requires forall p :: !BearerAt(header, p)
    ensures !CheckAuthHeader(header, env)
  {
  }

  /** A token that PHP's `trim` leaves alone and that has no newline. */
  predicate Bare(key: string)
  {
    key != [] && !TrimChar(key[0]) && !PcreSpace(key[0]) && !TrimChar(key[|key| - 1]) &&
    forall i :: 0 <= i < |key| ==> key[i] != '\n'
  }

  lemma TrimBare(key: string)
    requires Bare(key)
    ensures Trim(key) == key
  {
  }

  /** The first match from `from` is at `p` when `p` matches and nothing
      between them does. */
  lemma {:induction false} FirstBearerAt(h: string, from: nat, p: nat)
    requires from <= p && BearerAt(h, p)
    requires forall q: nat :: from <= q < p ==> !BearerAt(h, q)
    ensures FirstBearer(h, from) == Some(p)
    decreases p - from
  {
    if from < p {
      FirstBearerAt(h, from + 1, p);
    }
  }

  /** No match can start at a character other than `B`. */
  lemma NotBearerAt(h: string, q: nat)
    requires q < |h| && h[q] != 'B'
    ensures !BearerAt(h, q)
  {
    if q + 6 <= |h| {
      assert h[q..q + 6][0] == h[q];
    }
  }

  /** The capture of `Bearer ` followed by a bare token is the token. */
  lemma CapturedBare(h: string, p: nat, key: string)
    requires Bare(key) && p + 7 <= |h| && h[p..p + 6] == "Bearer" && h[p + 6] == ' '
    requires h[p + 7..] == key
    ensures BearerAt(h, p) && Captured(h, p) == key
  {
    assert h[p + 7] == key[0];
    assert SpaceEnd(h, p + 6) == p + 7;
    assert forall i :: p + 7 <= i < |h| ==> h[i] == key[i - p - 7];
    assert LineEnd(h, p + 7) == |h|;
  }

  /** The match is not anchored: whatever precedes the first `Bearer `, a
      bare token after it is accepted exactly when it is the expected key. */
  lemma BearerToken(prefix: string, key: string, env: Option<string>)
    requires Bare(key)
    requires forall q: nat :: q < |prefix| ==> !BearerAt(prefix + "Bearer " + key, q)
    ensures CheckAuthHeader(prefix + "Bearer " + key, env) <==> key == ExpectedKey(env)
  {
    var h := prefix + "Bearer " + key;
    var p := |prefix|;
    assert h[p..p + 6] == "Bearer" && h[p + 6] == ' ' && h[p + 7..] == key;
    CapturedBare(h, p, key);
    FirstBearerAt(h, 0, p);
    TrimBare(key);
  }

  /** With the variable unset, or set to the PHP-falsy `"0"`,
      `"Bearer secret"` is accepted; with another key it is not. */
  lemma DefaultKeyExample()
    ensures CheckAuthHeader("Bearer secret", None)
    ensures CheckAuthHeader("Bearer secret", Some("0"))
    ensures !CheckAuthHeader("Bearer secret", Some("k"))
  {
    assert Bare("secret");
    BearerToken("", "secret", None);
    BearerToken("", "secret", Some("0"));
    BearerToken("", "secret", Some("k"));
    assert "" + "Bearer " + "secret" == "Bearer secret";
  }

  /** No match starts inside a prefix without a `B`. */
  lemma NoBearerInPrefix(prefix: string, rest: string)
    requires 'B' !in prefix
    ensures forall q: nat :: q < |prefix| ==> !BearerAt(prefix + rest, q)
  {
    forall q: nat | q < |prefix| ensures !BearerAt(prefix + rest, q) {
      assert (prefix + rest)[q] == prefix[q];
      NotBearerAt(prefix + rest, q);
    }
  }

  /** Text without a `B` may precede `Bearer secret`. */
  lemma PrefixedDefault(prefix: string)
    requires 'B' !in prefix
    ensures CheckAuthHeader(prefix + "Bearer secret", None)
  {
    assert Bare("secret");
    assert "Bearer " + "secret" == "Bearer secret";
    NoBearerInPrefix(prefix, "Bearer secret");
    assert prefix + "Bearer secret" == prefix + "Bearer " + "secret";
    BearerToken(prefix, "secret", None);
  }

  /** Text before `Bearer` is allowed. */
  lemma PrefixedExample()
    ensures CheckAuthHeader("Token x; Bearer secret", None)
  {
    TokenPrefix();
    PrefixedDefault("Token x; ");
  }

  lemma TokenPrefix()
    ensures 'B' !in "Token x; " && "Token x; " + "Bearer secret" == "Token x; Bearer secret"
  {
  }

  /** The scheme is case-sensitive. */
  lemma LowerCaseExample()
    ensures !CheckAuthHeader("bearer secret", None)
  {
    forall q: nat ensures !BearerAt("bearer secret", q) {
      if q < 13 { NotBearerAt("bearer secret", q); }
    }
    NoBearerRejected("bearer secret", None);
  }

  /** At least one blank must follow `Bearer`. */
  lemma NoBlankExample()
    ensures !CheckAuthHeader("Bearersecret", None)
  {
    forall q: nat ensures !BearerAt("Bearersecret", q) {
      if 0 < q < 12 { NotBearerAt("Bearersecret", q); }
    }
    NoBearerRejected("Bearersecret", None);
  }

  // -------------------------------------------------------- rate limiting

  /** The stored state of one address: the window's start and the number
      of requests allowed in it. */
  datatype Window = Window(start: int, count: int)

  /** One request at time `now`: whether it is allowed, and the state kept
      afterwards. A rejected request leaves the state as it was. */
  function Step(stored: Option<Window>, now: int, limit: int, window: int): (r: (bool, Window))
    ensures !r.0 ==> stored.Some? && r.1 == stored.value
  {
    if stored.None? then (true, Window(now, 1))
    else if now - stored.value.start >= window then (true, Window(now, 1))
    else if stored.value.count >= limit then (false, stored.value)
    else (true, Window(stored.value.start, stored.value.count + 1))
  }

  /** The temporary files, one per address. */
  class RateLimiter {
    var files: map<string, Window>

    constructor ()
      ensures files == map[]
    {
      files := map[];
    }

    function Stored(ip: string): Option<Window>
      reads this
    {
      if ip in files then Some(files[ip]) else None
    }

    /** `update_rate_limit`: read the address's state, decide, and write the
        new state only when the request is allowed. */
    method UpdateRateLimit(ip: string, now: int, limit: int := 60, window: int := 60) returns (allowed: bool)
      modifies this
      ensures allowed == Step(old(Stored(ip)), now, limit, window).0
      ensures files == if allowed then old(files)[ip := Step(old(Stored(ip)), now, limit, window).1] else old(files)
    {
      var start: int;
      var count: int;
      if ip in files {
        start, count := files[ip].start, files[ip].count;
        if now - start >= window {
          start := now;
          count := 1;
        } else {
          if count >= limit {
            return false;
          }
          count := count + 1;
        }
      } else {
        start := now;
        count := 1;
      }
      files := files[ip := Window(start, count)];
      return true;
    }
  }

  /** The first request, and the first after the window has passed, start a
      new window with one request. */
  lemma StepStartsWindow(stored: Option<Window>, now: int, limit: int, window: int)
    requires stored.None? || now - stored.value.start >= window
    ensures Step(stored, now, limit, window) == (true, Window(now, 1))
  {
  }

  /** Within the window a request is allowed exactly while the count is
      below the limit, and it increments the count. */
  lemma StepWithinWindow(w: Window, now: int, limit: int, window: int)
    requires now - w.start < window
    ensures Step(Some(w), now, limit, window).0 <==> w.count < limit
    ensures Step(Some(w), now, limit, window).0 ==> Step(Some(w), now, limit, window).1 == Window(w.start, w.count + 1)
  {
  }

  /** With a positive limit, a count within the limit stays within it. */
  lemma StepKeepsBound(stored: Option<Window>, now: int, limit: int, window: int)
    requires limit > 0 && (stored.None? || stored.value.count <= limit)
    ensures Step(stored, now, limit, window).1.count <= limit
  {
  }

  /** A sequence of requests from one address: how many are allowed, and
      the final state. */
  function Run(stored: Option<Window>, times: seq<int>, limit: int, window: int): (r: (nat, Option<Window>))
    ensures r.0 <= |times|
    decreases |times|
  {
    if times == [] then (0, stored)
    else
      var (ok, w) := Step(stored, times[0], limit, window);
      var next := if ok then Some(w) else stored;
      var (n, last) := Run(next, times[1..], limit, window);
      ((if ok then 1 else 0) + n, last)
  }

  /** Inside one window, at most `limit - count` further requests are
      allowed: exactly that many when there are enough, and all of them
      otherwise. */
  lemma {:induction false} RunWithinWindow(w: Window, times: seq<int>, limit: int, window: int)
    requires 0 <= w.count <= limit
    requires forall i :: 0 <= i < |times| ==> times[i] - w.start < window
    ensures Run(Some(w), times, limit, window).0 ==
      if |times| < limit - w.count then |times| else limit - w.count
    decreases |times|
  {
    if times != [] {
      if w.count < limit {
        RunWithinWindow(Window(w.start, w.count + 1), times[1..], limit, window);
      } else {
        RunWithinWindow(w, times[1..], limit, window);
      }
    }
  }

  /** From a fresh address, requests inside the first request's window are
      allowed up to the limit. */
  lemma RunFromFresh(times: seq<int>, limit: int, window: int)
    requires limit >= 1 && |times| > 0
    requires forall i :: 0 <= i < |times| ==> times[i] - times[0] < window
    ensures Run(None, times, limit, window).0 == if |times| < limit then |times| else limit
  {
    RunWithinWindow(Window(times[0], 1), times[1..], limit, window);
  }
}
