/** The sliding-window limiter (backend/app/api/middleware.py): a deque of recent admissions
    per client and path class, against the full history of admissions. */
module RateLimiter {

  const WINDOW := 60.0
  const AUTH_LIMIT := 20
  const API := "/api/"
  const AUTH := "/api/v1/auth"

  // ------------------------------------------------------------------ paths and buckets

  predicate StartsWith(s: string, prefix: string) {
    prefix <= s
  }

  function StripLeft(s: string): string {
    if s != "" && s[0] == '/' then StripLeft(s[1..]) else s
  }

  function StripRight(s: string): (r: string)
    ensures r <= s
    ensures forall i :: |r| <= i < |s| ==> s[i] == '/'
  {
    if s != "" && s[|s| - 1] == '/' then StripRight(s[..|s| - 1]) else s
  }

  /** The position of the first '/', or |s|. */
  function FirstSlash(s: string): (i: nat)
    ensures i <= |s| && (i < |s| ==> s[i] == '/')
    ensures forall k :: 0 <= k < i ==> s[k] != '/'
  {
    if s == "" || s[0] == '/' then 0 else 1 + FirstSlash(s[1..])
  }

  /** The segments between the slashes, empty ones included. */
  function Split(s: string): (parts: seq<string>)
    ensures parts != []
    decreases |s|
  {
    var i := FirstSlash(s);
    if i == |s| then [s] else [s[..i]] + Split(s[i + 1..])
  }

  /** The segments with a slash between each two. */
  function Join(parts: seq<string>): string {
    if parts == [] then ""
    else if |parts| == 1 then parts[0]
    else parts[0] + "/" + Join(parts[1..])
  }

  function First(parts: seq<string>, n: nat): seq<string> {
    if |parts| <= n then parts else parts[..n]
  }

  function Bucket(path: string): string {
    Join(First(Split(StripRight(StripLeft(path))), 4))
  }

  function Limit(path: string, perMinute: int): int {
    if StartsWith(path, AUTH) then AUTH_LIMIT else perMinute
  }

  function Key(host: string, path: string): string {
    host + ":" + Bucket(path)
  }

  function Slashes(s: string): nat {
    if s == "" then 0 else (if s[0] == '/' then 1 else 0) + Slashes(s[1..])
  }

  lemma {:induction false} SlashesAppend(a: string, b: string)
    ensures Slashes(a + b) == Slashes(a) + Slashes(b)
  {
    if a == "" {
      assert a + b == b;
    } else {
      assert (a + b)[1..] == a[1..] + b;
      SlashesAppend(a[1..], b);
    }
  }

  lemma {:induction false} NoSlashes(s: string)
    requires forall k :: 0 <= k < |s| ==> s[k] != '/'
    ensures Slashes(s) == 0
  {
    if s == "" {
    } else {
      NoSlashes(s[1..]);
    }
  }

  /** Joining the first n segments gives back the text before the n-th slash. */
  lemma {:induction false} JoinedIsPrefix(s: string, n: nat)
    requires n > 0
    ensures var b := Join(First(Split(s), n));
      b <= s && Slashes(b) <= n - 1 && (b != s ==> Slashes(b) == n - 1 && s[|b|] == '/')
    decreases |s|
  {
    var i := FirstSlash(s);
    NoSlashes(s[..i]);
    if i < |s| {
      var rest := s[i + 1..];
      if n == 1 {
        assert First(Split(s), 1) == [s[..i]];
      } else {
        JoinedIsPrefix(rest, n - 1);
        var b := Join(First(Split(rest), n - 1));
        JoinFirst(s[..i], Split(rest), n);
        hide Join, First, Split;
        PrefixSlashes(s, i, rest, b);
        hide Slashes;
      }
    } else {
      assert First(Split(s), n) == [s] && s[..i] == s;
    }
  }

  lemma JoinFirst(head: string, tail: seq<string>, n: nat)
    requires n > 1 && tail != []
    ensures Join(First([head] + tail, n)) == head + "/" + Join(First(tail, n - 1))
  {
    assert First([head] + tail, n) == [head] + First(tail, n - 1);
    assert ([head] + First(tail, n - 1))[1..] == First(tail, n - 1);
  }

  lemma PrefixSlashes(s: string, i: nat, rest: string, b: string)
    requires i < |s| && s[i] == '/' && rest == s[i + 1..] && b <= rest && Slashes(s[..i]) == 0
    ensures var c := s[..i] + "/" + b;
      c <= s && Slashes(c) == 1 + Slashes(b) && (c == s <==> b == rest) && (b != rest ==> s[|c|] == rest[|b|])
  {
    SlashesAppend(s[..i] + "/", b);
    SlashesAppend(s[..i], "/");
    assert s == s[..i] + "/" + rest;
  }

  /** The limit of an API path can be read off its bucket. */
  lemma BucketShowsLimit(path: string)
    requires StartsWith(path, API)
    ensures StartsWith(path, AUTH) <==> StartsWith("/" + Bucket(path), AUTH)
    ensures "api" <= Bucket(path) && (Bucket(path) != "api" ==> |Bucket(path)| > 3 && Bucket(path)[3] == '/')
  {
    var s := path[1..];
    assert path[0] == '/' && s[0] == 'a' && s[3] == '/' && s[..3] == "api";
    assert StripLeft(path) == s;
    var t := StripRight(s);
    assert |t| >= 3 by { assert s[2] == 'i'; }
    JoinedIsPrefix(t, 4);
    hide StripLeft, StripRight, Join, First, Split;
    var b := Bucket(path);
    if b != t { ShortSlashes(b, t); }
    assert path == "/" + s;
    PrefixShowsLimit(s, t, b);
  }

  lemma PrefixShowsLimit(s: string, t: string, b: string)
    requires b <= t <= s && (b != t ==> Slashes(b) == 3)
    requires forall i :: |t| <= i < |s| ==> s[i] == '/'
    ensures StartsWith("/" + s, AUTH) <==> StartsWith("/" + b, AUTH)
  {
    hide Slashes;
    if StartsWith("/" + s, AUTH) {
      assert s[..11] == AUTH[1..];
      assert s[10] == 'h';
      if b != t && |b| < 11 { AuthSlashes(b); }
    }
  }

  lemma ShortSlashes(b: string, t: string)
    requires b <= t && Slashes(b) == 3 && "api" <= t
    ensures |b| > 3
  {
    if |b| <= 3 {
      assert b == "api"[..|b|];
      NoSlashes(b);
    }
  }

  /** A prefix of the auth path has at most two slashes. */
  lemma AuthSlashes(b: string)
    requires b <= AUTH[1..]
    ensures Slashes(b) <= 2
  {
    var parts := ["api", "v1", "auth"];
    assert AUTH[1..] == parts[0] + "/" + parts[1] + "/" + parts[2];
    assert '/' !in parts[0] && '/' !in parts[1] && '/' !in parts[2];
    hide Slashes;
    TwoSlashes(parts[0], parts[1], parts[2]);
    SlashesAppend(b, AUTH[1..][|b|..]);
    assert AUTH[1..] == b + AUTH[1..][|b|..];
  }

  lemma TwoSlashes(a: string, b: string, c: string)
    requires '/' !in a && '/' !in b && '/' !in c
    ensures Slashes(a + "/" + b + "/" + c) == 2
  {
    SlashesAppend(a + "/" + b + "/", c);
    SlashesAppend(a + "/" + b, "/");
    SlashesAppend(a + "/", b);
    SlashesAppend(a, "/");
    NoSlashes(a);
    NoSlashes(b);
    NoSlashes(c);
  }

  predicate ApiBucket(b: string) {
    "api" <= b && (b != "api" ==> |b| > 3 && b[3] == '/') && Slashes(b) <= 3
  }

  lemma BucketOfApi(path: string)
    requires StartsWith(path, API)
    ensures ApiBucket(Bucket(path))
  {
    BucketShowsLimit(path);
    JoinedIsPrefix(StripRight(StripLeft(path)), 4);
    hide StripLeft, StripRight, Join, First, Split, Slashes;
  }

  /** One client name is the other, a colon, and up to four segments under "api". */
  predicate MayShare(host: string, longer: string) {
    && |longer| > |host|
    && longer[..|host| + 1] == host + ":"
    && "api/" <= longer[|host| + 1..]
    && Slashes(longer[|host| + 1..]) <= 3
  }

  /** Two clients can be given one window exactly when their names stand in this relation; an
      address without a slash never does. */
  lemma ClientsShareExactly(host: string, host': string)
    requires host != host'
    ensures (exists path, path' :: SharedKey(host, path, host', path')) <==>
              MayShare(host, host') || MayShare(host', host)
    ensures '/' !in host && '/' !in host' ==> !MayShare(host, host') && !MayShare(host', host)
  {
    hide Slashes;
    forall path, path' | SharedKey(host, path, host', path') ensures MayShare(host, host') || MayShare(host', host) {
      KeysMeet(host, path, host', path');
    }
    if MayShare(host, host') {
      var m := SharingPath(host, host');
      assert SharedKey(host, m, host', "/api/");
    }
    if MayShare(host', host) {
      var m := SharingPath(host', host);
      assert SharedKey(host, "/api/", host', m);
    }
    SharingHasSlash(host, host');
    SharingHasSlash(host', host);
  }

  lemma SharingHasSlash(host: string, longer: string)
    ensures MayShare(host, longer) ==> '/' in longer
  {
    hide Slashes;
    if MayShare(host, longer) { assert longer[|host| + 1..][3] == '/'; }
  }

  predicate SharedKey(host: string, path: string, host': string, path': string) {
    StartsWith(path, API) && StartsWith(path', API) && Key(host, path) == Key(host', path')
  }

  lemma KeysMeet(host: string, path: string, host': string, path': string)
    requires SharedKey(host, path, host', path') && host != host'
    ensures MayShare(host, host') || MayShare(host', host)
  {
    BucketOfApi(path);
    BucketOfApi(path');
    hide Bucket, Slashes;
    var key := Key(host, path);
    assert host == key[..|host|] && host' == key[..|host'|];
    if |host| < |host'| {
      Overhang(host, Bucket(path), host', Bucket(path'));
    } else {
      Overhang(host', Bucket(path'), host, Bucket(path));
    }
  }

  lemma Overhang(host: string, b: string, longer: string, b': string)
    requires |host| < |longer| && ApiBucket(b) && ApiBucket(b') && host + ":" + b == longer + ":" + b'
    ensures MayShare(host, longer)
  {
    var key := host + ":" + b;
    assert key[..|longer|] == longer && key[..|host| + 1] == host + ":";
    assert longer[..|host| + 1] == key[..|host| + 1];
    var m := longer[|host| + 1..];
    assert longer == host + ":" + m;
    assert b == key[|host| + 1..] == m + ":" + b';
    assert b[|m|] == ':';
    SlashesAppend(m + ":", b');
    SlashesAppend(m, ":");
    hide Slashes;
    assert |m| > 3 && m[3] == '/' && m[..3] == "api";
  }

  /** The path that takes the shorter name's key onto the longer one's. */
  lemma SharingPath(host: string, longer: string) returns (path: string)
    requires MayShare(host, longer)
    ensures StartsWith(path, API) && Key(host, path) == Key(longer, "/api/")
    ensures path == "/" + longer[|host| + 1..] + ":api"
  {
    var m := longer[|host| + 1..];
    var b := m + ":api";
    path := "/" + b;
    assert m[..4] == "api/";
    assert path[..5] == API;
    SlashesAppend(m, ":api");
    NoSlashes(":api");
    WholeBucket(b);
    RootBucket();
    assert longer == host + ":" + m;
    hide Bucket, Slashes;
  }

  lemma RootBucket()
    ensures Bucket("/api/") == "api"
  {
    assert "/api/"[1..] == "api/" && "api/"[..3] == "api";
    assert StripLeft("/api/") == "api/" && StripRight("api/") == "api";
    assert FirstSlash("api") == 3 by { NoSlashIn("api"); }
    assert Split("api") == ["api"];
  }

  lemma {:induction false} NoSlashIn(s: string)
    requires forall k :: 0 <= k < |s| ==> s[k] != '/'
    ensures FirstSlash(s) == |s|
  {
    if s == "" {
    } else {
      NoSlashIn(s[1..]);
    }
  }

  /** A path of at most four segments is its own bucket. */
  lemma WholeBucket(b: string)
    requires b != "" && b[0] != '/' && b[|b| - 1] != '/' && Slashes(b) <= 3
    ensures Bucket("/" + b) == b
  {
    BucketOfRest(b);
    JoinedIsPrefix(b, 4);
    hide Bucket, Join, First, Split;
    var j := Join(First(Split(b), 4));
    if j != b { SlashAfter(b, j); }
    hide Slashes;
  }

  lemma SlashAfter(s: string, b: string)
    requires b <= s && b != s && s[|b|] == '/'
    ensures Slashes(s) > Slashes(b)
  {
    assert s == b + s[|b|..];
    SlashesAppend(b, s[|b|..]);
    assert Slashes(s[|b|..]) >= 1;
  }

  lemma BucketOfRest(b: string)
    requires b != "" && b[0] != '/' && b[|b| - 1] != '/'
    ensures Bucket("/" + b) == Join(First(Split(b), 4))
  {
    assert ("/" + b)[1..] == b;
    assert StripLeft(b) == b && StripRight(b) == b;
    assert StripLeft("/" + b) == StripLeft(b);
    hide Join, First, Split;
  }

  /** Clients that cannot share are told apart by their keys, and all the paths of one client
      that share a window have the same limit. */
  lemma WindowsAreSeparate(host: string, path: string, host': string, path': string, perMinute: int)
    requires SharedKey(host, path, host', path') && !MayShare(host, host') && !MayShare(host', host)
    ensures host == host' && Limit(path, perMinute) == Limit(path', perMinute)
  {
    if host != host' {
      KeysMeet(host, path, host', path');
    } else {
      BucketShowsLimit(path);
      BucketShowsLimit(path');
      var key := Key(host, path);
      assert Bucket(path) == key[|host| + 1..] && Bucket(path') == key[|host| + 1..];
    }
    hide Bucket, MayShare;
  }

  /** Where clients do share, the limits may differ. */
  lemma SharedWindowExample(host: string, perMinute: int)
    ensures SharedKey(host, AUTH + ":api", host + ":" + AUTH[1..], "/api/")
    ensures Limit(AUTH + ":api", perMinute) == AUTH_LIMIT && Limit("/api/", perMinute) == perMinute
  {
    var longer := host + ":" + AUTH[1..];
    assert longer[|host| + 1..] == AUTH[1..] && longer[..|host| + 1] == host + ":";
    assert "api/" <= AUTH[1..];
    AuthSlashes(AUTH[1..]);
    hide Slashes;
    var path := SharingPath(host, longer);
    assert path == AUTH + ":api" by { assert "/" + AUTH[1..] == AUTH; }
    hide Key;
  }

  // ------------------------------------------------------------------ windows

  predicate Ascending(ts: seq<real>) {
    forall i, j :: 0 <= i < j < |ts| ==> ts[i] <= ts[j]
  }

  /** What popping from the left leaves. */
  function Recent(ts: seq<real>, now: real): seq<real> {
    if ts != [] && now - ts[0] > WINDOW then Recent(ts[1..], now) else ts
  }

  /** How many of these times lie in [lo, hi]. */
  function CountIn(ts: seq<real>, lo: real, hi: real): nat {
    if ts == [] then 0 else (if lo <= ts[0] <= hi then 1 else 0) + CountIn(ts[1..], lo, hi)
  }

  function TimesIn(ts: seq<real>, lo: real, hi: real): set<int> {
    set i | 0 <= i < |ts| && lo <= ts[i] <= hi
  }

  lemma {:induction false} CountInExactly(ts: seq<real>, lo: real, hi: real)
    ensures CountIn(ts, lo, hi) == |TimesIn(ts, lo, hi)|
  {
    if ts == [] {
    } else {
      var n := |ts| - 1;
      CountInExactly(ts[..n], lo, hi);
      CountInLast(ts, lo, hi);
      if lo <= ts[n] <= hi {
        assert TimesIn(ts, lo, hi) == TimesIn(ts[..n], lo, hi) + {n};
      } else {
        assert TimesIn(ts, lo, hi) == TimesIn(ts[..n], lo, hi);
      }
    }
  }

  lemma {:induction false} CountInLast(ts: seq<real>, lo: real, hi: real)
    requires ts != []
    ensures CountIn(ts, lo, hi) == CountIn(ts[..|ts| - 1], lo, hi) + if lo <= ts[|ts| - 1] <= hi then 1 else 0
  {
    if |ts| == 1 {
    } else {
      CountInLast(ts[1..], lo, hi);
      assert ts[1..][..|ts| - 2] == ts[..|ts| - 1][1..];
    }
  }

  /** The deque is exact: it holds every admission of the last minute and nothing older. */
  lemma {:induction false} RecentIsExact(ts: seq<real>, now: real)
    requires Ascending(ts) && (forall i :: 0 <= i < |ts| ==> ts[i] <= now)
    ensures |Recent(ts, now)| == CountIn(ts, now - WINDOW, now)
    ensures |Recent(ts, now)| <= |ts| && Recent(ts, now) == ts[|ts| - |Recent(ts, now)|..]
    ensures forall i :: 0 <= i < |Recent(ts, now)| ==> now - Recent(ts, now)[i] <= WINDOW
    ensures forall i :: 0 <= i < |ts| - |Recent(ts, now)| ==> now - ts[i] > WINDOW
  {
    if ts == [] {
    } else {
      if now - ts[0] > WINDOW {
        RecentIsExact(ts[1..], now);
        forall i | 0 <= i < |ts| - |Recent(ts, now)| ensures now - ts[i] > WINDOW {
          if i > 0 { assert ts[i] == ts[1..][i - 1]; }
        }
      } else {
        AllCounted(ts, now - WINDOW, now);
      }
    }
  }

  lemma {:induction false} AllCounted(ts: seq<real>, lo: real, hi: real)
    requires forall i :: 0 <= i < |ts| ==> lo <= ts[i] <= hi
    ensures CountIn(ts, lo, hi) == |ts|
  {
    if ts == [] {
    } else {
      AllCounted(ts[1..], lo, hi);
    }
  }

  /** Popping at one time and again later is popping once, later. */
  lemma {:induction false} RecentTwice(ts: seq<real>, before: real, now: real)
    requires before <= now
    ensures Recent(Recent(ts, before), now) == Recent(ts, now)
  {
    if ts == [] || before - ts[0] <= WINDOW {
    } else {
      RecentTwice(ts[1..], before, now);
    }
  }

  lemma {:induction false} RecentAppend(ts: seq<real>, now: real)
    requires forall i :: 0 <= i < |ts| ==> ts[i] <= now
    ensures Recent(ts + [now], now) == Recent(ts, now) + [now]
  {
    if ts == [] || now - ts[0] <= WINDOW {
    } else {
      assert (ts + [now])[1..] == ts[1..] + [now];
      RecentAppend(ts[1..], now);
    }
  }

  /** No more than `limit` of these admissions lie in a closed minute. */
  ghost predicate Spaced(ts: seq<real>, limit: int) {
    && (ts != [] ==> limit >= 1)
    && forall i, j :: 0 <= i < j < |ts| && ts[j] - ts[i] <= WINDOW ==> j - i < limit
  }

  lemma AdmittedSpaced(ts: seq<real>, now: real, limit: int)
    requires Ascending(ts) && (forall i :: 0 <= i < |ts| ==> ts[i] <= now)
    requires Spaced(ts, limit) && |Recent(ts, now)| < limit
    ensures Ascending(ts + [now]) && Spaced(ts + [now], limit)
  {
    RecentIsExact(ts, now);
    var n, all := |Recent(ts, now)|, ts + [now];
    hide Recent;
    forall i, j | 0 <= i < j < |all| && all[j] - all[i] <= WINDOW ensures j - i < limit {
      if j < |ts| {
        assert all[j] == ts[j] && all[i] == ts[i];
      } else {
        assert now - ts[i] <= WINDOW;
        assert i >= |ts| - n;
      }
    }
  }

  /** Counting form: whatever minute is looked at, the limit is kept in it. */
  lemma {:induction false} SpacedCounts(ts: seq<real>, limit: int, lo: real)
    requires Ascending(ts) && Spaced(ts, limit)
    ensures CountIn(ts, lo, lo + WINDOW) <= if limit >= 1 then limit else 0
  {
    if ts == [] {
    } else {
      var rest := ts[1..];
      forall i, j | 0 <= i < j < |rest| && rest[j] - rest[i] <= WINDOW ensures j - i < limit {
        assert rest[i] == ts[i + 1] && rest[j] == ts[j + 1];
      }
      if ts[0] < lo {
        SpacedCounts(rest, limit, lo);
      } else {
        var n := CountIn(ts, lo, lo + WINDOW);
        Leading(ts, lo, lo + WINDOW);
        if n >= 2 { assert ts[n - 1] - ts[0] <= WINDOW; }
      }
    }
  }

  /** From a first time inside, the counted ones are the leading ones. */
  lemma {:induction false} Leading(ts: seq<real>, lo: real, hi: real)
    requires Ascending(ts) && (forall i :: 0 <= i < |ts| ==> lo <= ts[i])
    ensures CountIn(ts, lo, hi) <= |ts|
    ensures CountIn(ts, lo, hi) > 0 ==> ts[CountIn(ts, lo, hi) - 1] <= hi
  {
    if ts == [] {
    } else {
      Leading(ts[1..], lo, hi);
      var n := CountIn(ts[1..], lo, hi);
      if n > 0 { assert ts[0] <= ts[1..][n - 1] == ts[n]; }
    }
  }

  // ------------------------------------------------------------------ the middleware

  datatype Response = Forwarded | TooManyRequests

  /** The history of one window: the requests that reached it, as host and path, every
      admission, and the last check. */
  datatype Past = Past(requests: set<(string, string)>, admitted: seq<real>, checked: real)

  /** No request to the window came with a higher limit. */
  predicate Bounds(past: Past, limit: int, perMinute: int) {
    forall r :: r in past.requests ==> Limit(r.1, perMinute) <= limit
  }

  /** The deque `hits` is right for this history. */
  ghost predicate WindowOk(k: string, past: Past, hits: seq<real>, clock: real, perMinute: int) {
    && (forall r :: r in past.requests ==> StartsWith(r.1, API) && Key(r.0, r.1) == k)
    && past.checked <= clock
    && Ascending(past.admitted)
    && (forall i :: 0 <= i < |past.admitted| ==> past.admitted[i] <= past.checked)
    && hits == Recent(past.admitted, past.checked)
    && (forall limit :: Bounds(past, limit, perMinute) ==> Spaced(past.admitted, limit))
  }

  /** One more request, seen now. */
  function Seen(past: Past, host: string, path: string, now: real): Past {
    past.(requests := past.requests + {(host, path)}, checked := now)
  }

  lemma WindowChecked(
    host: string, path: string, past: Past, hits: seq<real>, clock: real, now: real, perMinute: int)
    requires WindowOk(Key(host, path), past, hits, clock, perMinute) && StartsWith(path, API) && clock <= now
    ensures var k, popped, seen := Key(host, path), Recent(hits, now), Seen(past, host, path, now);
      && |popped| == CountIn(past.admitted, now - WINDOW, now)
      && WindowOk(k, seen, popped, now, perMinute)
      && (|popped| < Limit(path, perMinute) ==>
            WindowOk(k, seen.(admitted := past.admitted + [now]), popped + [now], now, perMinute))
  {
    hide Key, Limit, StartsWith;
    RecentTwice(past.admitted, past.checked, now);
    RecentIsExact(past.admitted, now);
    var seen := Seen(past, host, path, now);
    forall limit | Bounds(seen, limit, perMinute) ensures Spaced(past.admitted, limit) {
      assert Bounds(past, limit, perMinute);
    }
    if |Recent(hits, now)| < Limit(path, perMinute) {
      forall limit | Bounds(seen, limit, perMinute)
        ensures Ascending(past.admitted + [now]) && Spaced(past.admitted + [now], limit)
      {
        assert (host, path) in seen.requests;
        AdmittedSpaced(past.admitted, now, limit);
      }
      AscendingAppend(past.admitted, now);
      RecentAppend(past.admitted, now);
    }
    hide Spaced, CountIn;
  }

  lemma AscendingAppend(ts: seq<real>, now: real)
    requires Ascending(ts) && (forall i :: 0 <= i < |ts| ==> ts[i] <= now)
    ensures Ascending(ts + [now])
  {}

  /** Drop from the left what is more than a window old. */
  method PopLeft(hits: seq<real>, now: real) returns (window: seq<real>)
    ensures window == Recent(hits, now)
  {
    window := hits;
    while window != [] && now - window[0] > WINDOW
      invariant Recent(window, now) == Recent(hits, now)
    {
      window := window[1..];
    }
  }

  class RateLimitMiddleware {
    const isTest: bool
    const perMinute: int
    var hits: map<string, seq<real>>
    ghost var past: map<string, Past>
    ghost var clock: real

    ghost predicate Valid()
      reads this
    {
      && hits.Keys == past.Keys
      && forall k :: k in hits ==> WindowOk(k, past[k], hits[k], clock, perMinute)
    }

    constructor (isTest: bool, perMinute: int)
      ensures Valid() && hits == map[] && this.isTest == isTest && this.perMinute == perMinute && clock == 0.0
    {
      this.isTest, this.perMinute := isTest, perMinute;
      hits, past, clock := map[], map[], 0.0;
    }

    /** Every time this key was let through. */
    ghost function Admissions(k: string): seq<real>
      reads this
    {
      if k in past then past[k].admitted else []
    }

    /** Every request, as host and path, that was checked under this key. */
    ghost function Requests(k: string): set<(string, string)>
      reads this
    {
      if k in past then past[k].requests else {}
    }

    /** Refused exactly when the key's admissions of the last minute, counted over its whole
        history, have used up the limit; an admission is recorded and nothing else changes. */
    method Dispatch(host: string, path: string, now: real) returns (response: Response)
      requires Valid() && clock <= now
      modifies this
      ensures Valid() && clock == now
      ensures response == TooManyRequests <==>
                !isTest && "/api/" <= path
                && CountIn(old(Admissions(Key(host, path))), now - WINDOW, now) >= Limit(path, perMinute)
      ensures Admissions(Key(host, path)) ==
                old(Admissions(Key(host, path)))
                + if !isTest && "/api/" <= path && response == Forwarded then [now] else []
      ensures Requests(Key(host, path)) ==
                old(Requests(Key(host, path))) + if !isTest && "/api/" <= path then {(host, path)} else {}
      ensures forall k :: k != Key(host, path) ==> Admissions(k) == old(Admissions(k)) && Requests(k) == old(Requests(k))
    {
      hide Key, Recent, CountIn, WindowOk;
      LaterClock(hits, past, clock, now, perMinute);
      clock := now;
      if isTest || !StartsWith(path, API) { return Forwarded; }
      var limit := perMinute;
      if StartsWith(path, AUTH) { limit := AUTH_LIMIT; }
      assert limit == Limit(path, perMinute);
      hide Limit, StartsWith;
      var key := Key(host, path);
      if key !in hits {
        NewWindow(key, now, perMinute);
        hits, past := hits[key := []], past[key := Past({}, [], now)];
      }
      response := Admit(host, path, key, limit, now);
    }

    /** Pop what is too old, then append or refuse. */
    method Admit(ghost host: string, ghost path: string, key: string, limit: int, now: real) returns (response: Response)
      requires Valid() && clock == now && key in hits
      requires key == Key(host, path) && StartsWith(path, API) && limit == Limit(path, perMinute)
      modifies this`hits, this`past
      ensures Valid() && past.Keys == old(past.Keys)
      ensures response == TooManyRequests <==> CountIn(old(past[key].admitted), now - WINDOW, now) >= limit
      ensures past[key].admitted == old(past[key].admitted) + if response == Forwarded then [now] else []
      ensures past[key].requests == old(past[key].requests) + {(host, path)}
      ensures forall k :: k in past && k != key ==> past[k] == old(past[k])
    {
      hide Key, Recent, CountIn, WindowOk, Limit, StartsWith;
      WindowChecked(host, path, past[key], hits[key], now, now, perMinute);
      var window := PopLeft(hits[key], now);
      past := past[key := Seen(past[key], host, path, now)];
      if |window| >= limit {
        hits := hits[key := window];
        return TooManyRequests;
      }
      past := past[key := past[key].(admitted := past[key].admitted + [now])];
      window := window + [now];
      hits := hits[key := window];
      return Forwarded;
    }

    /** In any state the middleware can reach, no closed minute holds more admissions of a key
        than the highest limit of the requests that used it. */
    lemma NoMinuteIsOverfull(k: string, limit: int, lo: real)
      requires Valid() && forall r :: r in Requests(k) ==> Limit(r.1, perMinute) <= limit
      ensures CountIn(Admissions(k), lo, lo + 60.0) <= if limit >= 1 then limit else 0
    {
      if k in past {
        assert WindowOk(k, past[k], hits[k], clock, perMinute);
        assert Bounds(past[k], limit, perMinute);
        SpacedCounts(past[k].admitted, limit, lo);
      }
    }

    /** For a client that shares with no other client of its key, that is its own limit: twenty
        below /api/v1/auth, and elsewhere what is configured. */
    lemma NoMinuteIsOverfullFor(host: string, path: string, lo: real)
      requires Valid() && StartsWith(path, API)
      requires forall r :: r in Requests(Key(host, path)) ==> !MayShare(host, r.0) && !MayShare(r.0, host)
      ensures var limit := if "/api/v1/auth" <= path then 20 else perMinute;
        CountIn(Admissions(Key(host, path)), lo, lo + 60.0) <= if limit >= 1 then limit else 0
    {
      var k := Key(host, path);
      forall r | r in Requests(k) ensures Limit(r.1, perMinute) <= Limit(path, perMinute) {
        assert WindowOk(k, past[k], hits[k], clock, perMinute);
        hide Bucket, MayShare, Limit;
        WindowsAreSeparate(host, path, r.0, r.1, perMinute);
      }
      hide Key, MayShare, CountIn;
      NoMinuteIsOverfull(k, Limit(path, perMinute), lo);
    }
  }

  lemma LaterClock(hits: map<string, seq<real>>, past: map<string, Past>, clock: real, now: real, perMinute: int)
    requires hits.Keys == past.Keys && clock <= now
    requires forall k :: k in hits ==> WindowOk(k, past[k], hits[k], clock, perMinute)
    ensures forall k :: k in hits ==> WindowOk(k, past[k], hits[k], now, perMinute)
  {}

  lemma NewWindow(key: string, now: real, perMinute: int)
    ensures WindowOk(key, Past({}, [], now), [], now, perMinute)
  {}
}
