/** The fixed-window request limiter on Redis. Times are whole milliseconds. */
module RateLimit {
  import opened Wrappers

  /** A counter with its expiry: INCR, then EXPIRE when it was the first. */
  datatype Window = Window(since: int, count: nat)

  function Increment(w: Option<Window>, now: int, length: int): Window {
    if w.None? || now >= w.value.since + length then Window(now, 1) else Window(w.value.since, w.value.count + 1)
  }

  ghost predicate Ascending(times: seq<int>) {
    forall i, j :: 0 <= i <= j < |times| ==> times[i] <= times[j]
  }

  /** The counter of one key after its first n calls. */
  function After(times: seq<int>, length: int, n: nat): Option<Window>
    requires n <= |times|
  {
    if n == 0 then None else Some(Increment(After(times, length, n - 1), times[n - 1], length))
  }

  /** Whether call n was admitted. */
  predicate Admitted(times: seq<int>, length: int, most: int, n: nat)
    requires n < |times|
  {
    After(times, length, n + 1).value.count <= most
  }

  /** Admitted calls among the first n with a time in [start, start + length). */
  function AdmittedWithin(times: seq<int>, length: int, most: int, start: int, n: nat): nat
    requires n <= |times|
  {
    if n == 0 then 0
    else
      var hit := start <= times[n - 1] < start + length && Admitted(times, length, most, n - 1);
      AdmittedWithin(times, length, most, start, n - 1) + (if hit then 1 else 0)
  }

  function Min(x: int, y: int): int {
    if x < y then x else y
  }

  /** What the interval can hold when the current window opened before or inside it. */
  ghost predicate Spread(times: seq<int>, length: int, most: int, start: int, n: nat)
    requires 0 < n <= |times|
  {
    var w, last := After(times, length, n).value, times[n - 1];
    var within := AdmittedWithin(times, length, most, start, n);
    && w.count >= 1 && w.since <= last < w.since + length
    && (last < start ==> within == 0)
    && (start <= last < start + length && w.since < start ==> within <= Min(w.count, most) - 1)
    && (start <= last < start + length && w.since >= start ==> within <= Min(w.count, most) + most - 1)
    && within <= 2 * most - 1
  }

  lemma {:induction false} SpreadHolds(times: seq<int>, length: int, most: int, start: int, n: nat)
    requires Ascending(times) && length > 0 && most >= 1 && 0 < n <= |times|
    ensures Spread(times, length, most, start, n)
  {
    if n == 1 {
      assert After(times, length, 0).None?;
      assert AdmittedWithin(times, length, most, start, 0) == 0;
    } else {
      SpreadHolds(times, length, most, start, n - 1);
      assert times[n - 2] <= times[n - 1];
    }
  }

  /** Over any run, any half-open interval of one window length holds at most 2 * most - 1
      admitted calls of a key: an interval that reaches into a second window misses the
      call that opened the first. */
  lemma AtMostTwiceLessOne(times: seq<int>, length: int, most: int, start: int)
    requires Ascending(times) && length > 0 && most >= 1
    ensures AdmittedWithin(times, length, most, start, |times|) <= 2 * most - 1
  {
    if times != [] {
      SpreadHolds(times, length, most, start, |times|);
    }
  }

  /** One call at 0, most - 1 calls just before the window ends, most calls when the next begins. */
  function Burst(length: int, most: nat): (times: seq<int>)
    ensures |times| == 2 * most
  {
    seq(2 * most, i => if i == 0 then 0 else if i < most then length - 1 else length)
  }

  lemma {:induction false} BurstCounts(length: int, most: nat, n: nat)
    requires length >= 2 && most >= 1 && 0 < n <= 2 * most
    ensures After(Burst(length, most), length, n)
         == Some(if n <= most then Window(0, n) else Window(length, n - most))
    ensures AdmittedWithin(Burst(length, most), length, most, length - 1, n) == n - 1
  {
    var times := Burst(length, most);
    if n == 1 {
      assert After(times, length, 0).None?;
      assert AdmittedWithin(times, length, most, length - 1, 0) == 0;
    } else {
      BurstCounts(length, most, n - 1);
    }
  }

  /** The bound is reached, for every limit. */
  lemma BoundIsReached(length: int, most: nat)
    requires length >= 2 && most >= 1
    ensures Ascending(Burst(length, most))
    ensures AdmittedWithin(Burst(length, most), length, most, length - 1, 2 * most) == 2 * most - 1
  {
    BurstCounts(length, most, 2 * most);
  }

  /** RateLimiter.__call__: one counter per client address. */
  class RateLimiter {
    const enabled: bool
    const maxRequests: int
    const windowLength: int
    var store: map<string, Window>
    ghost var calls: map<string, seq<int>>  // the counted calls of each address

    ghost predicate Valid()
      reads this
    {
      && windowLength > 0 && store.Keys == calls.Keys
      && forall ip :: ip in calls ==>
           && Ascending(calls[ip])
           && After(calls[ip], windowLength, |calls[ip]|) == Some(store[ip])
    }

    ghost function Calls(ip: string): seq<int>
      reads this
    {
      if ip in calls then calls[ip] else []
    }

    constructor (enabled: bool, maxRequests: int, windowLength: int)
      requires windowLength > 0
      ensures Valid() && store == map[] && calls == map[]
      ensures this.enabled == enabled && this.maxRequests == maxRequests && this.windowLength == windowLength
    {
      this.enabled := enabled;
      this.maxRequests := maxRequests;
      this.windowLength := windowLength;
      store := map[];
      calls := map[];
    }

    /** False is the 429 answer. */
    method Request(ip: string, now: int) returns (admitted: bool)
      requires Valid()
      requires Calls(ip) != [] ==> Calls(ip)[|Calls(ip)| - 1] <= now
      modifies this
      ensures Valid()
      ensures !enabled || maxRequests <= 0 ==> admitted && store == old(store) && calls == old(calls)
      ensures enabled && maxRequests > 0 ==>
                && calls == old(calls)[ip := old(Calls(ip)) + [now]]
                && admitted == Admitted(Calls(ip), windowLength, maxRequests, |Calls(ip)| - 1)
    {
      if !enabled || maxRequests <= 0 {
        return true;
      }
      var window := Increment(if ip in store then Some(store[ip]) else None, now, windowLength);
      ghost var longer := Calls(ip) + [now];
      AfterPrefix(Calls(ip), now, windowLength, |Calls(ip)|);
      store := store[ip := window];
      calls := calls[ip := longer];
      admitted := window.count <= maxRequests;
    }
  }

  lemma {:induction false} AfterPrefix(times: seq<int>, now: int, length: int, n: nat)
    requires n <= |times|
    ensures After(times + [now], length, n) == After(times, length, n)
  {
    if n > 0 {
      AfterPrefix(times, now, length, n - 1);
    }
  }
}

/** The hourly signup cap per mail domain: a signup counts the stored accounts, and is stored itself
    only later, with the time its transaction began. Times are whole microseconds. */
module SignupCap {

  const HOUR := 3_600_000_000
  const LARGE_PROVIDERS := {
    "gmail.com", "googlemail.com", "outlook.com", "hotmail.com", "live.com", "yahoo.com", "icloud.com",
    "me.com", "proton.me", "protonmail.com", "fastmail.com", "gmx.com", "aol.com"}
  const LARGE_PROVIDER_MULTIPLIER := 20

  datatype Account = Account(email: string, createdAt: int)

  datatype Config = Config(verificationRequired: bool, perDomainPerHour: int)

  function LowerChar(c: char): char {
    if 'A' <= c <= 'Z' then c - 'A' + 'a' else c
  }

  function Lower(s: string): (r: string)
    ensures |r| == |s|
  {
    seq(|s|, i requires 0 <= i < |s| => LowerChar(s[i]))
  }

  /** Capital letters become small ones; every other character stays. */
  lemma LowerIs(s: string, i: nat)
    requires i < |s|
    ensures 'A' <= s[i] <= 'Z' ==> Lower(s)[i] as int == s[i] as int + 32
    ensures !('A' <= s[i] <= 'Z') ==> Lower(s)[i] == s[i]
  {
  }

  /** What follows the last '@'; the whole text when there is none. */
  function AfterAt(email: string): string {
    if '@' !in email then email else AfterAt(email[1..])
  }

  function Domain(email: string): string {
    Lower(AfterAt(email))
  }

  /** SQL LIKE: % stands for any text, _ for any one character. */
  predicate Like(pattern: string, s: string)
    decreases |pattern| + |s|
  {
    if pattern == [] then s == []
    else if pattern[0] == '%' then Like(pattern[1..], s) || (s != [] && Like(pattern, s[1..]))
    else s != [] && (pattern[0] == '_' || pattern[0] == s[0]) && Like(pattern[1..], s[1..])
  }

  function Cap(c: Config, domain: string): int {
    if domain in LARGE_PROVIDERS then c.perDomainPerHour * LARGE_PROVIDER_MULTIPLIER else c.perDomainPerHour
  }

  /** The query: accounts whose mail matches %@domain, created since the given time. */
  function CountSince(accounts: seq<Account>, domain: string, since: int): nat {
    if accounts == [] then 0
    else
      var hit := Like("%@" + domain, Lower(accounts[0].email)) && accounts[0].createdAt >= since;
      (if hit then 1 else 0) + CountSince(accounts[1..], domain, since)
  }

  predicate Allowed(c: Config, accounts: seq<Account>, email: string, now: int) {
    var domain := Domain(email);
    !c.verificationRequired || c.perDomainPerHour <= 0 || CountSince(accounts, domain, now - HOUR) < Cap(c, domain)
  }

  predicate InWindow(a: Account, domain: string, start: int, length: int) {
    Domain(a.email) == domain && start <= a.createdAt <= start + length
  }

  /** Accounts of exactly this domain created in [start, start + length]. */
  function CreatedWithin(accounts: seq<Account>, domain: string, start: int, length: int): nat {
    if accounts == [] then 0
    else
      var hit := if InWindow(accounts[0], domain, start, length) then 1 else 0;
      hit + CreatedWithin(accounts[1..], domain, start, length)
  }

  lemma {:induction false} LikeItself(s: string)
    ensures Like(s, s)
  {
    if s != [] {
      LikeItself(s[1..]);
    }
  }

  lemma {:induction false} LikeAfterPercent(prefix: string, tail: string, s: string)
    requires Like(tail, s)
    ensures Like("%" + tail, prefix + s)
  {
    var pattern := "%" + tail;
    assert pattern[1..] == tail;
    if prefix == [] {
      assert prefix + s == s;
    } else {
      LikeAfterPercent(prefix[1..], tail, s);
      assert (prefix + s)[1..] == prefix[1..] + s;
    }
  }

  lemma {:induction false} SplitAt(email: string) returns (local: string)
    requires '@' in email
    ensures email == local + ("@" + AfterAt(email))
  {
    if '@' in email[1..] {
      var rest := SplitAt(email[1..]);
      local := [email[0]] + rest;
      assert email == [email[0]] + email[1..];
    } else {
      assert email[0] == '@';
      local := "";
      assert email == "@" + email[1..];
    }
  }

  /** The domain is what follows the last '@', in lower case. */
  lemma {:induction false} MailParts(local: string, domain: string)
    requires '@' !in domain
    ensures '@' in local + ("@" + domain) && Domain(local + ("@" + domain)) == Lower(domain)
  {
    var email := local + ("@" + domain);
    assert email[|local|] == '@';
    if local == [] {
      assert email[1..] == domain;
      assert AfterAt(email) == AfterAt(domain) == domain;
    } else {
      MailParts(local[1..], domain);
      assert email[1..] == local[1..] + ("@" + domain);
    }
  }

  lemma LowerConcat(s: string, t: string)
    ensures Lower(s + t) == Lower(s) + Lower(t)
  {
  }

  /** The pattern matches every address of the domain (and, through wildcards in a
      domain name, perhaps more: the check only gets stricter). */
  lemma PatternCoversDomain(email: string)
    requires '@' in email
    ensures Like("%@" + Domain(email), Lower(email))
  {
    var local := LowerParts(email);
    var domain := Domain(email);
    LikeItself("@" + domain);
    LikeAfterPercent(local, "@" + domain, "@" + domain);
    assert "%" + ("@" + domain) == "%@" + domain;
  }

  predicate Plain(s: string) {
    '@' !in s && '%' !in s && '_' !in s
  }

  lemma {:induction false} LikePlain(pattern: string, s: string)
    requires '%' !in pattern && '_' !in pattern
    ensures Like(pattern, s) <==> pattern == s
  {
    if pattern != [] && s != [] {
      LikePlain(pattern[1..], s[1..]);
      assert pattern == [pattern[0]] + pattern[1..] && s == [s[0]] + s[1..];
    }
  }

  lemma {:induction false} LikeSuffix(tail: string, s: string) returns (prefix: string)
    requires '%' !in tail && '_' !in tail && Like("%" + tail, s)
    ensures s == prefix + tail
  {
    var pattern := "%" + tail;
    assert pattern[1..] == tail;
    LikePlain(tail, s);
    if s == tail {
      prefix := "";
    } else {
      prefix := LikeSuffix(tail, s[1..]);
      prefix := [s[0]] + prefix;
      assert s == [s[0]] + s[1..];
    }
  }

  /** An address in lower case is a local part, '@' and its domain. */
  lemma LowerParts(email: string) returns (local: string)
    requires '@' in email
    ensures Lower(email) == local + ("@" + Domain(email)) && '@' !in Domain(email)
  {
    var part := SplitAt(email);
    LowerConcat(part, "@" + AfterAt(email));
    LowerConcat("@", AfterAt(email));
    assert Lower("@") == "@";
    LastAt(email);
    local := Lower(part);
  }

  lemma MatchedDomain(email: string, domain: string)
    requires '@' in email && Plain(domain) && Like("%" + ("@" + domain), Lower(email))
    ensures Domain(email) == domain
  {
    var local := LowerParts(email);
    var prefix := LikeSuffix("@" + domain, Lower(email));
    SameTail(local, Domain(email), prefix, domain);
  }

  /** The pattern of a domain without wildcards matches the addresses of that domain and no others. */
  lemma PatternIsDomain(email: string, domain: string)
    requires '@' in email && Plain(domain)
    ensures Like("%@" + domain, Lower(email)) <==> Domain(email) == domain
  {
    assert "%" + ("@" + domain) == "%@" + domain;
    if Domain(email) == domain {
      PatternCoversDomain(email);
    } else if Like("%@" + domain, Lower(email)) {
      MatchedDomain(email, domain);
    }
  }

  lemma {:induction false} LastAt(email: string)
    requires '@' in email
    ensures '@' !in AfterAt(email) && '@' !in Domain(email)
  {
    if '@' in email[1..] {
      LastAt(email[1..]);
    }
  }

  lemma SameTail(a: string, b: string, c: string, d: string)
    requires '@' !in b && '@' !in d && a + ("@" + b) == c + ("@" + d)
    ensures b == d
  {
    var s := a + ("@" + b);
    NoneBehind(a, b);
    NoneBehind(c, d);
    assert s[|a| + 1..] == b && s[|c| + 1..] == d;
  }

  lemma NoneBehind(a: string, b: string)
    requires '@' !in b
    ensures var s := a + ("@" + b); s[|a|] == '@' && forall i :: |a| < i < |s| ==> s[i] != '@'
  {
  }

  /** For such a domain the query counts exactly its accounts of the last hour. */
  lemma {:induction false} QueryCountsExactly(accounts: seq<Account>, domain: string, since: int, until: int)
    requires Plain(domain) && forall i :: 0 <= i < |accounts| ==> '@' in accounts[i].email
    requires forall i :: 0 <= i < |accounts| ==> accounts[i].createdAt <= until
    ensures CountSince(accounts, domain, since) == CreatedWithin(accounts, domain, since, until - since)
  {
    if accounts != [] {
      QueryCountsExactly(accounts[1..], domain, since, until);
      PatternIsDomain(accounts[0].email, domain);
    }
  }

  // ------------------------------------------------------------------ signups side by side

  /** flights are the accounts whose signup has passed the check and is not stored yet. */
  datatype System = System(now: int, accounts: seq<Account>, flights: seq<Account>)

  /** At most inFlight signups of a domain are between check and store, and a check comes at most
      latency after its transaction began. */
  datatype Limits = Limits(inFlight: nat, latency: nat)

  predicate Enforced(c: Config) {
    c.verificationRequired && c.perDomainPerHour > 0
  }

  function InFlight(flights: seq<Account>, domain: string): nat {
    if flights == [] then 0 else (if Domain(flights[0].email) == domain then 1 else 0) + InFlight(flights[1..], domain)
  }

  function Without(s: seq<Account>, i: nat): seq<Account>
    requires i < |s|
  {
    s[..i] + s[i + 1..]
  }

  /** domain_signup_allowed says yes to a transaction begun at a.createdAt. */
  ghost predicate Passes(c: Config, l: Limits, s: System, t: System, a: Account) {
    && '@' in a.email && s.now - l.latency <= a.createdAt <= s.now
    && Allowed(c, s.accounts, a.email, s.now)
    && t == s.(flights := s.flights + [a])
    && InFlight(t.flights, Domain(a.email)) <= l.inFlight
  }

  ghost predicate Stores(s: System, t: System, i: nat) {
    i < |s.flights| && t == System(s.now, s.accounts + [s.flights[i]], Without(s.flights, i))
  }

  /** The signup fails after the check. */
  ghost predicate Fails(s: System, t: System, i: nat) {
    i < |s.flights| && t == s.(flights := Without(s.flights, i))
  }

  ghost predicate Step(c: Config, l: Limits, s: System, t: System) {
    || (exists a :: Passes(c, l, s, t, a))
    || (exists i :: Stores(s, t, i) || Fails(s, t, i))
    || (t == s.(now := t.now) && s.now <= t.now)
  }

  ghost predicate Run(c: Config, l: Limits, trace: seq<System>) {
    && trace != [] && trace[0].accounts == [] && trace[0].flights == []
    && forall n :: 0 <= n < |trace| - 1 ==> Step(c, l, trace[n], trace[n + 1])
  }

  lemma {:induction false} CreatedConcat(x: seq<Account>, y: seq<Account>, domain: string, start: int, length: int)
    ensures CreatedWithin(x + y, domain, start, length)
         == CreatedWithin(x, domain, start, length) + CreatedWithin(y, domain, start, length)
  {
    if x == [] {
      assert x + y == y;
    } else {
      CreatedConcat(x[1..], y, domain, start, length);
      assert (x + y)[1..] == x[1..] + y;
    }
  }

  lemma CreatedOne(a: Account, domain: string, start: int, length: int)
    ensures CreatedWithin([a], domain, start, length) == if InWindow(a, domain, start, length) then 1 else 0
  {
    assert [a][1..] == [];
  }

  lemma CreatedWithout(s: seq<Account>, i: nat, domain: string, start: int, length: int)
    requires i < |s|
    ensures CreatedWithin(s, domain, start, length)
         == CreatedWithin(Without(s, i), domain, start, length) + if InWindow(s[i], domain, start, length) then 1 else 0
  {
    assert s == s[..i] + ([s[i]] + s[i + 1..]);
    CreatedConcat(s[..i], [s[i]] + s[i + 1..], domain, start, length);
    CreatedConcat([s[i]], s[i + 1..], domain, start, length);
    CreatedConcat(s[..i], s[i + 1..], domain, start, length);
    CreatedOne(s[i], domain, start, length);
  }

  lemma {:induction false} WindowInFlight(flights: seq<Account>, domain: string, start: int, length: int)
    ensures CreatedWithin(flights, domain, start, length) <= InFlight(flights, domain)
  {
    if flights != [] {
      WindowInFlight(flights[1..], domain, start, length);
    }
  }

  ghost predicate Addresses(accounts: seq<Account>) {
    forall i :: 0 <= i < |accounts| ==> '@' in accounts[i].email
  }

  lemma {:induction false} QueryCountsAll(accounts: seq<Account>, domain: string, start: int, length: int, since: int)
    requires Addresses(accounts) && since <= start
    ensures CreatedWithin(accounts, domain, start, length) <= CountSince(accounts, domain, since)
  {
    if accounts != [] {
      QueryCountsAll(accounts[1..], domain, start, length, since);
      PatternCoversDomain(accounts[0].email);
    }
  }

  function Bound(c: Config, l: Limits, domain: string): int {
    Cap(c, domain) - 1 + l.inFlight
  }

  /** Stored or about to be stored with a time in the window. */
  function Due(s: System, domain: string, start: int, length: int): nat {
    CreatedWithin(s.accounts, domain, start, length) + CreatedWithin(s.flights, domain, start, length)
  }

  /** The same over an hour less the latency, from start on. */
  function DueFrom(l: Limits, s: System, domain: string, start: int): nat {
    Due(s, domain, start, HOUR - l.latency)
  }

  ghost predicate WithinBounds(c: Config, l: Limits, s: System) {
    && Addresses(s.accounts) && Addresses(s.flights)
    && forall domain: string, start: int :: DueFrom(l, s, domain, start) <= Bound(c, l, domain)
  }

  /** The last check that adds to a window sees everything already stored in it. */
  lemma PassKeepsBound(c: Config, l: Limits, s: System, t: System, a: Account, domain: string, start: int)
    requires Enforced(c) && WithinBounds(c, l, s) && Passes(c, l, s, t, a)
    ensures DueFrom(l, t, domain, start) <= Bound(c, l, domain)
  {
    var length := HOUR - l.latency;
    assert DueFrom(l, s, domain, start) <= Bound(c, l, domain);
    CreatedConcat(s.flights, [a], domain, start, length);
    CreatedOne(a, domain, start, length);
    if InWindow(a, domain, start, length) {
      QueryCountsAll(s.accounts, domain, start, length, s.now - HOUR);
      WindowInFlight(t.flights, domain, start, length);
    }
  }

  /** Storing moves an account of the window from one count to the other. */
  lemma StoreKeepsDue(s: System, t: System, i: nat, domain: string, start: int, length: int)
    requires Stores(s, t, i)
    ensures Due(t, domain, start, length) == Due(s, domain, start, length)
  {
    CreatedWithout(s.flights, i, domain, start, length);
    CreatedConcat(s.accounts, [s.flights[i]], domain, start, length);
    CreatedOne(s.flights[i], domain, start, length);
  }

  lemma StepKeepsBounds(c: Config, l: Limits, s: System, t: System)
    requires Enforced(c) && WithinBounds(c, l, s) && Step(c, l, s, t)
    ensures WithinBounds(c, l, t)
  {
    forall domain: string, start: int ensures DueFrom(l, t, domain, start) <= Bound(c, l, domain) {
      assert DueFrom(l, s, domain, start) <= Bound(c, l, domain);
      if a :| Passes(c, l, s, t, a) {
        PassKeepsBound(c, l, s, t, a, domain, start);
      } else if i :| Stores(s, t, i) {
        StoreKeepsDue(s, t, i, domain, start, HOUR - l.latency);
      } else if i :| Fails(s, t, i) {
        CreatedWithout(s.flights, i, domain, start, HOUR - l.latency);
      }
    }
  }

  /** Over any run, any stretch of an hour less the check latency holds at most the cap, less one, plus
      the signups that may be between check and store at once. */
  lemma {:induction false} CapPlusFlights(c: Config, l: Limits, trace: seq<System>, n: nat)
    requires Enforced(c) && Run(c, l, trace) && n < |trace|
    ensures WithinBounds(c, l, trace[n])
  {
    if n > 0 {
      CapPlusFlights(c, l, trace, n - 1);
      StepKeepsBounds(c, l, trace[n - 1], trace[n]);
    }
  }

  predicate IsLargeProvider(domain: string) {
    || domain == "gmail.com" || domain == "googlemail.com" || domain == "outlook.com" || domain == "hotmail.com"
    || domain == "live.com" || domain == "yahoo.com" || domain == "icloud.com" || domain == "me.com"
    || domain == "proton.me" || domain == "protonmail.com" || domain == "fastmail.com" || domain == "gmx.com"
    || domain == "aol.com"
  }

  /** In numbers: less than twenty times the setting for a large provider and less than the setting for any
      other domain, plus the signups that may be between check and store at once. */
  lemma CapInNumbers(c: Config, l: Limits, trace: seq<System>, n: nat, domain: string, start: int)
    requires Enforced(c) && Run(c, l, trace) && n < |trace|
    ensures var stored := CreatedWithin(trace[n].accounts, domain, start, 3_600_000_000 - l.latency);
            && (IsLargeProvider(domain) ==> stored < 20 * c.perDomainPerHour + l.inFlight)
            && (!IsLargeProvider(domain) ==> stored < c.perDomainPerHour + l.inFlight)
  {
    CapPlusFlights(c, l, trace, n);
    assert DueFrom(l, trace[n], domain, start) <= Bound(c, l, domain);
  }

  /** With one signup at a time whose check falls in the instant its transaction began, a signup passes
      exactly when verification or the cap is off or the domain has fewer accounts of the last hour. */
  lemma AllowedExactly(c: Config, accounts: seq<Account>, local: string, domain: string, now: int)
    requires Plain(domain) && Lower(domain) == domain
    requires forall i :: 0 <= i < |accounts| ==> '@' in accounts[i].email && accounts[i].createdAt <= now
    ensures Allowed(c, accounts, local + ("@" + domain), now)
       <==> || !c.verificationRequired || c.perDomainPerHour <= 0
            || CreatedWithin(accounts, domain, now - 3_600_000_000, 3_600_000_000)
               < if IsLargeProvider(domain) then 20 * c.perDomainPerHour else c.perDomainPerHour
  {
    MailParts(local, domain);
    QueryCountsExactly(accounts, domain, now - HOUR, now);
  }

  // ------------------------------------------------------------------ runs that reach the bound

  function Repeat(n: nat): (s: string)
    ensures |s| == n && '@' !in s
  {
    if n == 0 then "" else "a" + Repeat(n - 1)
  }

  /** The i-th of many different addresses of a domain. */
  function Address(i: nat, domain: string): string {
    Repeat(i) + ("@" + domain)
  }

  predicate IsDomain(domain: string) {
    '@' !in domain && Lower(domain) == domain
  }

  lemma DomainOfAddress(i: nat, domain: string)
    requires IsDomain(domain)
    ensures '@' in Address(i, domain) && Domain(Address(i, domain)) == domain
  {
    MailParts(Repeat(i), domain);
  }

  lemma {:induction false} CountConcat(x: seq<Account>, y: seq<Account>, domain: string, since: int)
    ensures CountSince(x + y, domain, since) == CountSince(x, domain, since) + CountSince(y, domain, since)
  {
    if x == [] {
      assert x + y == y;
    } else {
      CountConcat(x[1..], y, domain, since);
      assert (x + y)[1..] == x[1..] + y;
    }
  }

  lemma CountOne(a: Account, domain: string, since: int)
    ensures CountSince([a], domain, since) <= 1
    ensures a.createdAt < since ==> CountSince([a], domain, since) == 0
  {
    assert [a][1..] == [];
  }

  lemma {:induction false} InFlightAppend(flights: seq<Account>, a: Account, domain: string)
    ensures InFlight(flights + [a], domain) == InFlight(flights, domain) + if Domain(a.email) == domain then 1 else 0
  {
    if flights == [] {
      assert flights + [a] == [a];
    } else {
      InFlightAppend(flights[1..], a, domain);
      assert (flights + [a])[1..] == flights[1..] + [a];
    }
  }

  function Last(trace: seq<System>): System
    requires trace != []
  {
    trace[|trace| - 1]
  }

  lemma RunOn(c: Config, l: Limits, trace: seq<System>, next: System) returns (longer: seq<System>)
    requires Run(c, l, trace) && Step(c, l, Last(trace), next)
    ensures Run(c, l, longer) && Last(longer) == next
  {
    longer := trace + [next];
    forall n | 0 <= n < |longer| - 1 ensures Step(c, l, longer[n], longer[n + 1]) {
      assert longer[n] == trace[n];
      assert longer[n + 1] == if n + 1 < |trace| then trace[n + 1] else next;
    }
  }

  /** One more signup of the domain passes its check. */
  lemma PassOne(c: Config, l: Limits, trace: seq<System>, domain: string, at: int, k: nat)
    returns (longer: seq<System>, a: Account)
    requires Run(c, l, trace) && IsDomain(domain) && Last(trace).now - l.latency <= at <= Last(trace).now
    requires CountSince(Last(trace).accounts, domain, Last(trace).now - HOUR) < Cap(c, domain)
    requires InFlight(Last(trace).flights, domain) < l.inFlight
    ensures Run(c, l, longer) && a == Account(Address(k, domain), at) && Domain(a.email) == domain
    ensures Last(longer) == Last(trace).(flights := Last(trace).flights + [a])
    ensures InFlight(Last(longer).flights, domain) == InFlight(Last(trace).flights, domain) + 1
  {
    var s := Last(trace);
    a := Account(Address(k, domain), at);
    DomainOfAddress(k, domain);
    InFlightAppend(s.flights, a, domain);
    var t := s.(flights := s.flights + [a]);
    assert Passes(c, l, s, t, a);
    longer := RunOn(c, l, trace, t);
  }

  /** The oldest flight is stored. */
  lemma StoreFirst(c: Config, l: Limits, trace: seq<System>) returns (longer: seq<System>)
    requires Run(c, l, trace) && Last(trace).flights != []
    ensures Run(c, l, longer)
    ensures var s := Last(trace); Last(longer) == System(s.now, s.accounts + [s.flights[0]], s.flights[1..])
  {
    var s := Last(trace);
    var t := System(s.now, s.accounts + [s.flights[0]], s.flights[1..]);
    assert Without(s.flights, 0) == s.flights[1..];
    assert Stores(s, t, 0);
    longer := RunOn(c, l, trace, t);
  }

  /** k signups, each stored before the next is checked. */
  lemma {:induction false} Fill(c: Config, l: Limits, trace: seq<System>, domain: string, at: int, k: nat)
    returns (longer: seq<System>)
    requires Run(c, l, trace) && IsDomain(domain) && l.inFlight >= 1 && Last(trace).flights == []
    requires Last(trace).now - l.latency <= at <= Last(trace).now
    requires CountSince(Last(trace).accounts, domain, Last(trace).now - HOUR) + k <= Cap(c, domain)
    ensures Run(c, l, longer) && Last(longer).flights == [] && Last(longer).now == Last(trace).now
    ensures CountSince(Last(longer).accounts, domain, Last(trace).now - HOUR)
         <= CountSince(Last(trace).accounts, domain, Last(trace).now - HOUR) + k
    ensures forall since :: at < since ==>
              CountSince(Last(longer).accounts, domain, since) == CountSince(Last(trace).accounts, domain, since)
    ensures forall start, length :: start <= at <= start + length ==>
              CreatedWithin(Last(longer).accounts, domain, start, length)
              == CreatedWithin(Last(trace).accounts, domain, start, length) + k
    decreases k
  {
    longer := trace;
    if k > 0 {
      var accounts := Last(trace).accounts;
      var a;
      longer, a := PassOne(c, l, trace, domain, at, |accounts|);
      longer := StoreFirst(c, l, longer);
      Stored(accounts, a, domain);
      longer := Fill(c, l, longer, domain, at, k - 1);
    }
  }

  lemma Stored(accounts: seq<Account>, a: Account, domain: string)
    requires Domain(a.email) == domain
    ensures forall since :: CountSince(accounts + [a], domain, since) <= CountSince(accounts, domain, since) + 1
    ensures forall since :: a.createdAt < since ==>
              CountSince(accounts + [a], domain, since) == CountSince(accounts, domain, since)
    ensures forall start, length :: start <= a.createdAt <= start + length ==>
              CreatedWithin(accounts + [a], domain, start, length) == CreatedWithin(accounts, domain, start, length) + 1
  {
    forall since
      ensures CountSince(accounts + [a], domain, since) <= CountSince(accounts, domain, since) + 1
      ensures a.createdAt < since ==> CountSince(accounts + [a], domain, since) == CountSince(accounts, domain, since)
    {
      CountConcat(accounts, [a], domain, since);
      CountOne(a, domain, since);
    }
    forall start, length | start <= a.createdAt <= start + length
      ensures CreatedWithin(accounts + [a], domain, start, length) == CreatedWithin(accounts, domain, start, length) + 1
    {
      CreatedConcat(accounts, [a], domain, start, length);
      CreatedOne(a, domain, start, length);
    }
  }

  /** k signups pass their checks before any of them is stored. */
  lemma {:induction false} PassMany(c: Config, l: Limits, trace: seq<System>, domain: string, at: int, k: nat)
    returns (longer: seq<System>)
    requires Run(c, l, trace) && IsDomain(domain) && at == Last(trace).now
    requires CountSince(Last(trace).accounts, domain, at - HOUR) < Cap(c, domain)
    requires InFlight(Last(trace).flights, domain) + k <= l.inFlight
    ensures Run(c, l, longer) && Last(longer) == Last(trace).(flights := Last(longer).flights)
    ensures CreatedWithin(Last(longer).flights, domain, at, 0) == CreatedWithin(Last(trace).flights, domain, at, 0) + k
    decreases k
  {
    longer := trace;
    if k > 0 {
      var flights := Last(trace).flights;
      var a;
      longer, a := PassOne(c, l, trace, domain, at, |Last(trace).accounts| + |flights|);
      CreatedConcat(flights, [a], domain, at, 0);
      CreatedOne(a, domain, at, 0);
      longer := PassMany(c, l, longer, domain, at, k - 1);
    }
  }

  lemma {:induction false} StoreAll(c: Config, l: Limits, trace: seq<System>, domain: string, start: int, length: int)
    returns (longer: seq<System>)
    requires Run(c, l, trace)
    ensures Run(c, l, longer)
    ensures CreatedWithin(Last(longer).accounts, domain, start, length) == Due(Last(trace), domain, start, length)
    decreases |Last(trace).flights|
  {
    longer := trace;
    if Last(trace).flights != [] {
      longer := StoreFirst(c, l, trace);
      assert Without(Last(trace).flights, 0) == Last(trace).flights[1..];
      StoreKeepsDue(Last(trace), Last(longer), 0, domain, start, length);
      longer := StoreAll(c, l, longer, domain, start, length);
    }
  }

  /** For every cap and every number of simultaneous signups some run reaches the bound, in one instant. */
  lemma BoundIsReached(c: Config, l: Limits, domain: string) returns (trace: seq<System>)
    requires Enforced(c) && l.inFlight >= 1 && IsDomain(domain)
    ensures Run(c, l, trace) && CreatedWithin(Last(trace).accounts, domain, 0, 0) == Bound(c, l, domain)
  {
    trace := Fill(c, l, [System(0, [], [])], domain, 0, Cap(c, domain) - 1);
    trace := PassMany(c, l, trace, domain, 0, l.inFlight);
    trace := StoreAll(c, l, trace, domain, 0, 0);
  }

  /** A check that comes after its transaction began looks back less than an hour from the stored
      time: an hour can then hold twice the cap, with never more than one signup at a time. */
  lemma LateChecksDouble(c: Config, l: Limits, domain: string) returns (trace: seq<System>)
    requires Enforced(c) && l.inFlight >= 1 && l.latency >= 1 && IsDomain(domain)
    ensures Run(c, l, trace) && CreatedWithin(Last(trace).accounts, domain, 0, HOUR) == 2 * Cap(c, domain)
  {
    trace := Fill(c, l, [System(0, [], [])], domain, 0, Cap(c, domain));
    trace := RunOn(c, l, trace, Last(trace).(now := HOUR + 1));
    trace := Fill(c, l, trace, domain, HOUR, Cap(c, domain));
  }

  /** No run with these limits ever has more than the cap of one domain in any hour. */
  ghost predicate HourCapHolds(c: Config, l: Limits) {
    forall trace: seq<System>, n: nat, domain: string, start: int :: Run(c, l, trace) && n < |trace| ==>
      CreatedWithin(trace[n].accounts, domain, start, HOUR) <= Cap(c, domain)
  }

  /** The documented hourly cap holds exactly when signups come one at a time and every check falls in
      the instant its transaction began. */
  lemma HourCapExactly(c: Config, l: Limits)
    requires Enforced(c)
    ensures HourCapHolds(c, l) <==> l.inFlight == 0 || (l.inFlight == 1 && l.latency == 0)
  {
    if l.inFlight >= 2 {
      var trace := BoundIsReached(c, l, "b.c");
      WiderWindow(Last(trace).accounts, "b.c", 0);
      assert CreatedWithin(trace[|trace| - 1].accounts, "b.c", 0, HOUR) > Cap(c, "b.c");
    } else if l.inFlight == 1 && l.latency >= 1 {
      var trace := LateChecksDouble(c, l, "b.c");
      assert CreatedWithin(trace[|trace| - 1].accounts, "b.c", 0, HOUR) > Cap(c, "b.c");
    } else {
      forall trace: seq<System>, n: nat, domain: string, start: int | Run(c, l, trace) && n < |trace|
        ensures CreatedWithin(trace[n].accounts, domain, start, HOUR) <= Cap(c, domain)
      {
        if l.inFlight == 0 {
          NothingPasses(c, l, trace, n);
        } else {
          CapPlusFlights(c, l, trace, n);
          assert DueFrom(l, trace[n], domain, start) <= Bound(c, l, domain);
        }
      }
    }
  }

  lemma {:induction false} WiderWindow(accounts: seq<Account>, domain: string, start: int)
    ensures CreatedWithin(accounts, domain, start, 0) <= CreatedWithin(accounts, domain, start, HOUR)
  {
    if accounts != [] {
      WiderWindow(accounts[1..], domain, start);
    }
  }

  lemma {:induction false} NothingPasses(c: Config, l: Limits, trace: seq<System>, n: nat)
    requires Run(c, l, trace) && n < |trace| && l.inFlight == 0
    ensures trace[n].accounts == [] && trace[n].flights == []
  {
    if n > 0 {
      NothingPasses(c, l, trace, n - 1);
      var s, t := trace[n - 1], trace[n];
      assert Step(c, l, s, t);
      if a :| Passes(c, l, s, t, a) {
        InFlightAppend(s.flights, a, Domain(a.email));
      }
    }
  }
}
