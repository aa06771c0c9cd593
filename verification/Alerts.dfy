/** Operator alerts: the hash of active alerts and what every evaluation sends and resolves.
    Times are whole seconds after the epoch. */
module Alerts {
  import opened StableSort

  /** The value kept for an active alert: "first,last". */
  datatype Entry = Entry(first: int, last: int)

  datatype Settings = Settings(repeat: int, configured: bool)

  /** One evaluation: when, what fires, and for which alerts a notification would get through. */
  datatype Round = Round(now: int, firing: set<string>, delivered: set<string>)

  type Active = map<string, Entry>

  /** The alert is due: new, or its last notification is at least the repeat interval ago. */
  predicate Due(s: Settings, active: Active, key: string, now: int) {
    key !in active || active[key].last == 0 || now - active[key].last >= s.repeat
  }

  predicate Sends(s: Settings, active: Active, r: Round, key: string) {
    key in r.firing && Due(s, active, key, r.now) && (key in r.delivered || !s.configured)
  }

  predicate Resolves(active: Active, r: Round, key: string) {
    key in active && key !in r.firing
  }

  function EntryAfter(active: Active, key: string, now: int): Entry {
    Entry(if key in active then active[key].first else now, now)
  }

  /** The hash after one evaluation. */
  function Next(s: Settings, active: Active, r: Round): (next: Active)
    ensures next.Keys <= r.firing
  {
    map key | key in r.firing && (key in active || Sends(s, active, r, key))
      :: if Sends(s, active, r, key) then EntryAfter(active, key, r.now) else active[key]
  }

  /** after is before with a fresh entry for every key of sent. */
  ghost predicate Stamped(before: Active, after: Active, sent: seq<string>, now: int) {
    && (forall key :: key in after <==> key in before || key in sent)
    && (forall key :: key in after ==> after[key] == if key in sent then EntryAfter(before, key, now) else before[key])
  }

  /** Redis and the alert task. */
  class AlertTask {
    var active: Active

    constructor ()
      ensures active == map[]
    {
      active := map[];
    }

    /** One run; firing lists the alerts of this evaluation, stale the keys of the hash in any order. */
    method Run(s: Settings, r: Round, firing: seq<string>, stale: seq<string>)
      returns (sent: seq<string>, resolved: seq<string>)
      requires Distinct(firing) && (forall key :: key in firing <==> key in r.firing)
      requires Distinct(stale) && (forall key :: key in stale <==> key in active)
      modifies this
      ensures active == Next(s, old(active), r)
      ensures Distinct(sent) && forall key :: key in sent <==> Sends(s, old(active), r, key)
      ensures Distinct(resolved) && forall key :: key in resolved <==> Resolves(old(active), r, key)
    {
      sent := Notify(s, r, firing);
      resolved := Resolve(r, stale);
    }

    /** New and repeating alerts. */
    method Notify(s: Settings, r: Round, firing: seq<string>) returns (sent: seq<string>)
      requires Distinct(firing) && (forall key :: key in firing <==> key in r.firing)
      modifies this
      ensures Distinct(sent) && forall key :: key in sent <==> Sends(s, old(active), r, key)
      ensures Stamped(old(active), active, sent, r.now)
    {
      var before := active;
      sent := [];
      for k := 0 to |firing|
        invariant Distinct(sent) && forall key :: key in sent <==> key in firing[..k] && Sends(s, before, r, key)
        invariant Stamped(before, active, sent, r.now)
      {
        var key := firing[k];
        assert firing[..k + 1] == firing[..k] + [key];
        assert key !in firing[..k];
        var entry := if key in before then before[key] else Entry(r.now, 0);
        if !(entry.last != 0 && r.now - entry.last < s.repeat) {
          if key in r.delivered || !s.configured {
            active := active[key := Entry(entry.first, r.now)];
            sent := sent + [key];
          }
        }
      }
      assert firing[..|firing|] == firing;
    }

    /** Alerts that no longer fire. */
    method Resolve(r: Round, stale: seq<string>) returns (resolved: seq<string>)
      requires Distinct(stale)
      modifies this
      ensures Distinct(resolved) && forall key :: key in resolved <==> key in stale && key !in r.firing
      ensures forall key :: key in active <==> key in old(active) && key !in resolved
      ensures forall key :: key in active ==> active[key] == old(active)[key]
    {
      resolved := [];
      for k := 0 to |stale|
        invariant Distinct(resolved) && forall key :: key in resolved <==> key in stale[..k] && key !in r.firing
        invariant forall key :: key in active <==> key in old(active) && key !in resolved
        invariant forall key :: key in active ==> active[key] == old(active)[key]
      {
        var key := stale[k];
        assert stale[..k + 1] == stale[..k] + [key];
        assert key !in stale[..k];
        if key !in r.firing {
          active := active - {key};
          resolved := resolved + [key];
        }
      }
      assert stale[..|stale|] == stale;
    }
  }

  // ------------------------------------------------------------------ whole runs

  /** What one alert key goes through: a notification, or the note that it is over. */
  datatype Mark = Sent(at: int) | Resolved(at: int)

  function After(s: Settings, rounds: seq<Round>, n: nat): Active
    requires n <= |rounds|
  {
    if n == 0 then map[] else Next(s, After(s, rounds, n - 1), rounds[n - 1])
  }

  function MarkOf(s: Settings, active: Active, r: Round, key: string): seq<Mark> {
    if Sends(s, active, r, key) then [Sent(r.now)] else if Resolves(active, r, key) then [Resolved(r.now)] else []
  }

  function Trace(s: Settings, rounds: seq<Round>, key: string, n: nat): seq<Mark>
    requires n <= |rounds|
  {
    if n == 0 then [] else Trace(s, rounds, key, n - 1) + MarkOf(s, After(s, rounds, n - 1), rounds[n - 1], key)
  }

  ghost predicate GrowingTime(rounds: seq<Round>) {
    && (forall i :: 0 <= i < |rounds| ==> rounds[i].now > 0)
    && (forall i, j :: 0 <= i <= j < |rounds| ==> rounds[i].now <= rounds[j].now)
  }

  /** A word of (sent+ resolved)*, the last episode possibly still open. */
  ghost predicate Episodes(trace: seq<Mark>) {
    forall i :: 0 <= i < |trace| && trace[i].Resolved? ==> i > 0 && trace[i - 1].Sent?
  }

  /** Within an episode, notifications keep the repeat interval. */
  ghost predicate Spaced(trace: seq<Mark>, repeat: int) {
    forall i :: 0 < i < |trace| && trace[i].Sent? && trace[i - 1].Sent? ==> trace[i].at - trace[i - 1].at >= repeat
  }

  predicate OpenEpisode(trace: seq<Mark>) {
    trace != [] && trace[|trace| - 1].Sent?
  }

  /** The time of the first notification of the episode that is still open. */
  function EpisodeStart(trace: seq<Mark>): int
    requires OpenEpisode(trace)
  {
    var n := |trace| - 1;
    if OpenEpisode(trace[..n]) then EpisodeStart(trace[..n]) else trace[n].at
  }

  ghost predicate ShapeOk(s: Settings, trace: seq<Mark>, now: int) {
    && Episodes(trace) && Spaced(trace, s.repeat)
    && (forall i :: 0 <= i < |trace| ==> 0 < trace[i].at <= now)
  }

  /** The hash holds the key exactly during an episode, with its first and last notification. */
  predicate HashOk(trace: seq<Mark>, active: Active, key: string) {
    && (key in active <==> OpenEpisode(trace))
    && (key in active ==> active[key] == Entry(EpisodeStart(trace), trace[|trace| - 1].at))
  }

  ghost predicate TraceOk(s: Settings, trace: seq<Mark>, active: Active, key: string, now: int) {
    ShapeOk(s, trace, now) && HashOk(trace, active, key)
  }

  lemma RoundKeepsShape(s: Settings, trace: seq<Mark>, active: Active, key: string, before: int, r: Round)
    requires TraceOk(s, trace, active, key, before) && before <= r.now && r.now > 0
    ensures ShapeOk(s, trace + MarkOf(s, active, r, key), r.now)
  {
    if Sends(s, active, r, key) && key in active {
      assert active[key].last == trace[|trace| - 1].at != 0;
    }
  }

  lemma StartAfterSend(trace: seq<Mark>, at: int)
    ensures OpenEpisode(trace + [Sent(at)])
    ensures EpisodeStart(trace + [Sent(at)]) == if OpenEpisode(trace) then EpisodeStart(trace) else at
  {
    var longer := trace + [Sent(at)];
    assert longer[..|longer| - 1] == trace;
  }

  lemma RoundKeepsHash(s: Settings, trace: seq<Mark>, active: Active, key: string, r: Round)
    requires HashOk(trace, active, key)
    ensures HashOk(trace + MarkOf(s, active, r, key), Next(s, active, r), key)
  {
    if Sends(s, active, r, key) {
      StartAfterSend(trace, r.now);
      assert Next(s, active, r)[key] == EntryAfter(active, key, r.now);
    } else if !Resolves(active, r, key) {
      assert trace + MarkOf(s, active, r, key) == trace;
    }
  }

  lemma RoundKeepsTrace(s: Settings, trace: seq<Mark>, active: Active, key: string, before: int, r: Round)
    requires TraceOk(s, trace, active, key, before) && before <= r.now && r.now > 0
    ensures TraceOk(s, trace + MarkOf(s, active, r, key), Next(s, active, r), key, r.now)
  {
    RoundKeepsShape(s, trace, active, key, before, r);
    RoundKeepsHash(s, trace, active, key, r);
  }

  /** Over any run with growing time and any notification failures, the trace of every key is
      a word of (sent+ resolved)*; notifications of one episode are at least the repeat interval
      apart; the hash holds exactly the keys in an open episode, with the times of the episode's
      first and last notification; and all of them fire. */
  lemma {:induction false} EveryRun(s: Settings, rounds: seq<Round>, key: string, n: nat)
    requires GrowingTime(rounds) && n <= |rounds|
    ensures TraceOk(s, Trace(s, rounds, key, n), After(s, rounds, n), key, if n == 0 then 1 else rounds[n - 1].now)
    ensures n > 0 ==> After(s, rounds, n).Keys <= rounds[n - 1].firing
  {
    if n > 0 {
      EveryRun(s, rounds, key, n - 1);
      var before := if n == 1 then 1 else rounds[n - 2].now;
      RoundKeepsTrace(s, Trace(s, rounds, key, n - 1), After(s, rounds, n - 1), key, before, rounds[n - 1]);
    }
  }

  /** What one round adds to the trace of a key, said by the trace alone: a notification when the key
      fires, would get through, and is new or was last sent at least the repeat interval ago; the note
      that it is over when it no longer fires in an open episode; nothing otherwise. */
  lemma EveryMark(s: Settings, rounds: seq<Round>, key: string, n: nat)
    requires GrowingTime(rounds) && n < |rounds|
    ensures var past, r := Trace(s, rounds, key, n), rounds[n];
            Trace(s, rounds, key, n + 1) == past +
              if key in r.firing then
                if (past == [] || past[|past| - 1].Resolved? || r.now >= past[|past| - 1].at + s.repeat)
                   && (s.configured ==> key in r.delivered)
                then [Sent(r.now)] else []
              else if past != [] && past[|past| - 1].Sent? then [Resolved(r.now)] else []
  {
    EveryRun(s, rounds, key, n);
  }

  /** The notification of round m is the last mark of the key up to round n. */
  ghost predicate LastSent(s: Settings, rounds: seq<Round>, key: string, m: nat, n: nat)
    requires m < |rounds| && n <= |rounds|
  {
    var trace := Trace(s, rounds, key, n);
    trace != [] && trace[|trace| - 1] == Sent(rounds[m].now)
  }

  lemma QuietRound(s: Settings, rounds: seq<Round>, key: string, m: nat, n: nat)
    requires GrowingTime(rounds) && m < n < |rounds| && LastSent(s, rounds, key, m, n)
    requires key in rounds[n].firing && rounds[n].now < rounds[m].now + s.repeat
    ensures Trace(s, rounds, key, n + 1) == Trace(s, rounds, key, n)
  {
    EveryMark(s, rounds, key, n);
  }

  ghost predicate Early(s: Settings, rounds: seq<Round>, key: string, m: nat, k: nat)
    requires m < |rounds| && k < |rounds|
  {
    key in rounds[k].firing && rounds[k].now < rounds[m].now + s.repeat
  }

  lemma SilentNext(s: Settings, rounds: seq<Round>, key: string, m: nat, n: nat, past: seq<Mark>)
    requires GrowingTime(rounds) && m < n < |rounds| && Early(s, rounds, key, m, n)
    requires past != [] && past[|past| - 1] == Sent(rounds[m].now) && Trace(s, rounds, key, n) == past
    ensures Trace(s, rounds, key, n + 1) == past
  {
    QuietRound(s, rounds, key, m, n);
  }

  /** An alert that keeps firing is silent until the repeat interval is over, however many rounds lie
      between. */
  lemma {:induction false} Silent(s: Settings, rounds: seq<Round>, key: string, m: nat, n: nat, past: seq<Mark>)
    requires GrowingTime(rounds) && m < n < |rounds|
    requires past != [] && past[|past| - 1] == Sent(rounds[m].now) && Trace(s, rounds, key, m + 1) == past
    requires forall k :: m < k < n ==> Early(s, rounds, key, m, k)
    ensures Trace(s, rounds, key, n) == past
    decreases n
  {
    if m + 1 < n {
      Silent(s, rounds, key, m, n - 1, past);
      assert Early(s, rounds, key, m, n - 1);
      SilentNext(s, rounds, key, m, n - 1, past);
    }
  }

  /** The first round after that in which it gets through sends it again. */
  lemma SentAgain(s: Settings, rounds: seq<Round>, key: string, m: nat, n: nat)
    requires GrowingTime(rounds) && m < n < |rounds| && LastSent(s, rounds, key, m, m + 1)
    requires forall k :: m < k < n ==> Early(s, rounds, key, m, k)
    requires key in rounds[n].firing && rounds[n].now >= rounds[m].now + s.repeat
    requires s.configured ==> key in rounds[n].delivered
    ensures Trace(s, rounds, key, n + 1) == Trace(s, rounds, key, m + 1) + [Sent(rounds[n].now)]
  {
    var past := Trace(s, rounds, key, m + 1);
    Silent(s, rounds, key, m, n, past);
    assert past != [] && past[|past| - 1] == Sent(rounds[m].now);
    EveryMark(s, rounds, key, n);
  }

  /** While an alert stays active its first time does not move. */
  lemma FirstIsFixed(s: Settings, active: Active, r: Round, key: string)
    requires key in active && key in Next(s, active, r)
    ensures Next(s, active, r)[key].first == active[key].first
  {
  }

  /** key has been firing in every round from m up to n, and not in the one before m. */
  ghost predicate Streak(rounds: seq<Round>, key: string, m: nat, n: nat) {
    && m < n <= |rounds|
    && (m > 0 ==> key !in rounds[m - 1].firing)
    && forall k :: m <= k < n ==> key in rounds[k].firing
  }

  predicate GetsThrough(s: Settings, r: Round, key: string) {
    key in r.delivered || !s.configured
  }

  /** The first round of m .. n in which a notification of key would get through; n when there is none. */
  function FirstThrough(s: Settings, rounds: seq<Round>, key: string, m: nat, n: nat): (k: nat)
    requires m <= n <= |rounds|
    ensures m <= k <= n && (k < n ==> GetsThrough(s, rounds[k], key))
    ensures forall l :: m <= l < k ==> !GetsThrough(s, rounds[l], key)
    decreases n - m
  {
    if m == n || GetsThrough(s, rounds[m], key) then m else FirstThrough(s, rounds, key, m + 1, n)
  }

  lemma {:induction false} StreakEntry(s: Settings, rounds: seq<Round>, key: string, m: nat, n: nat, k: nat)
    requires Streak(rounds, key, m, n) && m <= k <= n
    ensures var through := FirstThrough(s, rounds, key, m, n);
            && (key in After(s, rounds, k) <==> through < k)
            && (through < k ==> After(s, rounds, k)[key].first == rounds[through].now)
  {
    if k == m {
      assert m > 0 ==> After(s, rounds, m).Keys <= rounds[m - 1].firing;
    } else {
      StreakEntry(s, rounds, key, m, n, k - 1);
    }
  }

  /** What the stored first time is: during a streak that began at round m the alert is stored from
      the first round whose notification gets through, with that round's time. So, when time grows
      strictly, it is the time the alert was first seen exactly when the very first notification
      gets through. */
  lemma FirstSeenExactly(s: Settings, rounds: seq<Round>, key: string, m: nat, n: nat)
    requires Streak(rounds, key, m, n) && forall i, j :: 0 <= i < j < |rounds| ==> rounds[i].now < rounds[j].now
    ensures key in After(s, rounds, n) <==> exists k :: m <= k < n && GetsThrough(s, rounds[k], key)
    ensures key in After(s, rounds, n) ==>
              After(s, rounds, n)[key].first == rounds[FirstThrough(s, rounds, key, m, n)].now
    ensures key in After(s, rounds, n) ==>
              (After(s, rounds, n)[key].first == rounds[m].now <==> key in rounds[m].delivered || !s.configured)
  {
    StreakEntry(s, rounds, key, m, n, n);
  }

  /** An alert seen at 100 whose first notification gets through at 700. */
  lemma FirstMayComeLate()
    ensures var rounds := [Round(100, {"disk"}, {}), Round(700, {"disk"}, {"disk"})];
            var s := Settings(3600, true);
            && Trace(s, rounds, "disk", 2) == [Sent(700)] && "disk" in After(s, rounds, 2)
            && After(s, rounds, 2)["disk"].first == 700
  {
    var rounds, s := [Round(100, {"disk"}, {}), Round(700, {"disk"}, {"disk"})], Settings(3600, true);
    assert After(s, rounds, 0) == map[] && Trace(s, rounds, "disk", 0) == [];
    assert After(s, rounds, 1) == Next(s, map[], rounds[0]);
    assert Trace(s, rounds, "disk", 1) == [] + MarkOf(s, map[], rounds[0], "disk");
    assert Trace(s, rounds, "disk", 2)
        == Trace(s, rounds, "disk", 1) + MarkOf(s, After(s, rounds, 1), rounds[1], "disk");
  }
}
