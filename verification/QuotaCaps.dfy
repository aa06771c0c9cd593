/** Which daily caps hold in every run, and runs that reach the bounds where they do not. */
module QuotaCaps {
  import opened Wrappers
  import opened Quotas

  // ------------------------------------------------------------------ where nothing strays

  /** An account whose newsletters can be refused for their volume after they were counted. */
  predicate BothCapped(a: Account) {
    !a.paused && Capped(a, Newsletters) && Capped(a, NewsletterBytes)
  }

  /** Only the newsletter count of such an account can be given back at all. */
  predicate StrayOk(a: Account, call: Call) {
    match call.phase
    case Asking(first, _) => first.Some? ==> BothCapped(a)
    case Over(first, _) => first.Some? ==> BothCapped(a)
    case Holding(first) => !a.paused && (first.Some? ==> Capped(a, Newsletters))
    case GivingBack(first) => first.Some? ==> BothCapped(a)
    case Returning(_, to) => BothCapped(a) && to.quota == Newsletters
    case Strayed(_, to) => BothCapped(a) && to.quota == Newsletters
    case _ => true
  }

  /** A take under way belongs to an account that is not paused, and to a limited quota. */
  predicate TakeOk(a: Account, call: Call) {
    (call.phase.Asking? || call.phase.Over?) ==> !a.paused && Capped(a, call.phase.charge.key.quota)
  }

  lemma AdvanceKeepsStrayOk(a: Account, day: int, c: Counters, call: Call)
    requires StrayOk(a, call) && TakeOk(a, call)
    ensures var moved := call.(phase := Advance(a, day, c, call).1);
            StrayOk(a, moved) && TakeOk(a, moved)
  {
  }

  lemma {:induction false} RunKeepsStrayOk(a: Account, trace: seq<System>, n: nat)
    requires Run(a, trace) && n < |trace|
    ensures forall i :: 0 <= i < |trace[n].calls| ==> StrayOk(a, trace[n].calls[i]) && TakeOk(a, trace[n].calls[i])
  {
    if n > 0 {
      RunKeepsStrayOk(a, trace, n - 1);
      var s, t := trace[n - 1], trace[n];
      assert Step(a, s, t);
      forall i | 0 <= i < |t.calls| ensures StrayOk(a, t.calls[i]) && TakeOk(a, t.calls[i]) {
        if i < |s.calls| && t.calls[i] != s.calls[i] {
          AdvanceKeepsStrayOk(a, s.day, s.counters, s.calls[i]);
        }
      }
    }
  }

  lemma {:induction false} NoStraysOn(calls: seq<Call>, k: Key)
    requires forall i :: 0 <= i < |calls| ==> StrayIn(calls[i].phase, k) == 0
    ensures SumOf(StrayOn(k), calls) == 0
  {
    if calls != [] {
      NoStraysOn(calls[1..], k);
    }
  }

  ghost predicate GrantsFit(a: Account, s: System, k: Key) {
    SumOf(GrantedOn(k), s.calls)
    <= if k.quota == NewsletterBytes then 1_000_000 * a.limit(k.quota) else a.limit(k.quota)
  }

  /** The daily cap of a quota, in every run, on every day, at every moment. */
  ghost predicate CapHolds(a: Account, q: Quota) {
    forall trace, n: nat, day: int :: Run(a, trace) && n < |trace| ==> GrantsFit(a, trace[n], Key(q, day))
  }

  /** Where nothing can stray onto a quota that is taken, its cap holds across midnight too. */
  lemma CapHoldsAcrossDays(a: Account, trace: seq<System>, n: nat, k: Key)
    requires Run(a, trace) && n < |trace| && Capped(a, k.quota) && k.quota != LlmSummaries
    requires k.quota != Newsletters || !BothCapped(a)
    ensures GrantsFit(a, trace[n], k)
  {
    RunKeepsStrayOk(a, trace, n);
    forall i | 0 <= i < |trace[n].calls| ensures StrayIn(trace[n].calls[i].phase, k) == 0 {
      assert StrayOk(a, trace[n].calls[i]);
    }
    NoStraysOn(trace[n].calls, k);
    GrantsWithinAllowance(a, trace, n, k);
  }

  lemma {:induction false} NothingGranted(a: Account, calls: seq<Call>, k: Key)
    requires a.paused && forall i :: 0 <= i < |calls| ==> Sane(a, calls[i])
    ensures SumOf(GrantedOn(k), calls) == 0
  {
    if calls != [] {
      NothingGranted(a, calls[1..], k);
      assert Sane(a, calls[0]);
    }
  }

  lemma PausedWithinCap(a: Account, trace: seq<System>, n: nat, k: Key)
    requires Run(a, trace) && n < |trace| && a.paused && Capped(a, k.quota)
    ensures GrantsFit(a, trace[n], k)
  {
    RunKeepsBooks(a, trace, n);
    NothingGranted(a, trace[n].calls, k);
  }

  // ------------------------------------------------------------------ building runs

  /** trace is a run that ends in s. */
  ghost predicate Ends(a: Account, trace: seq<System>, s: System) {
    Run(a, trace) && trace[|trace| - 1] == s
  }

  lemma Extend(a: Account, trace: seq<System>, s: System, t: System)
    requires Ends(a, trace, s) && Step(a, s, t)
    ensures Ends(a, trace + [t], t)
  {
    var longer := trace + [t];
    forall n | 0 <= n < |longer| - 1 ensures Step(a, longer[n], longer[n + 1]) {
      assert longer[n] == trace[n];
      assert longer[n + 1] == if n + 1 < |trace| then trace[n + 1] else t;
    }
  }

  lemma Start(a: Account, day: int)
    ensures Ends(a, [System(day, map[], [])], System(day, map[], []))
  {
  }

  lemma ArriveOn(a: Account, trace: seq<System>, s: System, r: Request) returns (longer: seq<System>)
    requires Ends(a, trace, s) && Served(r)
    ensures Ends(a, longer, Arrived(s, r))
  {
    longer := trace + [Arrived(s, r)];
    Extend(a, trace, s, Arrived(s, r));
  }

  lemma MoveOn(a: Account, trace: seq<System>, s: System, i: nat) returns (longer: seq<System>)
    requires Ends(a, trace, s) && i < |s.calls| && !Finished(s.calls[i].phase)
    ensures Ends(a, longer, Moved(a, s, i))
  {
    longer := trace + [Moved(a, s, i)];
    assert Moves(a, s, Moved(a, s, i), i);
    Extend(a, trace, s, Moved(a, s, i));
  }

  /** The last call of a system. */
  function With(day: int, c: Counters, calls: seq<Call>, r: Request, p: Phase): System {
    System(day, c, calls + [Call(r, p)])
  }

  /** The last call takes one step. */
  lemma LastMoves(a: Account, trace: seq<System>, day: int, c: Counters, calls: seq<Call>, r: Request, p: Phase)
    returns (longer: seq<System>)
    requires Ends(a, trace, With(day, c, calls, r, p)) && !Finished(p)
    ensures var next := Advance(a, day, c, Call(r, p));
            Ends(a, longer, With(day, next.0, calls, r, next.1))
  {
    var next := Advance(a, day, c, Call(r, p));
    longer := MoveOn(a, trace, With(day, c, calls, r, p), |calls|);
    assert (calls + [Call(r, p)])[|calls| := Call(r, next.1)] == calls + [Call(r, next.1)];
  }

  // ------------------------------------------------------------------ strays

  /** Nothing is counted yet on any key of this day or later. */
  ghost predicate Fresh(c: Counters, day: int) {
    forall k: Key :: k.day >= day ==> Count(c, k) == 0
  }

  /** A refused newsletter whose count, of an earlier day, is still to be given back. */
  predicate Parked(call: Call, day: int) {
    && call.phase.GivingBack? && call.phase.first.Some? && call.phase.first.value.key.quota == Newsletters
    && call.phase.first.value.key.day < day
  }

  ghost predicate AllParked(s: System, m: nat) {
    && |s.calls| == m && Fresh(s.counters, s.day)
    && forall i :: 0 <= i < |s.calls| ==> Parked(s.calls[i], s.day)
  }

  function TooBig(a: Account): Request {
    var size := Allowance(a, NewsletterBytes) + 1;
    Newsletter(if size < 0 then 0 else size)
  }

  /** A newsletter one byte larger than a day's volume is counted ... */
  lemma BigCounted(a: Account, trace: seq<System>, day: int, c: Counters, calls: seq<Call>)
    returns (longer: seq<System>, c': Counters)
    requires BothCapped(a) && Ends(a, trace, System(day, c, calls)) && Fresh(c, day)
    ensures Ends(a, longer, With(day, c', calls, TooBig(a), Holding(Some(Charge(Key(Newsletters, day), 1)))))
    ensures Fresh(c', day + 1) && Count(c', Key(NewsletterBytes, day)) == 0
  {
    var r, charge := TooBig(a), Charge(Key(Newsletters, day), 1);
    longer := ArriveOn(a, trace, System(day, c, calls), r);
    longer := LastMoves(a, longer, day, c, calls, r, Begin);
    longer := LastMoves(a, longer, day, c, calls, r, Asking(None, charge));
    c' := Incr(c, charge.key, 1);
  }

  /** ... refused for its volume, and the day ends before its count is given back. */
  lemma BigRefused(a: Account, trace: seq<System>, day: int, c: Counters, calls: seq<Call>, first: Option<Charge>)
    returns (longer: seq<System>, c': Counters)
    requires BothCapped(a) && Ends(a, trace, With(day, c, calls, TooBig(a), Holding(first)))
    requires Fresh(c, day + 1) && Count(c, Key(NewsletterBytes, day)) == 0
    ensures Ends(a, longer, With(day + 1, c', calls, TooBig(a), GivingBack(first)))
    ensures Fresh(c', day + 1)
  {
    var r := TooBig(a);
    var charge := Charge(Key(NewsletterBytes, day), r.size);
    longer := LastMoves(a, trace, day, c, calls, r, Holding(first));
    longer := LastMoves(a, longer, day, c, calls, r, Asking(first, charge));
    var counted := Incr(c, charge.key, charge.amount);
    longer := LastMoves(a, longer, day, counted, calls, r, Over(first, charge));
    c' := Incr(counted, charge.key, 0 - charge.amount);
    var s := With(day, c', calls, r, GivingBack(first));
    Extend(a, longer, s, s.(day := day + 1));
    longer := longer + [s.(day := day + 1)];
  }

  lemma ParkOne(a: Account, trace: seq<System>, s: System, m: nat) returns (longer: seq<System>, t: System)
    requires BothCapped(a) && Ends(a, trace, s) && AllParked(s, m)
    ensures Ends(a, longer, t) && AllParked(t, m + 1)
  {
    var c', c'';
    longer, c' := BigCounted(a, trace, s.day, s.counters, s.calls);
    var first := Some(Charge(Key(Newsletters, s.day), 1));
    longer, c'' := BigRefused(a, longer, s.day, c', s.calls, first);
    t := With(s.day + 1, c'', s.calls, TooBig(a), GivingBack(first));
    forall i | 0 <= i < |t.calls| ensures Parked(t.calls[i], t.day) {
      assert i < m ==> Parked(s.calls[i], s.day);
    }
  }

  lemma {:induction false} ParkMany(a: Account, n: nat) returns (trace: seq<System>, s: System)
    requires BothCapped(a)
    ensures Ends(a, trace, s) && AllParked(s, n)
  {
    if n == 0 {
      s := System(0, map[], []);
      Start(a, 0);
      trace := [s];
    } else {
      trace, s := ParkMany(a, n - 1);
      trace, s := ParkOne(a, trace, s, n - 1);
    }
  }

  /** The first i calls have strayed onto today's counter, the others are parked. */
  ghost predicate StrayedUpTo(s: System, m: nat, i: nat) {
    && i <= |s.calls| == m
    && Count(s.counters, Key(Newsletters, s.day)) == 0 - i && Count(s.counters, Key(NewsletterBytes, s.day)) == 0
    && (forall j :: 0 <= j < i ==> s.calls[j].phase.Strayed? && s.calls[j].phase.to == Key(Newsletters, s.day))
    && (forall j :: i <= j < m ==> Parked(s.calls[j], s.day))
  }

  lemma StrayOne(a: Account, trace: seq<System>, s: System, m: nat, i: nat) returns (longer: seq<System>, t: System)
    requires Ends(a, trace, s) && StrayedUpTo(s, m, i) && i < m
    ensures Ends(a, longer, t) && StrayedUpTo(t, m, i + 1)
  {
    assert Parked(s.calls[i], s.day);
    longer := MoveOn(a, trace, s, i);
    var u := Moved(a, s, i);
    longer := MoveOn(a, longer, u, i);
    t := Moved(a, u, i);
  }

  lemma {:induction false} StrayAll(a: Account, trace: seq<System>, s: System, m: nat, i: nat)
    returns (longer: seq<System>, t: System)
    requires Ends(a, trace, s) && StrayedUpTo(s, m, i)
    ensures Ends(a, longer, t) && StrayedUpTo(t, m, m)
    decreases m - i
  {
    longer, t := trace, s;
    if i < m {
      longer, t := StrayOne(a, trace, s, m, i);
      longer, t := StrayAll(a, longer, t, m, i + 1);
    }
  }

  lemma {:induction false} CountStrays(calls: seq<Call>, k: Key)
    requires forall i :: 0 <= i < |calls| ==> calls[i].phase.Strayed? && calls[i].phase.to == k
    ensures SumOf(StrayOn(k), calls) == |calls| && SumOf(GrantedOn(k), calls) == 0
  {
    if calls != [] {
      CountStrays(calls[1..], k);
    }
  }

  /** used newsletters are on today's counter; of today's, granted were granted and strays strayed. */
  ghost predicate Tally(s: System, used: int, granted: int, strays: int) {
    var k := Key(Newsletters, s.day);
    && Count(s.counters, k) == used && Count(s.counters, Key(NewsletterBytes, s.day)) == 0
    && SumOf(GrantedOn(k), s.calls) == granted && SumOf(StrayOn(k), s.calls) == strays
  }

  lemma CountOneMore(calls: seq<Call>, last: Call, k: Key)
    requires last.phase == Granted([Charge(k, 1), Charge(Key(NewsletterBytes, k.day), 0)]) && k.quota == Newsletters
    ensures SumOf(GrantedOn(k), calls + [last]) == SumOf(GrantedOn(k), calls) + 1
    ensures SumOf(StrayOn(k), calls + [last]) == SumOf(StrayOn(k), calls)
  {
    var charges := last.phase.charges;
    SumAppend(GrantedOn(k), calls, last);
    SumAppend(StrayOn(k), calls, last);
    assert charges[1..] == [charges[1]];
    ChargedOne(charges[1], k);
  }

  /** An empty newsletter that still fits is granted. */
  lemma OneMoreGranted(a: Account, trace: seq<System>, s: System, used: int, granted: int, strays: int)
    returns (longer: seq<System>, t: System)
    requires BothCapped(a) && Ends(a, trace, s) && Tally(s, used, granted, strays) && used < Allowance(a, Newsletters)
    ensures Ends(a, longer, t) && Tally(t, used + 1, granted + 1, strays)
  {
    var r, k := Newsletter(0), Key(Newsletters, s.day);
    var count, volume := Charge(k, 1), Charge(Key(NewsletterBytes, s.day), 0);
    longer := ArriveOn(a, trace, s, r);
    longer := LastMoves(a, longer, s.day, s.counters, s.calls, r, Begin);
    longer := LastMoves(a, longer, s.day, s.counters, s.calls, r, Asking(None, count));
    var c := Incr(s.counters, k, 1);
    longer := LastMoves(a, longer, s.day, c, s.calls, r, Holding(Some(count)));
    longer := LastMoves(a, longer, s.day, c, s.calls, r, Asking(Some(count), volume));
    assert ChargesOf(Some(count)) + [volume] == [count, volume];
    t := With(s.day, Incr(c, volume.key, 0), s.calls, r, Granted([count, volume]));
    CountOneMore(s.calls, Call(r, Granted([count, volume])), k);
  }

  lemma {:induction false} ManyGranted(a: Account, trace: seq<System>, s: System, used: int, granted: int,
                                       strays: int, more: nat)
    returns (longer: seq<System>, t: System)
    requires BothCapped(a) && Ends(a, trace, s) && Tally(s, used, granted, strays)
    requires used + more <= Allowance(a, Newsletters)
    ensures Ends(a, longer, t) && Tally(t, used + more, granted + more, strays)
    decreases more
  {
    longer, t := trace, s;
    if more > 0 {
      longer, t := OneMoreGranted(a, trace, s, used, granted, strays);
      longer, t := ManyGranted(a, longer, t, used + 1, granted + 1, strays, more - 1);
    }
  }

  /** The bound of GrantsWithinAllowance is reached for every such account and every number of strays: each
      newsletter refused for its volume just before a midnight lets a later day grant one more. */
  lemma StraysReachBound(a: Account, n: nat) returns (trace: seq<System>, s: System, k: Key)
    requires BothCapped(a)
    ensures Ends(a, trace, s) && k.quota == Newsletters
    ensures SumOf(StrayOn(k), s.calls) == n && SumOf(GrantedOn(k), s.calls) == a.limit(Newsletters) + n
  {
    trace, s := ParkMany(a, n);
    trace, s := StrayAll(a, trace, s, n, 0);
    k := Key(Newsletters, s.day);
    CountStrays(s.calls, k);
    trace, s := ManyGranted(a, trace, s, 0 - n, 0, n, Allowance(a, Newsletters) + n);
    k := Key(Newsletters, s.day);
  }

  /** One newsletter given back after midnight is enough for a day to grant one too many. */
  lemma MidnightGrantsOneTooMany(a: Account) returns (trace: seq<System>, k: Key)
    requires BothCapped(a)
    ensures Run(a, trace) && k.quota == Newsletters
    ensures SumOf(GrantedOn(k), trace[|trace| - 1].calls) == a.limit(Newsletters) + 1
  {
    var s;
    trace, s, k := StraysReachBound(a, 1);
  }

  // ------------------------------------------------------------------ summaries

  const S0 := Key(LlmSummaries, 0)

  predicate SummariesCapped(a: Account) {
    !a.paused && Capped(a, LlmSummaries)
  }

  /** A run of one day in which no batch is admitted with more than crowd summaries of others on their way. */
  ghost predicate EndsUncrowded(a: Account, crowd: nat, trace: seq<System>, s: System) {
    Ends(a, trace, s) && UncrowdedRun(crowd, trace) && s.day == 0 && OneDay(trace)
  }

  lemma ExtendUncrowded(a: Account, crowd: nat, trace: seq<System>, s: System, t: System)
    requires EndsUncrowded(a, crowd, trace, s) && Step(a, s, t) && Uncrowded(crowd, s, t) && t.day == 0
    ensures EndsUncrowded(a, crowd, trace + [t], t)
  {
    Extend(a, trace, s, t);
    var longer := trace + [t];
    forall n | 0 <= n < |longer| - 1 ensures Uncrowded(crowd, longer[n], longer[n + 1]) {
      assert longer[n] == trace[n];
      assert longer[n + 1] == if n + 1 < |trace| then trace[n + 1] else t;
    }
    assert forall m :: 0 <= m < |trace| ==> longer[m] == trace[m];
  }

  lemma MoveUncrowded(a: Account, crowd: nat, trace: seq<System>, s: System, i: nat) returns (longer: seq<System>)
    requires EndsUncrowded(a, crowd, trace, s) && i < |s.calls| && !Finished(s.calls[i].phase)
    requires s.calls[i].phase.Reading? ==> SumOf(FlightOn(s.calls[i].phase.key), s.calls) <= crowd
    ensures EndsUncrowded(a, crowd, longer, Moved(a, s, i))
  {
    longer := trace + [Moved(a, s, i)];
    assert Moves(a, s, Moved(a, s, i), i);
    ExtendUncrowded(a, crowd, trace, s, Moved(a, s, i));
  }

  /** Nothing recorded yet; all calls are batches at work, of flight summaries in all. */
  ghost predicate AllWorking(s: System, flight: int) {
    && s.day == 0 && Count(s.counters, S0) == 0 && SumOf(FlightOn(S0), s.calls) == flight
    && SumOf(GrantedOn(S0), s.calls) == 0
    && forall i :: 0 <= i < |s.calls| ==> s.calls[i].phase.Working? && s.calls[i].phase.key == S0
  }

  /** One more batch is admitted, by a counter that still says 0. */
  lemma AdmitOne(a: Account, crowd: nat, trace: seq<System>, s: System, flight: nat, n: nat)
    returns (longer: seq<System>, t: System)
    requires SummariesCapped(a) && EndsUncrowded(a, crowd, trace, s) && AllWorking(s, flight) && flight <= crowd
    requires 0 < n <= Allowance(a, LlmSummaries)
    ensures EndsUncrowded(a, crowd, longer, t) && AllWorking(t, flight + n)
  {
    var r, i := Summaries(n), |s.calls|;
    var u := Arrived(s, r);
    ExtendUncrowded(a, crowd, trace, s, u);
    longer := MoveUncrowded(a, crowd, trace + [u], u, i);
    var v := Moved(a, u, i);
    SumAppend(FlightOn(S0), s.calls, Call(r, Reading(S0, n)));
    SumAppend(FlightOn(S0), s.calls, Call(r, Working(S0, n)));
    SumAppend(GrantedOn(S0), s.calls, Call(r, Working(S0, n)));
    assert v.calls == s.calls + [Call(r, Reading(S0, n))];
    longer := MoveUncrowded(a, crowd, longer, v, i);
    t := Moved(a, v, i);
    assert t.calls == s.calls + [Call(r, Working(S0, n))];
  }

  lemma {:induction false} AdmitSingles(a: Account, crowd: nat, n: nat) returns (trace: seq<System>, s: System)
    requires SummariesCapped(a) && n <= crowd
    ensures EndsUncrowded(a, crowd, trace, s) && AllWorking(s, n)
  {
    if n == 0 {
      s := System(0, map[], []);
      Start(a, 0);
      trace := [s];
    } else {
      trace, s := AdmitSingles(a, crowd, n - 1);
      trace, s := AdmitOne(a, crowd, trace, s, n - 1, 1);
    }
  }

  /** The first i batches are recorded, the others at work. */
  ghost predicate RecordedUpTo(s: System, total: int, i: nat) {
    && s.day == 0 && i <= |s.calls| && SumOf(FlightOn(S0), s.calls) + SumOf(GrantedOn(S0), s.calls) == total
    && (forall j :: 0 <= j < i ==> s.calls[j].phase.Used?)
    && (forall j :: i <= j < |s.calls| ==> s.calls[j].phase.Working? && s.calls[j].phase.key == S0)
  }

  lemma RecordOne(a: Account, crowd: nat, trace: seq<System>, s: System, total: int, i: nat)
    returns (longer: seq<System>, t: System)
    requires EndsUncrowded(a, crowd, trace, s) && RecordedUpTo(s, total, i) && i < |s.calls|
    ensures EndsUncrowded(a, crowd, longer, t) && RecordedUpTo(t, total, i + 1) && |t.calls| == |s.calls|
  {
    longer := MoveUncrowded(a, crowd, trace, s, i);
    var u := Moved(a, s, i);
    longer := MoveUncrowded(a, crowd, longer, u, i);
    t := Moved(a, u, i);
    SumUpdate(FlightOn(S0), s.calls, i, u.calls[i]);
    SumUpdate(FlightOn(S0), u.calls, i, t.calls[i]);
    SumUpdate(GrantedOn(S0), s.calls, i, u.calls[i]);
    SumUpdate(GrantedOn(S0), u.calls, i, t.calls[i]);
  }

  lemma {:induction false} RecordAll(a: Account, crowd: nat, trace: seq<System>, s: System, total: int, i: nat)
    returns (longer: seq<System>, t: System)
    requires EndsUncrowded(a, crowd, trace, s) && RecordedUpTo(s, total, i)
    ensures EndsUncrowded(a, crowd, longer, t) && RecordedUpTo(t, total, |t.calls|)
    decreases |s.calls| - i
  {
    longer, t := trace, s;
    if i < |s.calls| {
      longer, t := RecordOne(a, crowd, trace, s, total, i);
      longer, t := RecordAll(a, crowd, longer, t, total, i + 1);
    }
  }

  lemma {:induction false} NothingInFlight(calls: seq<Call>, k: Key)
    requires forall i :: 0 <= i < |calls| ==> calls[i].phase.Used?
    ensures SumOf(FlightOn(k), calls) == 0
  {
    if calls != [] {
      NothingInFlight(calls[1..], k);
    }
  }

  /** The bound of SummariesWithinCrowd is reached within one day, for every allowance and every crowd: a crowd of
      single summaries is on its way when a batch of the whole allowance is admitted. */
  lemma CrowdReachesBound(a: Account, crowd: nat) returns (trace: seq<System>, s: System)
    requires SummariesCapped(a)
    ensures Ends(a, trace, s) && UncrowdedRun(crowd, trace) && OneDay(trace)
    ensures SumOf(GrantedOn(S0), s.calls) == a.limit(LlmSummaries) + crowd
  {
    trace, s := AdmitSingles(a, crowd, crowd);
    trace, s := AdmitOne(a, crowd, trace, s, crowd, Allowance(a, LlmSummaries));
    trace, s := RecordAll(a, crowd, trace, s, Allowance(a, LlmSummaries) + crowd, 0);
    NothingInFlight(s.calls, S0);
  }

  // ------------------------------------------------------------------ exactly which caps hold

  /** Some run grants more than the cap of a quota. */
  lemma CapBreaks(a: Account, q: Quota) returns (trace: seq<System>, n: nat, day: int)
    requires (q == Newsletters && BothCapped(a)) || (q == LlmSummaries && SummariesCapped(a))
    ensures Run(a, trace) && n < |trace| && !GrantsFit(a, trace[n], Key(q, day))
  {
    var s;
    if q == Newsletters {
      var k;
      trace, s, k := StraysReachBound(a, 1);
      n, day := |trace| - 1, k.day;
    } else {
      trace, s := CrowdReachesBound(a, 1);
      n, day := |trace| - 1, 0;
    }
  }

  /** Exactly which daily caps hold in every run, across midnight too: those of a paused account, and those
      of quotas that are taken, but for the newsletter count of an account that is limited in volume as well. */
  lemma CapHoldsExactly(a: Account, q: Quota)
    requires Capped(a, q)
    ensures CapHolds(a, q)
       <==> a.paused || (q != LlmSummaries && (q != Newsletters || !Capped(a, NewsletterBytes)))
  {
    if a.paused || (q != LlmSummaries && (q != Newsletters || !Capped(a, NewsletterBytes))) {
      forall trace, n: nat, day: int | Run(a, trace) && n < |trace| ensures GrantsFit(a, trace[n], Key(q, day)) {
        if a.paused {
          PausedWithinCap(a, trace, n, Key(q, day));
        } else {
          CapHoldsAcrossDays(a, trace, n, Key(q, day));
        }
      }
    } else {
      var trace, n, day := CapBreaks(a, q);
    }
  }
}
