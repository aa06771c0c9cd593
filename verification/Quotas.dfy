/** Daily plan quotas (take, newsletter_allowed, and summaries, which are checked first and recorded
    later): counters in Redis under every interleaving of calls, one Redis operation at a time. */
module Quotas {
  import opened Wrappers

  datatype Quota = Newsletters | NewsletterBytes | LlmSummaries | DigestBuilds

  /** One account: its pause state and its limits; a limit of 0 or less is unlimited. */
  datatype Account = Account(paused: bool, limit: Quota -> int)

  /** The counter of a quota on a UTC day. */
  datatype Key = Key(quota: Quota, day: int)

  predicate Capped(a: Account, q: Quota) {
    a.limit(q) > 0
  }

  /** Newsletter volume is counted in bytes and limited in megabytes. */
  function Allowance(a: Account, q: Quota): int {
    if q == NewsletterBytes then a.limit(q) * 1_000_000 else a.limit(q)
  }

  type Counters = map<Key, int>

  function Count(c: Counters, k: Key): int {
    if k in c then c[k] else 0
  }

  /** INCRBY */
  function Incr(c: Counters, k: Key, amount: int): Counters {
    c[k := Count(c, k) + amount]
  }

  // ------------------------------------------------------------------ calls, step by step

  /** What is asked for: one take, a newsletter of some size, or a batch of summaries. */
  datatype Request = Single(quota: Quota, amount: nat) | Newsletter(size: nat) | Summaries(wanted: nat)

  /** Summaries are never taken: they read what is left, and record what they used. */
  predicate Served(r: Request) {
    r.Single? ==> r.quota != LlmSummaries
  }

  /** An amount counted on a key. */
  datatype Charge = Charge(key: Key, amount: nat)

  datatype Phase =
    | Begin
    | Asking(first: Option<Charge>, charge: Charge) // key built, the increment on its way
    | Over(first: Option<Charge>, charge: Charge)   // counted past the limit, to be taken back
    | Holding(first: Option<Charge>)                // newsletter count passed, volume not yet asked
    | GivingBack(first: Option<Charge>)             // refused, the newsletter count to be given back
    | Returning(taken: Charge, to: Key)             // that give-back on its way
    | Reading(key: Key, wanted: nat)                // summaries: the counter being read
    | Working(key: Key, amount: nat)                // summaries that counter admitted, being made
    | Recording(key: Key, charge: Charge)           // made, their increment on its way
    | Granted(charges: seq<Charge>)
    | Used(key: Key, charge: Charge)                // summaries recorded
    | Refused
    | Strayed(from: Key, to: Key)                   // refused; the give-back hit another day's key

  datatype Call = Call(request: Request, phase: Phase)

  datatype System = System(day: int, counters: Counters, calls: seq<Call>)

  function ChargesOf(first: Option<Charge>): seq<Charge> {
    if first.Some? then [first.value] else []
  }

  /** The increment of take: what the counter becomes and whether the amount fits. */
  predicate Fits(a: Account, c: Counters, charge: Charge) {
    Count(c, charge.key) + charge.amount <= Allowance(a, charge.key.quota)
  }

  function Left(a: Account, c: Counters, key: Key): nat {
    var left := Allowance(a, key.quota) - Count(c, key);
    if left < 0 then 0 else left
  }

  function Least(x: nat, y: nat): nat {
    if x <= y then x else y
  }

  /** Where a take that fits leads: a newsletter's count still needs its volume. */
  function Kept(r: Request, first: Option<Charge>, charge: Charge): Phase {
    if r.Newsletter? && charge.key.quota == Newsletters then Holding(Some(charge))
    else Granted(ChargesOf(first) + [charge])
  }

  function First(a: Account, day: int, r: Request): Phase {
    if a.paused then Refused
    else
      match r
      case Single(q, amount) => if Capped(a, q) then Asking(None, Charge(Key(q, day), amount)) else Granted([])
      case Newsletter(_) =>
        if Capped(a, Newsletters) then Asking(None, Charge(Key(Newsletters, day), 1)) else Holding(None)
      case Summaries(wanted) => if Capped(a, LlmSummaries) then Reading(Key(LlmSummaries, day), wanted) else Granted([])
  }

  /** The volume of a newsletter whose count has passed. */
  function Second(a: Account, day: int, r: Request, first: Option<Charge>): Phase {
    if a.paused then GivingBack(first)
    else if !Capped(a, NewsletterBytes) then Granted(ChargesOf(first))
    else Asking(first, Charge(Key(NewsletterBytes, day), if r.Newsletter? then r.size else 0))
  }

  /** One step of one call: it builds a key, from the day it is then, or it does one Redis operation. */
  function Advance(a: Account, day: int, c: Counters, call: Call): (Counters, Phase) {
    match call.phase
    case Begin => (c, First(a, day, call.request))
    case Asking(first, charge) =>
      (Incr(c, charge.key, charge.amount),
       if Fits(a, c, charge) then Kept(call.request, first, charge) else Over(first, charge))
    case Over(first, charge) =>
      (Incr(c, charge.key, 0 - charge.amount),
       if call.request.Newsletter? && charge.key.quota == NewsletterBytes then GivingBack(first) else Refused)
    case Holding(first) => (c, Second(a, day, call.request, first))
    case GivingBack(first) => (c, if first.Some? then Returning(first.value, Key(Newsletters, day)) else Refused)
    case Returning(taken, to) => (Incr(c, to, -1), if to == taken.key then Refused else Strayed(taken.key, to))
    case Reading(key, wanted) =>
      var n := Least(wanted, Left(a, c, key));
      (c, if n == 0 then Refused else Working(key, n))
    case Working(key, n) => (c, Recording(key, Charge(Key(LlmSummaries, day), n)))
    case Recording(key, charge) => (Incr(c, charge.key, charge.amount), Used(key, charge))
    case _ => (c, call.phase)
  }

  predicate Finished(p: Phase) {
    p.Granted? || p.Used? || p.Refused? || p.Strayed?
  }

  /** The system after the next step of call i. */
  function Moved(a: Account, s: System, i: nat): System
    requires i < |s.calls|
  {
    var next := Advance(a, s.day, s.counters, s.calls[i]);
    System(s.day, next.0, s.calls[i := s.calls[i].(phase := next.1)])
  }

  ghost predicate Moves(a: Account, s: System, t: System, i: nat)
    requires i < |s.calls|
  {
    !Finished(s.calls[i].phase) && t == Moved(a, s, i)
  }

  function Arrived(s: System, r: Request): System {
    s.(calls := s.calls + [Call(r, Begin)])
  }

  /** A request arrives, a call takes its next step, or a UTC day ends. */
  ghost predicate Step(a: Account, s: System, t: System) {
    || (exists r :: Served(r) && t == Arrived(s, r))
    || t == s.(day := s.day + 1)
    || (exists i :: 0 <= i < |s.calls| && Moves(a, s, t, i))
  }

  ghost predicate Init(s: System) {
    s.counters == map[] && s.calls == []
  }

  ghost predicate Run(a: Account, trace: seq<System>) {
    && trace != [] && Init(trace[0])
    && forall n :: 0 <= n < |trace| - 1 ==> Step(a, trace[n], trace[n + 1])
  }

  // ------------------------------------------------------------------ the books

  function Charged(charges: seq<Charge>, k: Key): int {
    if charges == [] then 0
    else (if charges[0].key == k then charges[0].amount else 0) + Charged(charges[1..], k)
  }

  function OneCharge(charge: Charge, k: Key): int {
    if charge.key == k then charge.amount else 0
  }

  function FirstCharge(first: Option<Charge>, k: Key): int {
    if first.Some? then OneCharge(first.value, k) else 0
  }

  /** What the call holds on k after a successful check. */
  function Passed(p: Phase, k: Key): int {
    match p
    case Asking(first, _) => FirstCharge(first, k)
    case Over(first, _) => FirstCharge(first, k)
    case Holding(first) => FirstCharge(first, k)
    case GivingBack(first) => FirstCharge(first, k)
    case Returning(taken, _) => OneCharge(taken, k)
    case Granted(charges) => Charged(charges, k)
    case Used(_, charge) => OneCharge(charge, k)
    case _ => 0
  }

  /** What the call has counted on k and is about to take back. */
  function Pending(p: Phase, k: Key): int {
    if p.Over? then OneCharge(p.charge, k) else 0
  }

  /** Give-backs that landed on k although another day's key had been charged. */
  function StrayIn(p: Phase, k: Key): int {
    if p.Strayed? && p.to == k then 1 else 0
  }

  /** Charges on k that were never given back. */
  function StrayOut(p: Phase, k: Key): int {
    if p.Strayed? && p.from == k then 1 else 0
  }

  /** What the call has left on counter k so far. */
  function Net(p: Phase, k: Key): int {
    Passed(p, k) + Pending(p, k) + StrayOut(p, k) - StrayIn(p, k)
  }

  function SumOf(f: Phase -> int, calls: seq<Call>): int {
    if calls == [] then 0 else f(calls[0].phase) + SumOf(f, calls[1..])
  }

  function NetOn(k: Key): Phase -> int { p => Net(p, k) }
  function PassedOn(k: Key): Phase -> int { p => Passed(p, k) }
  function StrayOn(k: Key): Phase -> int { p => StrayIn(p, k) }
  function OtherOn(k: Key): Phase -> int { p => Pending(p, k) + StrayOut(p, k) }

  lemma {:induction false} SumUpdate(f: Phase -> int, calls: seq<Call>, i: nat, c: Call)
    requires i < |calls|
    ensures SumOf(f, calls[i := c]) == SumOf(f, calls) - f(calls[i].phase) + f(c.phase)
  {
    if i == 0 {
      assert calls[0 := c][1..] == calls[1..];
    } else {
      SumUpdate(f, calls[1..], i - 1, c);
      assert calls[i := c][1..] == calls[1..][i - 1 := c];
    }
  }

  lemma {:induction false} SumAppend(f: Phase -> int, calls: seq<Call>, c: Call)
    ensures SumOf(f, calls + [c]) == SumOf(f, calls) + f(c.phase)
  {
    if calls == [] {
      assert calls + [c] == [c];
    } else {
      SumAppend(f, calls[1..], c);
      assert (calls + [c])[1..] == calls[1..] + [c];
    }
  }

  lemma {:induction false} ChargedNonNegative(charges: seq<Charge>, k: Key)
    ensures Charged(charges, k) >= 0
  {
    if charges != [] {
      ChargedNonNegative(charges[1..], k);
    }
  }

  lemma ChargedOne(charge: Charge, k: Key)
    ensures Charged([charge], k) == if charge.key == k then charge.amount else 0
  {
    assert [charge][1..] == [];
  }

  lemma {:induction false} ChargedAppend(charges: seq<Charge>, last: Charge, k: Key)
    ensures Charged(charges + [last], k) == Charged(charges, k) + if last.key == k then last.amount else 0
  {
    if charges == [] {
      assert charges + [last] == [last];
    } else {
      ChargedAppend(charges[1..], last, k);
      assert (charges + [last])[1..] == charges[1..] + [last];
    }
  }

  /** What a take that fits has passed: the earlier charge and the new one. */
  lemma KeptCharges(r: Request, first: Option<Charge>, charge: Charge, k: Key)
    requires r.Newsletter? && charge.key.quota == Newsletters ==> first.None?
    ensures Passed(Kept(r, first, charge), k) == FirstCharge(first, k) + OneCharge(charge, k)
    ensures Pending(Kept(r, first, charge), k) == StrayIn(Kept(r, first, charge), k) == 0
    ensures StrayOut(Kept(r, first, charge), k) == 0
  {
    ChargedAppend(ChargesOf(first), charge, k);
    ChargedOfFirst(first, k);
  }

  lemma ChargedOfFirst(first: Option<Charge>, k: Key)
    ensures Charged(ChargesOf(first), k) == FirstCharge(first, k)
  {
    if first.Some? {
      ChargedOne(first.value, k);
    }
  }

  lemma {:induction false} SplitSums(calls: seq<Call>, k: Key)
    ensures SumOf(NetOn(k), calls)
         == SumOf(PassedOn(k), calls) + SumOf(OtherOn(k), calls) - SumOf(StrayOn(k), calls)
    ensures SumOf(OtherOn(k), calls) >= 0 && SumOf(StrayOn(k), calls) >= 0
  {
    if calls != [] {
      SplitSums(calls[1..], k);
    }
  }

  // ------------------------------------------------------------------ what every step keeps

  predicate IsNewsletterCharge(first: Option<Charge>) {
    first.Some? ==> first.value.key.quota == Newsletters && first.value.amount == 1
  }

  predicate IsTake(r: Request, first: Option<Charge>, charge: Charge) {
    && IsNewsletterCharge(first) && charge.key.quota != LlmSummaries
    && (first.Some? ==> r.Newsletter? && charge.key.quota == NewsletterBytes)
    && (r.Newsletter? && charge.key.quota == Newsletters ==> charge.amount == 1)
  }

  predicate IsUse(key: Key, charge: Charge) {
    key.quota == LlmSummaries && charge.key.quota == LlmSummaries
  }

  predicate NoSummaries(charges: seq<Charge>) {
    forall i :: 0 <= i < |charges| ==> charges[i].key.quota != LlmSummaries
  }

  /** A call's phase fits its request; a paused account never gets past Begin. */
  predicate Sane(a: Account, call: Call) {
    && Served(call.request) && (a.paused ==> call.phase.Begin? || call.phase.Refused?)
    && match call.phase
       case Asking(first, charge) => IsTake(call.request, first, charge)
       case Over(first, charge) => IsTake(call.request, first, charge)
       case Holding(first) => call.request.Newsletter? && IsNewsletterCharge(first)
       case GivingBack(first) => IsNewsletterCharge(first)
       case Returning(taken, to) => IsNewsletterCharge(Some(taken)) && to.quota == Newsletters
       case Reading(key, _) => key.quota == LlmSummaries
       case Working(key, _) => key.quota == LlmSummaries
       case Recording(key, charge) => IsUse(key, charge)
       case Used(key, charge) => IsUse(key, charge)
       case Granted(charges) => NoSummaries(charges)
       case Strayed(from, to) => from.quota == Newsletters && to.quota == Newsletters
       case _ => true
  }

  lemma AdvanceKeepsSane(a: Account, day: int, c: Counters, call: Call)
    requires Sane(a, call)
    ensures Sane(a, call.(phase := Advance(a, day, c, call).1))
  {
  }

  /** Each operation moves the counters by exactly what it moves on the call's books. */
  lemma AdvanceBalances(a: Account, day: int, c: Counters, call: Call, k: Key)
    requires Sane(a, call)
    ensures var next := Advance(a, day, c, call);
            Count(next.0, k) - Count(c, k) == Net(next.1, k) - Net(call.phase, k)
  {
    match call.phase
    case Asking(first, charge) => KeptCharges(call.request, first, charge, k);
    case Holding(first) => ChargedOfFirst(first, k);
    case _ =>
  }

  /** Only an increment that fits makes a call hold more of a quota that is taken. */
  lemma AdvancePasses(a: Account, day: int, c: Counters, call: Call, k: Key)
    requires Sane(a, call) && k.quota != LlmSummaries
    ensures var next := Advance(a, day, c, call);
            && (Passed(next.1, k) > Passed(call.phase, k) ==> Count(next.0, k) <= Allowance(a, k.quota))
            && StrayIn(next.1, k) >= StrayIn(call.phase, k)
  {
    match call.phase
    case Asking(first, charge) => KeptCharges(call.request, first, charge, k);
    case Holding(first) => ChargedOfFirst(first, k);
    case _ =>
  }

  /** The books: every counter is what the calls have left on it, and what passed the check of
      take exceeds the allowance by no more than the stray give-backs. */
  ghost predicate Books(a: Account, s: System) {
    && (forall i :: 0 <= i < |s.calls| ==> Sane(a, s.calls[i]))
    && (forall k: Key :: Count(s.counters, k) == SumOf(NetOn(k), s.calls))
    && (forall k: Key :: Capped(a, k.quota) && k.quota != LlmSummaries ==> PassedFit(a, s, k))
  }

  ghost predicate PassedFit(a: Account, s: System, k: Key) {
    SumOf(PassedOn(k), s.calls) <= Allowance(a, k.quota) + SumOf(StrayOn(k), s.calls)
  }

  lemma MoveKeepsCount(a: Account, s: System, t: System, i: nat, k: Key)
    requires Books(a, s) && i < |s.calls| && Moves(a, s, t, i)
    ensures Count(t.counters, k) == SumOf(NetOn(k), t.calls)
  {
    AdvanceBalances(a, s.day, s.counters, s.calls[i], k);
    SumUpdate(NetOn(k), s.calls, i, t.calls[i]);
  }

  lemma MoveKeepsFit(a: Account, s: System, t: System, i: nat, k: Key)
    requires Books(a, s) && i < |s.calls| && Moves(a, s, t, i) && Capped(a, k.quota) && k.quota != LlmSummaries
    ensures PassedFit(a, t, k)
  {
    MoveKeepsCount(a, s, t, i, k);
    AdvancePasses(a, s.day, s.counters, s.calls[i], k);
    SumUpdate(PassedOn(k), s.calls, i, t.calls[i]);
    SumUpdate(StrayOn(k), s.calls, i, t.calls[i]);
    SplitSums(t.calls, k);
    assert PassedFit(a, s, k);
  }

  lemma ArrivalKeepsBooks(a: Account, s: System, r: Request)
    requires Books(a, s) && Served(r)
    ensures Books(a, Arrived(s, r))
  {
    var call := Call(r, Begin);
    forall k
      ensures SumOf(NetOn(k), s.calls + [call]) == SumOf(NetOn(k), s.calls)
      ensures SumOf(PassedOn(k), s.calls + [call]) == SumOf(PassedOn(k), s.calls)
      ensures SumOf(StrayOn(k), s.calls + [call]) == SumOf(StrayOn(k), s.calls)
    {
      SumAppend(NetOn(k), s.calls, call);
      SumAppend(PassedOn(k), s.calls, call);
      SumAppend(StrayOn(k), s.calls, call);
    }
    forall k: Key | Capped(a, k.quota) && k.quota != LlmSummaries ensures PassedFit(a, Arrived(s, r), k) {
      assert PassedFit(a, s, k);
    }
  }

  lemma MoveKeepsSane(a: Account, s: System, t: System, i: nat, j: nat)
    requires Books(a, s) && i < |s.calls| && Moves(a, s, t, i) && j < |t.calls|
    ensures Sane(a, t.calls[j])
  {
    if j == i {
      AdvanceKeepsSane(a, s.day, s.counters, s.calls[i]);
    } else {
      assert t.calls[j] == s.calls[j];
    }
  }

  lemma MoveKeepsBooks(a: Account, s: System, t: System, i: nat)
    requires Books(a, s) && i < |s.calls| && Moves(a, s, t, i)
    ensures Books(a, t)
  {
    forall k ensures Count(t.counters, k) == SumOf(NetOn(k), t.calls) {
      MoveKeepsCount(a, s, t, i, k);
    }
    forall k: Key | Capped(a, k.quota) && k.quota != LlmSummaries ensures PassedFit(a, t, k) {
      MoveKeepsFit(a, s, t, i, k);
    }
    forall j | 0 <= j < |t.calls| ensures Sane(a, t.calls[j]) {
      MoveKeepsSane(a, s, t, i, j);
    }
  }

  lemma MidnightKeepsBooks(a: Account, s: System)
    requires Books(a, s)
    ensures Books(a, s.(day := s.day + 1))
  {
    forall k: Key | Capped(a, k.quota) && k.quota != LlmSummaries ensures PassedFit(a, s.(day := s.day + 1), k) {
      assert PassedFit(a, s, k);
    }
  }

  lemma StepKeepsBooks(a: Account, s: System, t: System)
    requires Books(a, s) && Step(a, s, t)
    ensures Books(a, t)
  {
    if t == s.(day := s.day + 1) {
      MidnightKeepsBooks(a, s);
    } else if exists r :: Served(r) && t == Arrived(s, r) {
      var r :| Served(r) && t == Arrived(s, r);
      ArrivalKeepsBooks(a, s, r);
    } else {
      var i :| 0 <= i < |s.calls| && Moves(a, s, t, i);
      MoveKeepsBooks(a, s, t, i);
    }
  }

  lemma {:induction false} RunKeepsBooks(a: Account, trace: seq<System>, n: nat)
    requires Run(a, trace) && n < |trace|
    ensures Books(a, trace[n])
  {
    if n > 0 {
      RunKeepsBooks(a, trace, n - 1);
      StepKeepsBooks(a, trace[n - 1], trace[n]);
    }
  }

  // ------------------------------------------------------------------ what callers get

  function GrantedOn(k: Key): Phase -> int {
    (p: Phase) => if p.Granted? then Charged(p.charges, k) else if p.Used? then OneCharge(p.charge, k) else 0
  }

  lemma {:induction false} GrantedHasPassed(calls: seq<Call>, k: Key)
    ensures SumOf(GrantedOn(k), calls) <= SumOf(PassedOn(k), calls)
  {
    if calls != [] {
      GrantedHasPassed(calls[1..], k);
    }
  }

  /** At any moment of any run, the amounts granted on a limited counter that is taken exceed its
      allowance by at most the give-backs that strayed onto it from another day. */
  lemma GrantsWithinAllowance(a: Account, trace: seq<System>, n: nat, k: Key)
    requires Run(a, trace) && n < |trace| && Capped(a, k.quota) && k.quota != LlmSummaries
    ensures SumOf(GrantedOn(k), trace[n].calls)
         <= Allowance(a, k.quota) + SumOf(StrayOn(k), trace[n].calls)
  {
    RunKeepsBooks(a, trace, n);
    assert PassedFit(a, trace[n], k);
    GrantedHasPassed(trace[n].calls, k);
  }

  predicate AtRest(p: Phase) {
    p.Granted? || p.Used? || p.Refused?
  }

  lemma {:induction false} RestingNet(calls: seq<Call>, k: Key)
    requires forall i :: 0 <= i < |calls| ==> AtRest(calls[i].phase)
    ensures SumOf(NetOn(k), calls) == SumOf(GrantedOn(k), calls)
  {
    if calls != [] {
      RestingNet(calls[1..], k);
    }
  }

  /** With no call in flight and no stray give-back, every counter is exactly what was granted. */
  lemma CountersAtRest(a: Account, trace: seq<System>, n: nat, k: Key)
    requires Run(a, trace) && n < |trace|
    requires forall i :: 0 <= i < |trace[n].calls| ==> AtRest(trace[n].calls[i].phase)
    ensures Count(trace[n].counters, k) == SumOf(GrantedOn(k), trace[n].calls)
  {
    RunKeepsBooks(a, trace, n);
    RestingNet(trace[n].calls, k);
  }

  lemma PausedNeverGranted(a: Account, trace: seq<System>, n: nat, i: nat)
    requires Run(a, trace) && n < |trace| && a.paused && i < |trace[n].calls|
    ensures !trace[n].calls[i].phase.Granted? && !trace[n].calls[i].phase.Used?
  {
    RunKeepsBooks(a, trace, n);
    assert Sane(a, trace[n].calls[i]);
  }

  // ------------------------------------------------------------------ summaries

  /** Summaries admitted by counter k and on their way to it. */
  function Flight(p: Phase, k: Key): int {
    if p.Working? && p.key == k then p.amount
    else if p.Recording? && p.key == k then OneCharge(p.charge, k)
    else 0
  }

  /** Summaries admitted by counter k, on their way to it or recorded on it. */
  function Held(p: Phase, k: Key): int {
    if p.Used? && p.key == k then OneCharge(p.charge, k) else Flight(p, k)
  }

  /** Summaries recorded on k that another day's counter admitted. */
  function Crossed(p: Phase, k: Key): int {
    if p.Used? && p.key != k then OneCharge(p.charge, k) else 0
  }

  function FlightOn(k: Key): Phase -> int { p => Flight(p, k) }
  function HeldOn(k: Key): Phase -> int { p => Held(p, k) }
  function CrossedOn(k: Key): Phase -> int { p => Crossed(p, k) }

  /** Call i is admitted while other summaries admitted by the same counter are on their way. */
  ghost predicate Admits(s: System, t: System, i: nat) {
    i < |s.calls| && i < |t.calls| && s.calls[i].phase.Reading? && t.calls[i].phase.Working?
  }

  /** No batch is admitted with more than crowd summaries of others on their way. */
  ghost predicate Uncrowded(crowd: nat, s: System, t: System) {
    forall i: nat :: Admits(s, t, i) ==> SumOf(FlightOn(s.calls[i].phase.key), s.calls) <= crowd
  }

  ghost predicate UncrowdedRun(crowd: nat, trace: seq<System>) {
    forall n :: 0 <= n < |trace| - 1 ==> Uncrowded(crowd, trace[n], trace[n + 1])
  }

  lemma {:induction false} NoCharge(charges: seq<Charge>, k: Key)
    requires NoSummaries(charges) && k.quota == LlmSummaries
    ensures Charged(charges, k) == 0
  {
    if charges != [] {
      NoCharge(charges[1..], k);
    }
  }

  /** On a counter of summaries: what is held and what crossed over is what is counted and on its way. */
  lemma {:induction false} SummarySums(a: Account, calls: seq<Call>, k: Key)
    requires (forall i :: 0 <= i < |calls| ==> Sane(a, calls[i])) && k.quota == LlmSummaries
    ensures SumOf(HeldOn(k), calls) + SumOf(CrossedOn(k), calls) == SumOf(NetOn(k), calls) + SumOf(FlightOn(k), calls)
    ensures SumOf(CrossedOn(k), calls) >= 0 && SumOf(FlightOn(k), calls) >= 0
    ensures SumOf(GrantedOn(k), calls) <= SumOf(HeldOn(k), calls) + SumOf(CrossedOn(k), calls)
  {
    if calls != [] {
      SummarySums(a, calls[1..], k);
      assert Sane(a, calls[0]);
      if calls[0].phase.Granted? {
        NoCharge(calls[0].phase.charges, k);
      }
    }
  }

  ghost predicate HeldFit(a: Account, crowd: nat, s: System, k: Key) {
    SumOf(HeldOn(k), s.calls) <= Allowance(a, LlmSummaries) + crowd
  }

  lemma AdvanceHolds(a: Account, day: int, c: Counters, call: Call, k: Key)
    ensures var next := Advance(a, day, c, call).1;
            Held(next, k) > Held(call.phase, k) ==>
              && call.phase.Reading? && call.phase.key == k && next.Working?
              && Held(call.phase, k) == 0 && Held(next, k) <= Left(a, c, k) && Left(a, c, k) > 0
  {
  }

  lemma MoveKeepsHeld(a: Account, crowd: nat, s: System, t: System, i: nat, k: Key)
    requires Books(a, s) && i < |s.calls| && Moves(a, s, t, i) && Uncrowded(crowd, s, t)
    requires k.quota == LlmSummaries && Capped(a, k.quota) && HeldFit(a, crowd, s, k)
    ensures HeldFit(a, crowd, t, k)
  {
    SumUpdate(HeldOn(k), s.calls, i, t.calls[i]);
    AdvanceHolds(a, s.day, s.counters, s.calls[i], k);
    if Held(t.calls[i].phase, k) > Held(s.calls[i].phase, k) {
      SummarySums(a, s.calls, k);
      assert Admits(s, t, i);
    }
  }

  lemma StepKeepsHeld(a: Account, crowd: nat, s: System, t: System, k: Key)
    requires Books(a, s) && Step(a, s, t) && Uncrowded(crowd, s, t)
    requires k.quota == LlmSummaries && Capped(a, k.quota) && HeldFit(a, crowd, s, k)
    ensures HeldFit(a, crowd, t, k)
  {
    if t == s.(day := s.day + 1) {
    } else if exists r :: Served(r) && t == Arrived(s, r) {
      var r :| Served(r) && t == Arrived(s, r);
      SumAppend(HeldOn(k), s.calls, Call(r, Begin));
    } else {
      var i :| 0 <= i < |s.calls| && Moves(a, s, t, i);
      MoveKeepsHeld(a, crowd, s, t, i, k);
    }
  }

  lemma {:induction false} RunKeepsHeld(a: Account, crowd: nat, trace: seq<System>, n: nat, k: Key)
    requires Run(a, trace) && UncrowdedRun(crowd, trace) && n < |trace|
    requires k.quota == LlmSummaries && Capped(a, k.quota)
    ensures HeldFit(a, crowd, trace[n], k)
  {
    if n > 0 {
      RunKeepsHeld(a, crowd, trace, n - 1, k);
      RunKeepsBooks(a, trace, n - 1);
      StepKeepsHeld(a, crowd, trace[n - 1], trace[n], k);
    }
  }

  /** Summaries are checked and recorded in two steps. In any run a day's summaries exceed the allowance by
      at most the others on their way when a batch is admitted, and what crossed over from another day. */
  lemma SummariesWithinCrowd(a: Account, crowd: nat, trace: seq<System>, n: nat, k: Key)
    requires Run(a, trace) && UncrowdedRun(crowd, trace) && n < |trace|
    requires k.quota == LlmSummaries && Capped(a, k.quota)
    ensures SumOf(GrantedOn(k), trace[n].calls)
         <= Allowance(a, k.quota) + crowd + SumOf(CrossedOn(k), trace[n].calls)
  {
    RunKeepsBooks(a, trace, n);
    RunKeepsHeld(a, crowd, trace, n, k);
    SummarySums(a, trace[n].calls, k);
  }

  // ------------------------------------------------------------------ within one day

  /** All keys of the call were built on this day. */
  predicate SameDay(call: Call, day: int) {
    match call.phase
    case Asking(first, _) => first.Some? ==> first.value.key == Key(Newsletters, day)
    case Over(first, _) => first.Some? ==> first.value.key == Key(Newsletters, day)
    case Holding(first) => first.Some? ==> first.value.key == Key(Newsletters, day)
    case GivingBack(first) => first.Some? ==> first.value.key == Key(Newsletters, day)
    case Returning(taken, to) => taken.key == to == Key(Newsletters, day)
    case Reading(key, _) => key == Key(LlmSummaries, day)
    case Working(key, _) => key == Key(LlmSummaries, day)
    case Recording(key, charge) => key == charge.key == Key(LlmSummaries, day)
    case Used(key, charge) => key == charge.key
    case Strayed(_, _) => false
    case _ => true
  }

  ghost predicate OneDay(trace: seq<System>) {
    forall m :: 0 <= m < |trace| ==> trace[m].day == trace[0].day
  }

  lemma AdvanceSameDay(a: Account, day: int, c: Counters, call: Call)
    requires SameDay(call, day) && (call.phase.Asking? && call.request.Newsletter? ==> call.phase.charge.key.day == day)
    ensures SameDay(call.(phase := Advance(a, day, c, call).1), day)
  {
  }

  predicate AskedToday(call: Call, day: int) {
    SameDay(call, day) && (call.phase.Asking? ==> call.phase.charge.key.day == day)
  }

  lemma AdvanceAskedToday(a: Account, day: int, c: Counters, call: Call)
    requires AskedToday(call, day)
    ensures AskedToday(call.(phase := Advance(a, day, c, call).1), day)
  {
    AdvanceSameDay(a, day, c, call);
  }

  /** Within one UTC day nothing strays and nothing crosses over. */
  lemma {:induction false} OneDayNothingStrays(a: Account, trace: seq<System>, n: nat)
    requires Run(a, trace) && n < |trace| && OneDay(trace)
    ensures forall i :: 0 <= i < |trace[n].calls| ==> AskedToday(trace[n].calls[i], trace[0].day)
  {
    if n > 0 {
      OneDayNothingStrays(a, trace, n - 1);
      var s, t := trace[n - 1], trace[n];
      assert Step(a, s, t) && s.day == t.day == trace[0].day;
      forall i | 0 <= i < |t.calls| ensures AskedToday(t.calls[i], t.day) {
        if i < |s.calls| && t.calls[i] != s.calls[i] {
          AdvanceAskedToday(a, s.day, s.counters, s.calls[i]);
        }
      }
    }
  }

  lemma {:induction false} NoStrays(calls: seq<Call>, k: Key, day: int)
    requires forall i :: 0 <= i < |calls| ==> SameDay(calls[i], day)
    ensures SumOf(StrayOn(k), calls) == 0 && SumOf(CrossedOn(k), calls) == 0
  {
    if calls != [] {
      NoStrays(calls[1..], k, day);
    }
  }

  lemma OneDayWithinAllowance(a: Account, trace: seq<System>, n: nat, k: Key)
    requires Run(a, trace) && n < |trace| && OneDay(trace) && Capped(a, k.quota) && k.quota != LlmSummaries
    ensures SumOf(GrantedOn(k), trace[n].calls) <= Allowance(a, k.quota)
  {
    GrantsWithinAllowance(a, trace, n, k);
    OneDayNothingStrays(a, trace, n);
    NoStrays(trace[n].calls, k, trace[0].day);
  }

  /** The same in the units of the plan: pieces, or bytes against megabytes. */
  lemma OneDayInUnits(a: Account, trace: seq<System>, n: nat, q: Quota, day: int)
    requires Run(a, trace) && n < |trace| && OneDay(trace) && a.limit(q) > 0 && q != LlmSummaries
    ensures q != NewsletterBytes ==> SumOf(GrantedOn(Key(q, day)), trace[n].calls) <= a.limit(q)
    ensures q == NewsletterBytes ==> SumOf(GrantedOn(Key(q, day)), trace[n].calls) <= 1_000_000 * a.limit(q)
  {
    OneDayWithinAllowance(a, trace, n, Key(q, day));
  }

  /** Within one day, and with no batch admitted while another is on its way, summaries keep their cap too. */
  lemma OneDaySummaries(a: Account, crowd: nat, trace: seq<System>, n: nat, k: Key)
    requires Run(a, trace) && UncrowdedRun(crowd, trace) && n < |trace| && OneDay(trace)
    requires k.quota == LlmSummaries && Capped(a, k.quota)
    ensures SumOf(GrantedOn(k), trace[n].calls) <= Allowance(a, k.quota) + crowd
  {
    SummariesWithinCrowd(a, crowd, trace, n, k);
    OneDayNothingStrays(a, trace, n);
    NoStrays(trace[n].calls, k, trace[0].day);
  }

  // ------------------------------------------------------------------ one call at a time

  function StepsLeft(p: Phase): nat {
    match p
    case Begin => 8
    case Asking(first, charge) => if charge.key.quota == Newsletters then 7 else 5
    case Holding(_) => 6
    case Over(_, _) => 4
    case GivingBack(_) => 3
    case Returning(_, _) => 2
    case Reading(_, _) => 3
    case Working(_, _) => 2
    case Recording(_, _) => 1
    case _ => 0
  }

  /** A call run to its end with nothing in between, within one day. */
  function Alone(a: Account, day: int, c: Counters, call: Call): (Counters, Phase)
    decreases StepsLeft(call.phase)
  {
    if Finished(call.phase) then (c, call.phase)
    else
      var next := Advance(a, day, c, call);
      Alone(a, day, next.0, call.(phase := next.1))
  }

  /** remaining_today: None is unlimited; a paused account has nothing left. */
  function Remaining(a: Account, q: Quota, day: int, c: Counters): Option<nat> {
    if a.paused then Some(0)
    else if !Capped(a, q) then None
    else Some(Left(a, c, Key(q, day)))
  }

  /** What is said to be left is what a call that follows gets: any positive amount up to it and no
      more; and a grant lowers it by just that amount, a refusal not at all. */
  lemma RemainingIsTakeable(a: Account, q: Quota, day: int, c: Counters, amount: nat)
    ensures var left, alone := Remaining(a, q, day, c), Alone(a, day, c, Call(Single(q, amount), Begin));
            var after := Remaining(a, q, day, alone.0);
            && (amount > 0 ==> (alone.1.Granted? <==> left.None? || amount <= left.value))
            && (left.None? <==> after.None?)
            && (left.Some? ==> after.value == left.value - if alone.1.Granted? then amount else 0)
  {
    AloneTake(a, day, c, q, amount);
  }

  lemma AloneSteps(a: Account, day: int, c: Counters, call: Call)
    requires !Finished(call.phase)
    ensures var next := Advance(a, day, c, call);
            Alone(a, day, c, call) == Alone(a, day, next.0, call.(phase := next.1))
  {
  }

  lemma AloneEnds(a: Account, day: int, c: Counters, call: Call)
    requires Finished(call.phase)
    ensures Alone(a, day, c, call) == (c, call.phase)
  {
  }

  /** The increment of take, and the one that takes it back. */
  lemma AloneAsking(a: Account, day: int, c: Counters, r: Request, first: Option<Charge>, charge: Charge)
    ensures var alone := Alone(a, day, c, Call(r, Asking(first, charge)));
            var counted := Incr(c, charge.key, charge.amount);
            var refused := if r.Newsletter? && charge.key.quota == NewsletterBytes then GivingBack(first) else Refused;
            if Fits(a, c, charge) then alone == Alone(a, day, counted, Call(r, Kept(r, first, charge)))
            else alone == Alone(a, day, Incr(counted, charge.key, 0 - charge.amount), Call(r, refused))
  {
    var call := Call(r, Asking(first, charge));
    AloneSteps(a, day, c, call);
    if !Fits(a, c, charge) {
      AloneSteps(a, day, Incr(c, charge.key, charge.amount), call.(phase := Over(first, charge)));
    }
  }

  lemma AloneTake(a: Account, day: int, c: Counters, q: Quota, amount: nat)
    ensures var charge := Charge(Key(q, day), amount);
            var alone := Alone(a, day, c, Call(Single(q, amount), Begin));
            if a.paused then alone == (c, Refused)
            else if !Capped(a, q) then alone == (c, Granted([]))
            else if Fits(a, c, charge) then alone == (Incr(c, charge.key, amount), Granted([charge]))
            else alone == (Incr(Incr(c, charge.key, amount), charge.key, 0 - amount), Refused)
  {
    var r, charge := Single(q, amount), Charge(Key(q, day), amount);
    AloneSteps(a, day, c, Call(r, Begin));
    AloneAsking(a, day, c, r, None, charge);
    assert [] + [charge] == [charge];
  }

  /** Giving the newsletter count back. */
  lemma AloneGivingBack(a: Account, day: int, c: Counters, r: Request, first: Option<Charge>)
    ensures var alone := Alone(a, day, c, Call(r, GivingBack(first)));
            alone.0 == (if first.None? then c else Incr(c, Key(Newsletters, day), -1)) && !alone.1.Granted?
  {
    AloneSteps(a, day, c, Call(r, GivingBack(first)));
    if first.Some? {
      AloneSteps(a, day, c, Call(r, Returning(first.value, Key(Newsletters, day))));
    }
  }

  /** The second half of newsletter_allowed, from the moment the newsletter count has passed. */
  lemma AloneHolding(a: Account, day: int, c: Counters, size: nat, first: Option<Charge>)
    requires !a.paused
    ensures var charge := Charge(Key(NewsletterBytes, day), size);
            var alone := Alone(a, day, c, Call(Newsletter(size), Holding(first)));
            var back := Incr(Incr(c, charge.key, size), charge.key, 0 - size);
            if !Capped(a, NewsletterBytes) then alone == (c, Granted(ChargesOf(first)))
            else if Fits(a, c, charge) then alone == (Incr(c, charge.key, size), Granted(ChargesOf(first) + [charge]))
            else alone.0 == (if first.None? then back else Incr(back, Key(Newsletters, day), -1)) && !alone.1.Granted?
  {
    var r, charge := Newsletter(size), Charge(Key(NewsletterBytes, day), size);
    AloneSteps(a, day, c, Call(r, Holding(first)));
    if Capped(a, NewsletterBytes) {
      AloneAsking(a, day, c, r, first, charge);
      AloneGivingBack(a, day, Incr(Incr(c, charge.key, size), charge.key, 0 - size), r, first);
    }
  }

  lemma AloneNewsletter(a: Account, day: int, c: Counters, size: nat)
    ensures var charge := Charge(Key(Newsletters, day), 1);
            var alone := Alone(a, day, c, Call(Newsletter(size), Begin));
            if a.paused then alone == (c, Refused)
            else if !Capped(a, Newsletters) then alone == Alone(a, day, c, Call(Newsletter(size), Holding(None)))
            else if Fits(a, c, charge)
              then alone == Alone(a, day, Incr(c, charge.key, 1), Call(Newsletter(size), Holding(Some(charge))))
            else alone == (Incr(Incr(c, charge.key, 1), charge.key, -1), Refused)
  {
    var r, charge := Newsletter(size), Charge(Key(Newsletters, day), 1);
    AloneSteps(a, day, c, Call(r, Begin));
    AloneAsking(a, day, c, r, None, charge);
  }

  /** A batch alone makes what is left, up to what is wanted, and records just that. */
  lemma AloneSummaries(a: Account, day: int, c: Counters, wanted: nat)
    ensures var key := Key(LlmSummaries, day);
            var n := Least(wanted, Left(a, c, key));
            var alone := Alone(a, day, c, Call(Summaries(wanted), Begin));
            if a.paused then alone == (c, Refused)
            else if !Capped(a, LlmSummaries) then alone == (c, Granted([]))
            else if n == 0 then alone == (c, Refused)
            else alone == (Incr(c, key, n), Used(key, Charge(key, n)))
  {
    var r, key := Summaries(wanted), Key(LlmSummaries, day);
    var n := Least(wanted, Left(a, c, key));
    AloneSteps(a, day, c, Call(r, Begin));
    if !a.paused && Capped(a, LlmSummaries) {
      AloneSteps(a, day, c, Call(r, Reading(key, wanted)));
      if n > 0 {
        AloneSteps(a, day, c, Call(r, Working(key, n)));
        AloneSteps(a, day, c, Call(r, Recording(key, Charge(key, n))));
      }
    }
  }

  /** Counters in Redis; the methods are the module's functions, each in one UTC day. */
  class DailyCounters {
    var counters: Counters

    constructor ()
      ensures counters == map[]
    {
      counters := map[];
    }

    method CacheIncr(key: Key, amount: int) returns (value: int)
      modifies this
      ensures counters == Incr(old(counters), key, amount) && value == Count(counters, key)
    {
      counters := counters[key := Count(counters, key) + amount];
      value := counters[key];
    }

    /** True, and counted, exactly when the amount fits; otherwise every count is as before. */
    method Take(a: Account, q: Quota, day: int, amount: nat) returns (ok: bool)
      modifies this
      ensures ok <==> !a.paused && (Capped(a, q) ==> Count(old(counters), Key(q, day)) + amount <= Allowance(a, q))
      ensures a.paused ==> !ok
      ensures !a.paused && a.limit(q) <= 0 ==> ok
      ensures !a.paused && a.limit(q) > 0 && q != NewsletterBytes ==>
                (ok <==> Count(old(counters), Key(q, day)) + amount <= a.limit(q))
      ensures forall k :: Count(counters, k)
                == Count(old(counters), k) + if ok && Capped(a, q) && k == Key(q, day) then amount else 0
      ensures var solo := Alone(a, day, old(counters), Call(Single(q, amount), Begin));
              counters == solo.0 && ok == solo.1.Granted?
    {
      AloneTake(a, day, counters, q, amount);
      if a.paused {
        return false;
      }
      if !Capped(a, q) {
        return true;
      }
      var used := CacheIncr(Key(q, day), amount);
      if used <= Allowance(a, q) {
        return true;
      }
      var _ := CacheIncr(Key(q, day), 0 - amount);
      return false;
    }

    method RemainingToday(a: Account, q: Quota, day: int) returns (left: Option<nat>)
      ensures left == Remaining(a, q, day, counters)
      ensures a.paused ==> left == Some(0)
      ensures !a.paused ==> (left.None? <==> a.limit(q) <= 0)
      ensures !a.paused && left.Some? ==>
                var most := if q == NewsletterBytes then 1_000_000 * a.limit(q) else a.limit(q);
                var used := Count(counters, Key(q, day));
                left.value == if used >= most then 0 else most - used
    {
      if a.paused {
        return Some(0);
      }
      if a.limit(q) <= 0 {
        return None;
      }
      var used := Count(counters, Key(q, day));
      return Some(if Allowance(a, q) - used < 0 then 0 else Allowance(a, q) - used);
    }

    method RecordUse(a: Account, q: Quota, day: int, amount: int)
      modifies this
      ensures forall k :: Count(counters, k)
                == Count(old(counters), k) + if Capped(a, q) && k == Key(q, day) then amount else 0
      ensures counters
           == if amount == 0 || !Capped(a, q) then old(counters) else Incr(old(counters), Key(q, day), amount)
    {
      if amount == 0 || !Capped(a, q) {
        return;
      }
      var _ := CacheIncr(Key(q, day), amount);
    }

    /** summarize_placed, when able of the wanted summaries can be made: no more than are left, all recorded. */
    method SummarizePlaced(a: Account, day: int, wanted: nat, able: nat) returns (calls: nat)
      requires able <= wanted
      modifies this
      ensures calls == if Remaining(a, LlmSummaries, day, old(counters)).None? then able
                       else Least(able, Remaining(a, LlmSummaries, day, old(counters)).value)
      ensures forall k :: Count(counters, k)
                == Count(old(counters), k) + if Capped(a, LlmSummaries) && k == Key(LlmSummaries, day) then calls else 0
      ensures forall k :: Count(counters, k)
                == Count(Alone(a, day, old(counters), Call(Summaries(able), Begin)).0, k)
    {
      AloneSummaries(a, day, counters, able);
      var left := RemainingToday(a, LlmSummaries, day);
      var most := if left.Some? then Least(wanted, left.value) else wanted;
      calls := Least(able, most);
      RecordUse(a, LlmSummaries, day, calls);
    }

    /** Admitted, and counted on both quotas, exactly when both fit; otherwise neither changes. */
    method NewsletterAllowed(a: Account, day: int, size: nat) returns (ok: bool)
      modifies this
      ensures ok <==> && !a.paused
                      && (Capped(a, Newsletters) ==>
                            Count(old(counters), Key(Newsletters, day)) + 1 <= Allowance(a, Newsletters))
                      && (Capped(a, NewsletterBytes) ==>
                            Count(old(counters), Key(NewsletterBytes, day)) + size <= Allowance(a, NewsletterBytes))
      ensures !a.paused && a.limit(Newsletters) > 0 && a.limit(NewsletterBytes) > 0 ==>
                (ok <==> && Count(old(counters), Key(Newsletters, day)) + 1 <= a.limit(Newsletters)
                         && Count(old(counters), Key(NewsletterBytes, day)) + size
                              <= 1_000_000 * a.limit(NewsletterBytes))
      ensures forall k :: Count(counters, k) == Count(old(counters), k)
                + (if ok && Capped(a, Newsletters) && k == Key(Newsletters, day) then 1 else 0)
                + (if ok && Capped(a, NewsletterBytes) && k == Key(NewsletterBytes, day) then size else 0)
      ensures var solo := Alone(a, day, old(counters), Call(Newsletter(size), Begin));
              counters == solo.0 && ok == solo.1.Granted?
    {
      AloneNewsletter(a, day, counters, size);
      AloneTake(a, day, counters, Newsletters, 1);
      var counted := Take(a, Newsletters, day, 1);
      if !counted {
        return false;
      }
      var first := if Capped(a, Newsletters) then Some(Charge(Key(Newsletters, day), 1)) else None;
      AloneHolding(a, day, counters, size, first);
      AloneTake(a, day, counters, NewsletterBytes, size);
      var fits := Take(a, NewsletterBytes, day, size);
      if !fits {
        RecordUse(a, Newsletters, day, -1);
        return false;
      }
      return true;
    }
  }
}
