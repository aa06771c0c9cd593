/** The interaction of one user with one item: feedback posts, one-click email actions, and
    the product events and reason effects they cause. Times are whole seconds. */
module Interactions {
  import opened Wrappers
  import R = ReasonEffects

  const FINISHED := 0.7

  datatype Row = Row(
    completion: Option<real>, timeOnPage: Option<int>, scrollDepth: Option<real>, activeTime: Option<real>,
    reachedEnd: bool, rereads: int, rating: Option<int>, reason: Option<string>, saved: bool,
    savedAt: Option<int>, savedReadAt: Option<int>, skipped: bool, openedAt: Option<int>)

  datatype Body = Body(
    completion: Option<real>, timeOnPage: Option<int>, scrollDepth: Option<real>, activeTime: Option<real>,
    reachedEnd: bool, rating: Option<int>, reason: Option<string>, saved: bool, skipped: bool)

  datatype Action = Open | Up | Down | Save

  datatype Event = ItemOpened | ItemFinished | Rating(value: int) | Saved

  const EMPTY := Row(None, None, None, None, false, 0, None, None, false, None, None, false, None)

  function Either<T>(x: Option<T>, y: Option<T>): Option<T> {
    if x.Some? then x else y
  }

  // ------------------------------------------------------------------ the rows they leave

  /** The row a first post creates. */
  function Created(b: Body, now: int): Row {
    Row(b.completion, b.timeOnPage, b.scrollDepth, b.activeTime, b.reachedEnd, 0, b.rating, b.reason, b.saved,
        if b.saved then Some(now) else None, None, b.skipped, if b.skipped then None else Some(now))
  }

  /** Whether the update counts one more re-read; r is the row after the fields were merged. */
  predicate CountsReread(r: Row, b: Body, now: int) {
    && b.completion.Some? && b.completion.value >= 0.85
    && r.reachedEnd
    && (r.openedAt.Some? ==> now - r.openedAt.value > 300)
  }

  /** The fields a post overwrites when it carries them. */
  function WithTelemetry(r: Row, b: Body): Row {
    r.(completion := Either(b.completion, r.completion), timeOnPage := Either(b.timeOnPage, r.timeOnPage),
       scrollDepth := Either(b.scrollDepth, r.scrollDepth), activeTime := Either(b.activeTime, r.activeTime),
       reachedEnd := r.reachedEnd || b.reachedEnd, rating := Either(b.rating, r.rating),
       reason := Either(b.reason, r.reason))
  }

  /** The flags and timestamps, each timestamp only when it is not set. */
  function WithMarks(r: Row, b: Body, now: int): Row {
    var readNow := (r.saved || b.saved) && b.completion.Some? && b.completion.value >= 0.9;
    r.(saved := r.saved || b.saved, savedAt := if b.saved then Either(r.savedAt, Some(now)) else r.savedAt,
       skipped := r.skipped || b.skipped, openedAt := if b.skipped then r.openedAt else Either(r.openedAt, Some(now)),
       savedReadAt := if readNow then Either(r.savedReadAt, Some(now)) else r.savedReadAt)
  }

  function Updated(r: Row, b: Body, now: int): Row {
    var merged := WithMarks(WithTelemetry(r, b), b, now);
    merged.(rereads := merged.rereads + if CountsReread(merged, b, now) then 1 else 0)
  }

  function Posted(row: Option<Row>, b: Body, now: int): Row {
    if row.Some? then Updated(row.value, b, now) else Created(b, now)
  }

  function Emailed(row: Option<Row>, action: Action, now: int): Row {
    var r := if row.Some? then row.value else EMPTY;
    match action
    case Open => r.(openedAt := Either(r.openedAt, Some(now)))
    case Up => r.(rating := Some(1), openedAt := Either(r.openedAt, Some(now)))
    case Down => r.(rating := Some(-1))
    case Save => r.(saved := true, savedAt := Either(r.savedAt, Some(now)))
  }

  // ------------------------------------------------------------------ events and effects

  predicate Opened(row: Option<Row>) {
    row.Some? && row.value.openedAt.Some?
  }

  predicate FinishedReading(row: Option<Row>) {
    row.Some? && row.value.completion.Some? && row.value.completion.value >= FINISHED
  }

  predicate IsSaved(row: Option<Row>) {
    row.Some? && row.value.saved
  }

  function RatingOf(row: Option<Row>): Option<int> {
    if row.Some? then row.value.rating else None
  }

  function ReasonOf(row: Option<Row>): Option<string> {
    if row.Some? then row.value.reason else None
  }

  /** interaction_events */
  function EventsOf(before: Option<Row>, after: Row): seq<Event> {
    (if after.openedAt.Some? && !Opened(before) then [ItemOpened] else [])
    + (if FinishedReading(Some(after)) && !FinishedReading(before) then [ItemFinished] else [])
    + (if after.rating.Some? && after.rating.value != 0 && after.rating != RatingOf(before)
       then [Rating(after.rating.value)] else [])
    + (if after.saved && !IsSaved(before) then [Saved] else [])
  }

  /** The reason whose effects a post applies, if any. */
  function EffectOf(before: Option<Row>, b: Body): seq<string> {
    if b.reason.Some? && b.reason != ReasonOf(before) then [b.reason.value] else []
  }

  // ------------------------------------------------------------------ the handlers

  /** The database row, updated field by field. */
  class Interaction {
    var completion: Option<real>
    var timeOnPage: Option<int>
    var scrollDepth: Option<real>
    var activeTime: Option<real>
    var reachedEnd: bool
    var rereads: int
    var rating: Option<int>
    var reason: Option<string>
    var saved: bool
    var savedAt: Option<int>
    var savedReadAt: Option<int>
    var skipped: bool
    var openedAt: Option<int>

    function State(): Row
      reads this
    {
      Row(completion, timeOnPage, scrollDepth, activeTime, reachedEnd, rereads, rating, reason, saved,
          savedAt, savedReadAt, skipped, openedAt)
    }

    constructor (r: Row)
      ensures State() == r
    {
      completion, timeOnPage, scrollDepth, activeTime := r.completion, r.timeOnPage, r.scrollDepth, r.activeTime;
      reachedEnd, rereads, rating, reason := r.reachedEnd, r.rereads, r.rating, r.reason;
      saved, savedAt, savedReadAt, skipped, openedAt := r.saved, r.savedAt, r.savedReadAt, r.skipped, r.openedAt;
    }

    method MergeTelemetry(b: Body)
      modifies this
      ensures State() == WithTelemetry(old(State()), b)
    {
      MergeReading(b);
      if b.rating.Some? { rating := b.rating; }
      if b.reason.Some? { reason := b.reason; }
    }

    method MergeReading(b: Body)
      modifies this
      ensures State() == WithTelemetry(old(State()), b.(rating := None, reason := None))
    {
      if b.completion.Some? { completion := b.completion; }
      if b.timeOnPage.Some? { timeOnPage := b.timeOnPage; }
      if b.scrollDepth.Some? { scrollDepth := b.scrollDepth; }
      if b.activeTime.Some? { activeTime := b.activeTime; }
      if b.reachedEnd { reachedEnd := true; }
    }

    method SetMarks(b: Body, now: int)
      modifies this
      ensures State() == WithMarks(old(State()), b, now)
    {
      if b.saved {
        saved := true;
        if savedAt.None? { savedAt := Some(now); }
      }
      if b.skipped { skipped := true; }
      if openedAt.None? && !b.skipped { openedAt := Some(now); }
      if saved && b.completion.Some? && b.completion.value >= 0.9 && savedReadAt.None? {
        savedReadAt := Some(now);
      }
    }

    /** The update branch of record_interaction. */
    method Update(b: Body, now: int)
      modifies this
      ensures State() == Updated(old(State()), b, now)
    {
      MergeTelemetry(b);
      SetMarks(b, now);
      if && b.completion.Some? && b.completion.value >= 0.85
         && completion.Some? && completion.value >= 0.85
         && (reachedEnd || b.reachedEnd)
         && (openedAt.None? || now - openedAt.value > 300) {
        rereads := rereads + 1;
      }
    }

    method Act(action: Action, now: int)
      modifies this
      ensures State() == Emailed(Some(old(State())), action, now)
    {
      match action
      case Open =>
        if openedAt.None? { openedAt := Some(now); }
      case Up =>
        rating := Some(1);
        if openedAt.None? { openedAt := Some(now); }
      case Down =>
        rating := Some(-1);
      case Save =>
        saved := true;
        if savedAt.None? { savedAt := Some(now); }
    }
  }

  /** Both endpoints over one row, with the events and reason effects they record and the
      weights these effects change. */
  class Endpoint {
    var interaction: Interaction?
    var events: seq<Event>
    var effects: seq<string>
    const user: int
    const item: R.Item
    const preferences: R.Preferences

    function Stored(): Option<Row>
      reads this, interaction
    {
      if interaction == null then None else Some(interaction.State())
    }

    constructor (user: int, item: R.Item, preferences: R.Preferences)
      ensures Stored() == None && events == [] && effects == []
      ensures this.user == user && this.item == item && this.preferences == preferences
    {
      interaction := null;
      events, effects := [], [];
      this.user, this.item, this.preferences := user, item, preferences;
    }

    /** Reason effects, only when the stored reason changes. */
    method ApplyReason(before: Option<Row>, b: Body)
      modifies this`effects, preferences
      ensures effects == old(effects) + EffectOf(before, b)
      ensures preferences.State() == R.AppliedAll(old(preferences.State()), user, item, EffectOf(before, b))
    {
      if b.reason.Some? && b.reason != ReasonOf(before) {
        preferences.ApplyReasonEffects(user, item, b.reason.value);
        effects := effects + [b.reason.value];
        assert [b.reason.value][..0] == [];
      }
    }

    method RecordInteraction(b: Body, now: int)
      modifies this, interaction, preferences
      ensures Stored() == Some(Posted(old(Stored()), b, now))
      ensures events == old(events) + EventsOf(old(Stored()), Posted(old(Stored()), b, now))
      ensures effects == old(effects) + EffectOf(old(Stored()), b)
      ensures preferences.State()
           == R.AppliedAll(old(preferences.State()), user, item, EffectOf(old(Stored()), b))
    {
      var before := Stored();
      if interaction != null {
        interaction.Update(b, now);
      } else {
        interaction := new Interaction(Created(b, now));
      }
      ApplyReason(before, b);
      events := events + EventsOf(before, interaction.State());
    }

    method RecordEmailAction(action: Action, now: int)
      modifies this, interaction
      ensures Stored() == Some(Emailed(old(Stored()), action, now))
      ensures events == old(events) + EventsOf(old(Stored()), Emailed(old(Stored()), action, now))
      ensures effects == old(effects)
    {
      var before := Stored();
      if interaction == null {
        interaction := new Interaction(EMPTY);
      }
      interaction.Act(action, now);
      events := events + EventsOf(before, interaction.State());
    }
  }

  // ------------------------------------------------------------------ whole runs

  datatype Op = Post(body: Body, now: int) | Email(action: Action, now: int)

  function RowAfter(row: Option<Row>, op: Op): Row {
    match op
    case Post(b, now) => Posted(row, b, now)
    case Email(a, now) => Emailed(row, a, now)
  }

  function StepEffects(row: Option<Row>, op: Op): seq<string> {
    if op.Post? then EffectOf(row, op.body) else []
  }

  /** The stored row after the first n operations on a new item. */
  function After(ops: seq<Op>, n: nat): Option<Row>
    requires n <= |ops|
  {
    if n == 0 then None else Some(RowAfter(After(ops, n - 1), ops[n - 1]))
  }

  function Events(ops: seq<Op>, n: nat): seq<Event>
    requires n <= |ops|
  {
    if n == 0 then []
    else Events(ops, n - 1) + EventsOf(After(ops, n - 1), RowAfter(After(ops, n - 1), ops[n - 1]))
  }

  function Effects(ops: seq<Op>, n: nat): seq<string>
    requires n <= |ops|
  {
    if n == 0 then [] else Effects(ops, n - 1) + StepEffects(After(ops, n - 1), ops[n - 1])
  }

  predicate Kept<T(==)>(x: Option<T>, y: Option<T>) {
    x.Some? ==> y == x
  }

  /** A step never changes a timestamp that is set, and never unsets a flag. */
  lemma StepWritesOnce(row: Row, op: Op)
    ensures var r := RowAfter(Some(row), op);
            && Kept(row.openedAt, r.openedAt) && Kept(row.savedAt, r.savedAt) && Kept(row.savedReadAt, r.savedReadAt)
            && (row.saved ==> r.saved) && (row.skipped ==> r.skipped) && (row.reachedEnd ==> r.reachedEnd)
            && row.rereads <= r.rereads
  {
  }

  /** opened_at, saved_at and saved_read_at are write-once over any run of both writers. */
  lemma {:induction false} WriteOnce(ops: seq<Op>, m: nat, n: nat)
    requires 0 < m <= n <= |ops|
    ensures var r, s := After(ops, m).value, After(ops, n).value;
            && Kept(r.openedAt, s.openedAt) && Kept(r.savedAt, s.savedAt) && Kept(r.savedReadAt, s.savedReadAt)
            && (r.saved ==> s.saved) && r.rereads <= s.rereads
    decreases n - m
  {
    if m < n {
      WriteOnce(ops, m, n - 1);
      StepWritesOnce(After(ops, n - 1).value, ops[n - 1]);
    }
  }

  lemma StepKeepsSaved(row: Option<Row>, op: Op)
    requires row.Some? ==> (row.value.saved <==> row.value.savedAt.Some?)
    ensures var r := RowAfter(row, op); r.saved <==> r.savedAt.Some?
  {
  }

  /** saved is set exactly when saved_at is. */
  lemma {:induction false} SavedHasTime(ops: seq<Op>, n: nat)
    requires n <= |ops|
    ensures After(ops, n).Some? ==> (After(ops, n).value.saved <==> After(ops, n).value.savedAt.Some?)
  {
    if n > 0 {
      SavedHasTime(ops, n - 1);
      StepKeepsSaved(After(ops, n - 1), ops[n - 1]);
    }
  }

  function CountOf(events: seq<Event>, e: Event): nat {
    if events == [] then 0 else (if events[0] == e then 1 else 0) + CountOf(events[1..], e)
  }

  lemma {:induction false} CountConcat(a: seq<Event>, b: seq<Event>, e: Event)
    ensures CountOf(a + b, e) == CountOf(a, e) + CountOf(b, e)
  {
    if a == [] {
      assert a + b == b;
    } else {
      CountConcat(a[1..], b, e);
      assert (a + b)[1..] == a[1..] + b;
    }
  }

  lemma CountOne(x: Event, e: Event)
    ensures CountOf([x], e) == if x == e then 1 else 0
  {
    assert [x][1..] == [];
  }

  /** How often each transition event is in one batch. */
  lemma StepCounts(before: Option<Row>, after: Row)
    ensures var es := EventsOf(before, after);
            && CountOf(es, ItemOpened) == (if after.openedAt.Some? && !Opened(before) then 1 else 0)
            && CountOf(es, ItemFinished) == (if FinishedReading(Some(after)) && !FinishedReading(before) then 1 else 0)
            && CountOf(es, Saved) == (if after.saved && !IsSaved(before) then 1 else 0)
  {
    var a := if after.openedAt.Some? && !Opened(before) then [ItemOpened] else [];
    var b := if FinishedReading(Some(after)) && !FinishedReading(before) then [ItemFinished] else [];
    var c := if after.rating.Some? && after.rating.value != 0 && after.rating != RatingOf(before)
             then [Rating(after.rating.value)] else [];
    var d := if after.saved && !IsSaved(before) then [Saved] else [];
    forall x, e ensures CountOf([x], e) == if x == e then 1 else 0 {
      CountOne(x, e);
    }
    forall e ensures CountOf(a + b + c + d, e) == CountOf(a, e) + CountOf(b, e) + CountOf(c, e) + CountOf(d, e) {
      CountConcat(a + b + c, d, e);
      CountConcat(a + b, c, e);
      CountConcat(a, b, e);
    }
  }

  lemma AppendCounts(es: seq<Event>, before: Option<Row>, after: Row)
    ensures var all := es + EventsOf(before, after);
            && CountOf(all, ItemOpened)
               == CountOf(es, ItemOpened) + (if after.openedAt.Some? && !Opened(before) then 1 else 0)
            && CountOf(all, ItemFinished)
               == CountOf(es, ItemFinished)
                  + (if FinishedReading(Some(after)) && !FinishedReading(before) then 1 else 0)
            && CountOf(all, Saved) == CountOf(es, Saved) + (if after.saved && !IsSaved(before) then 1 else 0)
  {
    StepCounts(before, after);
    forall e ensures CountOf(es + EventsOf(before, after), e) == CountOf(es, e) + CountOf(EventsOf(before, after), e) {
      CountConcat(es, EventsOf(before, after), e);
    }
  }

  /** Steps among the first n at which the completion fell below the finished mark. */
  function Drops(ops: seq<Op>, n: nat): nat
    requires n <= |ops|
  {
    if n == 0 then 0
    else Drops(ops, n - 1) + if FinishedReading(After(ops, n - 1)) && !FinishedReading(After(ops, n)) then 1 else 0
  }

  /** The events so far match the stored row. */
  predicate Counted(es: seq<Event>, row: Option<Row>, drops: nat) {
    && CountOf(es, ItemOpened) == (if Opened(row) then 1 else 0)
    && CountOf(es, Saved) == (if IsSaved(row) then 1 else 0)
    && CountOf(es, ItemFinished) == drops + if FinishedReading(row) then 1 else 0
  }

  lemma StepKeepsCounted(es: seq<Event>, before: Option<Row>, op: Op, after: Row, drops: nat)
    requires Counted(es, before, drops) && after == RowAfter(before, op)
    ensures Counted(es + EventsOf(before, after), Some(after),
                    drops + if FinishedReading(before) && !FinishedReading(Some(after)) then 1 else 0)
  {
    AppendCounts(es, before, after);
    if before.Some? {
      StepWritesOnce(before.value, op);
    }
  }

  /** item_opened and save fire once, at the moment the field is first set, and never again;
      item_finished fires once per upward crossing: as often as the completion fell below the
      mark again, plus one when it is above it now. */
  lemma {:induction false} EventsCountTransitions(ops: seq<Op>, n: nat)
    requires n <= |ops|
    ensures Counted(Events(ops, n), After(ops, n), Drops(ops, n))
  {
    if n > 0 {
      EventsCountTransitions(ops, n - 1);
      var before := After(ops, n - 1);
      StepKeepsCounted(Events(ops, n - 1), before, ops[n - 1], RowAfter(before, ops[n - 1]), Drops(ops, n - 1));
    }
  }

  /** Reason effects fire exactly when the stored reason changes, with the new reason. */
  lemma EffectsFollowReason(row: Option<Row>, op: Op)
    ensures var after := RowAfter(row, op).reason;
            StepEffects(row, op) == if after != ReasonOf(row) then [after.value] else []
  {
  }

  /** Over a run, no two effects in a row are for the same reason, and the stored reason is
      that of the last effect. */
  lemma {:induction false} StoredReasonIsLastEffect(ops: seq<Op>, n: nat)
    requires n <= |ops|
    ensures var es := Effects(ops, n);
            && ReasonOf(After(ops, n)) == (if es == [] then None else Some(es[|es| - 1]))
            && forall i :: 0 < i < |es| ==> es[i] != es[i - 1]
  {
    if n > 0 {
      StoredReasonIsLastEffect(ops, n - 1);
      EffectsFollowReason(After(ops, n - 1), ops[n - 1]);
    }
  }

  /** The weights after the first n operations, applied operation by operation. */
  function WeightsAfter(w: R.Weights, user: int, item: R.Item, ops: seq<Op>, n: nat): R.Weights
    requires n <= |ops|
  {
    if n == 0 then w
    else R.AppliedAll(WeightsAfter(w, user, item, ops, n - 1), user, item, StepEffects(After(ops, n - 1), ops[n - 1]))
  }

  lemma WeightsStep(w: R.Weights, user: int, item: R.Item, ops: seq<Op>, n: nat, before: seq<string>, es: seq<string>)
    requires 0 < n <= |ops| && es == before + StepEffects(After(ops, n - 1), ops[n - 1])
    requires WeightsAfter(w, user, item, ops, n - 1) == R.AppliedAll(w, user, item, before)
    ensures WeightsAfter(w, user, item, ops, n) == R.AppliedAll(w, user, item, es)
  {
    R.AppliedConcat(w, user, item, before, StepEffects(After(ops, n - 1), ops[n - 1]));
  }

  /** The weights are those of the reason effects recorded, in order. */
  lemma {:induction false} RunAppliesEffects(w: R.Weights, user: int, item: R.Item, ops: seq<Op>, n: nat,
                                             es: seq<string>)
    requires n <= |ops| && es == Effects(ops, n)
    ensures WeightsAfter(w, user, item, ops, n) == R.AppliedAll(w, user, item, es)
  {
    if n > 0 {
      var before := Effects(ops, n - 1);
      RunAppliesEffects(w, user, item, ops, n - 1, before);
      WeightsStep(w, user, item, ops, n, before, es);
    }
  }

  /** Over a run, the item's main topic and its source have lost exactly the sum of the nudges of the
      reasons that changed the stored one, stopping at 0; repeats, email actions and everything else
      cost nothing, and no other node or source is touched. */
  lemma RunLowersWeights(w: R.Weights, user: int, item: R.Item, ops: seq<Op>, n: nat)
    requires n <= |ops| && R.InRange(w)
    ensures var r, es := WeightsAfter(w, user, item, ops, n), Effects(ops, n);
            && R.InRange(r) && |r.nodes| == |w.nodes| && r.trust.Keys == w.trust.Keys
            && (forall i :: 0 <= i < |w.nodes| ==>
                  r.nodes[i] == R.NodeLowered(w.nodes[i], user, item, R.Total(R.ClusterDelta, es)))
            && (forall k :: k in w.trust ==>
                  r.trust[k] == R.TrustLowered(w.trust[k], k, item, R.Total(R.TrustDelta, es)))
  {
    RunAppliesEffects(w, user, item, ops, n, Effects(ops, n));
    R.NudgesAddUp(w, user, item, Effects(ops, n));
  }

  /** Sending the same request again, at any later time, causes no event and no effect. */
  lemma RetryIsSilent(row: Option<Row>, op: Op, again: Op)
    requires again == op.(now := again.now)
    ensures var once := RowAfter(row, op);
            && EventsOf(Some(once), RowAfter(Some(once), again)) == []
            && StepEffects(Some(once), again) == []
  {
  }

  // ------------------------------------------------------------------ re-reads

  /** The update adds a re-read on a high completion of an item whose end was reached, more than
      five minutes after it was first opened; the earlier completion plays no part in it. */
  lemma RereadsCounted(r: Row, b: Body, now: int)
    ensures Updated(r, b, now).rereads == r.rereads + 1
       <==> && b.completion.Some? && b.completion.value >= 0.85 && (r.reachedEnd || b.reachedEnd)
            && (if r.openedAt.Some? then now - r.openedAt.value > 300 else b.skipped)
    ensures Updated(r, b, now).rereads == r.rereads || Updated(r, b, now).rereads == r.rereads + 1
  {
  }

  /** The stored completion has reached the mark of a complete reading. */
  predicate Completed(row: Option<Row>) {
    row.Some? && row.value.completion.Some? && row.value.completion.value >= 0.85
  }

  /** ... at some time during the first n operations. */
  predicate EverCompleted(ops: seq<Op>, n: nat)
    requires n <= |ops|
  {
    Completed(After(ops, n)) || (n > 0 && EverCompleted(ops, n - 1))
  }

  predicate Counts(r: Row, b: Body, now: int) {
    Updated(r, b, now).rereads == r.rereads + 1
  }

  /** What the comment on the counter intends: a post that counts is made after a complete reading. */
  ghost predicate CountsGenuinely(ops: seq<Op>, n: nat)
    requires 0 < n <= |ops|
  {
    forall b, now :: Counts(After(ops, n).value, b, now) ==> EverCompleted(ops, n)
  }

  /** Whatever a row holds, some post counts on it. */
  lemma SomePostCounts(r: Row) returns (b: Body, now: int)
    ensures Counts(r, b, now)
  {
    b := Body(Some(1.0), None, None, None, true, None, None, false, r.openedAt.None?);
    now := if r.openedAt.Some? then r.openedAt.value + 301 else 0;
    RereadsCounted(r, b, now);
  }

  /** On an item with a row, counted re-reads follow an earlier complete reading exactly when there has been
      one: the counter itself does not look. */
  lemma GenuineExactly(ops: seq<Op>, n: nat)
    requires 0 < n <= |ops|
    ensures CountsGenuinely(ops, n) <==> EverCompleted(ops, n)
  {
    if CountsGenuinely(ops, n) {
      var b, now := SomePostCounts(After(ops, n).value);
      assert Counts(After(ops, n).value, b, now);
    }
  }

  /** So a first complete reading is counted as a re-read when the item had been opened before. */
  lemma FirstReadingCountedAsReread()
    ensures var opening := Body(Some(0.1), None, None, None, false, None, None, false, false);
            var reading := Body(Some(1.0), None, None, None, true, None, None, false, false);
            var ops := [Post(opening, 0), Post(reading, 600)];
            && After(ops, 1).value.completion == Some(0.1) && !After(ops, 1).value.reachedEnd
            && After(ops, 2).value.rereads == 1
  {
    var opening := Body(Some(0.1), None, None, None, false, None, None, false, false);
    var reading := Body(Some(1.0), None, None, None, true, None, None, false, false);
    var ops := [Post(opening, 0), Post(reading, 600)];
    assert After(ops, 0) == None;
    assert After(ops, 1) == Some(Created(opening, 0));
    assert After(ops, 2) == Some(Updated(Created(opening, 0), reading, 600));
  }
}
