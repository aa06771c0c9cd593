/** What a row of an interaction holds, said of the operations on it and not of the row before. */
module InteractionHistory {
  import opened Wrappers
  import opened Interactions

  /** The last value that one of the first n operations carries. */
  function Last<T>(ops: seq<Op>, n: nat, carried: Op -> Option<T>): Option<T>
    requires n <= |ops|
  {
    if n == 0 then None
    else if carried(ops[n - 1]).Some? then carried(ops[n - 1])
    else Last(ops, n - 1, carried)
  }

  /** The first one. */
  function First<T>(ops: seq<Op>, n: nat, carried: Op -> Option<T>): Option<T>
    requires n <= |ops|
  {
    if n == 0 then None
    else if First(ops, n - 1, carried).Some? then First(ops, n - 1, carried)
    else carried(ops[n - 1])
  }

  predicate Any(ops: seq<Op>, n: nat, holds: Op -> bool)
    requires n <= |ops|
  {
    exists k :: 0 <= k < n && holds(ops[k])
  }

  /** A post may carry a rating; the thumbs of an email are 1 and -1. */
  function Vote(op: Op): Option<int> {
    match op
    case Post(b, _) => b.rating
    case Email(Up, _) => Some(1)
    case Email(Down, _) => Some(-1)
    case Email(_, _) => None
  }

  /** Every post that does not skip opens the item; so do two of the four links of an email. */
  function Opening(op: Op): Option<int> {
    match op
    case Post(b, now) => if b.skipped then None else Some(now)
    case Email(Open, now) => Some(now)
    case Email(Up, now) => Some(now)
    case Email(_, _) => None
  }

  function Saving(op: Op): Option<int> {
    match op
    case Post(b, now) => if b.saved then Some(now) else None
    case Email(Save, now) => Some(now)
    case Email(_, _) => None
  }

  function Completion(op: Op): Option<real> { if op.Post? then op.body.completion else None }
  function TimeOnPage(op: Op): Option<int> { if op.Post? then op.body.timeOnPage else None }
  function ScrollDepth(op: Op): Option<real> { if op.Post? then op.body.scrollDepth else None }
  function ActiveTime(op: Op): Option<real> { if op.Post? then op.body.activeTime else None }
  function Reason(op: Op): Option<string> { if op.Post? then op.body.reason else None }
  predicate ReachesEnd(op: Op) { op.Post? && op.body.reachedEnd }
  predicate Skips(op: Op) { op.Post? && op.body.skipped }

  predicate Reads(op: Op, atLeast: real) {
    op.Post? && op.body.completion.Some? && op.body.completion.value >= atLeast
  }

  /** The first reading of a saved item; what the post that creates the row reads does not count. */
  function SavedReading(ops: seq<Op>, n: nat): Option<int>
    requires n <= |ops|
  {
    if n <= 1 then None
    else if SavedReading(ops, n - 1).Some? then SavedReading(ops, n - 1)
    else if Reads(ops[n - 1], 0.9) && First(ops, n, Saving).Some? then Some(ops[n - 1].now)
    else None
  }

  /** Complete readings after the one that creates the row, once the end was reached and more than five
      minutes after the first opening. */
  function Rereadings(ops: seq<Op>, n: nat): nat
    requires n <= |ops|
  {
    if n <= 1 then 0
    else
      var first := First(ops, n, Opening);
      var late := first.Some? ==> ops[n - 1].now - first.value > 300;
      Rereadings(ops, n - 1) + if Reads(ops[n - 1], 0.85) && Any(ops, n, ReachesEnd) && late then 1 else 0
  }

  function RowOf(ops: seq<Op>, n: nat): Row
    requires n <= |ops|
  {
    Row(Last(ops, n, Completion), Last(ops, n, TimeOnPage), Last(ops, n, ScrollDepth), Last(ops, n, ActiveTime),
        Any(ops, n, ReachesEnd), Rereadings(ops, n), Last(ops, n, Vote), Last(ops, n, Reason),
        First(ops, n, Saving).Some?, First(ops, n, Saving), SavedReading(ops, n), Any(ops, n, Skips),
        First(ops, n, Opening))
  }

  lemma SomeStep(ops: seq<Op>, n: nat, holds: Op -> bool)
    requires 0 < n <= |ops|
    ensures Any(ops, n, holds) <==> Any(ops, n - 1, holds) || holds(ops[n - 1])
  {
  }

  lemma FirstRow(ops: seq<Op>)
    requires ops != []
    ensures RowAfter(None, ops[0]) == RowOf(ops, 1)
  {
    assert First(ops, 0, Opening) == First(ops, 0, Saving) == None;
    assert Last(ops, 0, Completion) == Last(ops, 0, ScrollDepth) == None && Last(ops, 0, Reason) == None;
    assert Last(ops, 0, TimeOnPage) == Last(ops, 0, Vote) == None && Last(ops, 0, ActiveTime) == None;
  }

  lemma NextPost(ops: seq<Op>, n: nat)
    requires 0 < n < |ops| && ops[n].Post?
    ensures RowAfter(Some(RowOf(ops, n)), ops[n]) == RowOf(ops, n + 1)
  {
    var b, now, r, t := ops[n].body, ops[n].now, RowOf(ops, n), RowOf(ops, n + 1);
    SomeStep(ops, n + 1, ReachesEnd);
    SomeStep(ops, n + 1, Skips);
    var merged := WithMarks(WithTelemetry(r, b), b, now);
    assert merged.openedAt == t.openedAt && merged.savedAt == t.savedAt && merged.savedReadAt == t.savedReadAt;
    assert merged.(rereads := t.rereads) == t;
  }

  lemma NextEmail(ops: seq<Op>, n: nat)
    requires 0 < n < |ops| && ops[n].Email?
    ensures RowAfter(Some(RowOf(ops, n)), ops[n]) == RowOf(ops, n + 1)
  {
    SomeStep(ops, n + 1, ReachesEnd);
    SomeStep(ops, n + 1, Skips);
  }

  /** The stored row over any run of posts and email actions: readings, rating and reason are the last
      carried, the opening and the saving the first, and flags stay once set. */
  lemma {:induction false} RowIsHistory(ops: seq<Op>, n: nat)
    requires 0 < n <= |ops|
    ensures After(ops, n) == Some(RowOf(ops, n))
  {
    if n == 1 {
      FirstRow(ops);
    } else {
      RowIsHistory(ops, n - 1);
      if ops[n - 1].Post? { NextPost(ops, n - 1); } else { NextEmail(ops, n - 1); }
    }
  }

  // ------------------------------------------------------------------ events

  /** Which events a change of the row causes. */
  lemma StepEvents(before: Option<Row>, after: Row)
    ensures var es := EventsOf(before, after);
            && (ItemOpened in es <==> after.openedAt.Some? && !(before.Some? && before.value.openedAt.Some?))
            && (Saved in es <==> after.saved && !(before.Some? && before.value.saved))
            && (ItemFinished in es <==> AtLeast(after.completion, 0.7)
                                        && !(before.Some? && AtLeast(before.value.completion, 0.7)))
            && forall v: int :: Rating(v) in es <==>
                 after.rating == Some(v) && v != 0 && !(before.Some? && before.value.rating == Some(v))
  {
  }

  predicate AtLeast(completion: Option<real>, mark: real) {
    completion.Some? && completion.value >= mark
  }

  /** Which events operation n causes, by what the first n operations and it carry. */
  lemma EventsFollowHistory(ops: seq<Op>, n: nat)
    requires n < |ops|
    ensures var es := EventsOf(After(ops, n), RowAfter(After(ops, n), ops[n]));
            && (ItemOpened in es <==> First(ops, n, Opening).None? && Opening(ops[n]).Some?)
            && (Saved in es <==> First(ops, n, Saving).None? && Saving(ops[n]).Some?)
            && (ItemFinished in es <==> Reads(ops[n], 0.7) && !AtLeast(Last(ops, n, Completion), 0.7))
            && forall v: int :: Rating(v) in es <==>
                 Vote(ops[n]) == Some(v) && v != 0 && Last(ops, n, Vote) != Some(v)
  {
    var before, after := After(ops, n), RowAfter(After(ops, n), ops[n]);
    StepEvents(before, after);
    RowIsHistory(ops, n + 1);
    assert after == RowOf(ops, n + 1);
    if n > 0 {
      RowIsHistory(ops, n);
    }
  }

  /** How often one of the first n operations changes the last vote to v. */
  function NewVotes(ops: seq<Op>, n: nat, v: int): nat
    requires n <= |ops|
  {
    if n == 0 then 0
    else NewVotes(ops, n - 1, v) + if IsNewVote(ops, n - 1, v) then 1 else 0
  }

  /** A change of the row causes at most one rating event. */
  lemma StepRatings(before: Option<Row>, after: Row, v: int)
    ensures CountOf(EventsOf(before, after), Rating(v))
         == if && v != 0 && after.rating == Some(v) && !(before.Some? && before.value.rating == Some(v)) then 1 else 0
  {
    var a := if after.openedAt.Some? && !Opened(before) then [ItemOpened] else [];
    var b := if FinishedReading(Some(after)) && !FinishedReading(before) then [ItemFinished] else [];
    var c := if after.rating.Some? && after.rating.value != 0 && after.rating != RatingOf(before)
             then [Rating(after.rating.value)] else [];
    var d := if after.saved && !IsSaved(before) then [Saved] else [];
    forall x ensures CountOf([x], Rating(v)) == if x == Rating(v) then 1 else 0 {
      CountOne(x, Rating(v));
    }
    CountConcat(a + b + c, d, Rating(v));
    CountConcat(a + b, c, Rating(v));
    CountConcat(a, b, Rating(v));
  }

  /** The stored rating is the last vote. */
  lemma RatingIsLastVote(ops: seq<Op>, n: nat)
    requires n <= |ops|
    ensures RatingOf(After(ops, n)) == Last(ops, n, Vote)
  {
    if n > 0 {
      RowIsHistory(ops, n);
    }
  }

  predicate IsNewVote(ops: seq<Op>, n: nat, v: int)
    requires n < |ops|
  {
    Vote(ops[n]) == Some(v) && Last(ops, n, Vote) != Some(v)
  }

  /** What the next operation adds. */
  lemma NextRatings(ops: seq<Op>, n: nat, v: int)
    requires n < |ops|
    ensures CountOf(Events(ops, n + 1), Rating(v))
         == CountOf(Events(ops, n), Rating(v)) + if v != 0 && IsNewVote(ops, n, v) then 1 else 0
  {
    var before := After(ops, n);
    var after := RowAfter(before, ops[n]);
    CountConcat(Events(ops, n), EventsOf(before, after), Rating(v));
    StepRatings(before, after, v);
    RatingIsLastVote(ops, n);
    RatingIsLastVote(ops, n + 1);
    assert after.rating == Last(ops, n + 1, Vote);
  }

  lemma RatingsKept(ops: seq<Op>, n: nat, v: int, reported: nat)
    requires n < |ops| && reported == CountOf(Events(ops, n), Rating(v))
    requires reported == if v == 0 then 0 else NewVotes(ops, n, v)
    ensures CountOf(Events(ops, n + 1), Rating(v)) == if v == 0 then 0 else NewVotes(ops, n + 1, v)
  {
    NextRatings(ops, n, v);
  }

  /** Over any run a rating other than 0 is reported exactly as often as a vote changes the last one to it: an
      email thumb counts like a post, and a repeated vote or a withdrawn one is silent. */
  lemma {:induction false} RatingEventsAreNewVotes(ops: seq<Op>, n: nat, v: int)
    requires n <= |ops|
    ensures CountOf(Events(ops, n), Rating(v)) == if v == 0 then 0 else NewVotes(ops, n, v)
  {
    if n == 0 {
      assert Events(ops, 0) == [];
    } else {
      RatingEventsAreNewVotes(ops, n - 1, v);
      RatingsKept(ops, n - 1, v, CountOf(Events(ops, n - 1), Rating(v)));
    }
  }
}
