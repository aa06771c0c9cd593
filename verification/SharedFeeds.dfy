/** Migration 0025 (one feed row per distinct feed key) and its preview, feeds_plan.plan. */
module SharedFeeds {
  import opened Wrappers
  import opened StableSort

  /** The poll columns that are copied as they are. */
  datatype Poll = Poll(
    lastFetched: Option<int>, etag: Option<string>, lastModified: Option<string>, nextPoll: Option<int>,
    gaps: Option<string>, failureSince: Option<int>, lastErrorAt: Option<int>, lastError: Option<string>)

  datatype Source = Source(
    id: int, userId: int, url: string, feedUrl: Option<string>, sourceType: Option<string>, poll: Poll,
    pollInterval: Option<int>, status: Option<string>, errorCount: Option<int>, backfillDone: Option<bool>)

  datatype Feed = Feed(
    id: int, key: string, url: string, feedUrl: Option<string>, sourceType: Option<string>, isActive: bool, poll: Poll,
    pollInterval: int, status: string, deadNotice: bool, errorCount: int, backfillDone: bool)

  datatype Item = Item(id: int, sourceId: Option<int>, owner: Option<int>)

  function Coalesce<T>(x: Option<T>, default: T): T {
    if x.Some? then x.value else default
  }

  function KeyOf(s: Source): string {
    Coalesce(s.feedUrl, s.url)
  }

  /** source_type IS DISTINCT FROM 'newsletter': NULL counts as a feed. */
  predicate IsFeed(s: Source) {
    s.sourceType != Some("newsletter")
  }

  function FeedFrom(s: Source, id: int): Feed {
    Feed(id, KeyOf(s), s.url, s.feedUrl, s.sourceType, true, s.poll, Coalesce(s.pollInterval, 3600),
         Coalesce(s.status, "healthy"), false, Coalesce(s.errorCount, 0), Coalesce(s.backfillDone, true))
  }

  /** ORDER BY last_fetched_at DESC NULLS LAST: x comes before y. */
  predicate Later(x: Option<int>, y: Option<int>) {
    x.Some? && (y.Some? ==> x.value > y.value)
  }

  /** s is a subscriber of its key with the latest fetch; which one of several is left open. */
  ghost predicate Latest(sources: seq<Source>, s: Source) {
    && s in sources && IsFeed(s)
    && forall t :: t in sources && IsFeed(t) && KeyOf(t) == KeyOf(s) ==> !Later(t.poll.lastFetched, s.poll.lastFetched)
  }

  // ------------------------------------------------------------------ the preview

  function Subscribers(sources: seq<Source>, key: string): nat {
    if sources == [] then 0
    else (if IsFeed(sources[0]) && KeyOf(sources[0]) == key then 1 else 0) + Subscribers(sources[1..], key)
  }

  /** The distinct keys, GROUP BY 1. */
  function Keys(sources: seq<Source>): seq<string> {
    if sources == [] then []
    else
      var rest := Keys(sources[1..]);
      if IsFeed(sources[0]) && KeyOf(sources[0]) !in rest then [KeyOf(sources[0])] + rest else rest
  }

  type Group = (string, nat)

  function Groups(sources: seq<Source>, keys: seq<string>): (groups: seq<Group>)
    ensures |groups| == |keys|
    ensures forall i :: 0 <= i < |keys| ==> groups[i] == (keys[i], Subscribers(sources, keys[i]))
  {
    seq(|keys|, i requires 0 <= i < |keys| => (keys[i], Subscribers(sources, keys[i])))
  }

  /** The text order of the database, whatever its collation. */
  type Collation = (string, string) -> bool

  ghost predicate TotalOrder(le: Collation) {
    && (forall x, y :: le(x, y) || le(y, x))
    && (forall x, y :: le(x, y) && le(y, x) ==> x == y)
    && (forall x, y, z :: le(x, y) && le(y, z) ==> le(x, z))
  }

  /** ORDER BY 2 DESC, 1: g may stand before h. */
  predicate Precedes(le: Collation, g: Group, h: Group) {
    g.1 > h.1 || (g.1 == h.1 && le(g.0, h.0))
  }

  ghost predicate InPlanOrder(le: Collation, groups: seq<Group>) {
    forall i, j :: 0 <= i < j < |groups| ==> Precedes(le, groups[i], groups[j])
  }

  function InsertGroup(le: Collation, g: Group, groups: seq<Group>): seq<Group> {
    if groups == [] || Precedes(le, g, groups[0]) then [g] + groups else [groups[0]] + InsertGroup(le, g, groups[1..])
  }

  function OrderGroups(le: Collation, groups: seq<Group>): seq<Group> {
    if groups == [] then [] else InsertGroup(le, groups[0], OrderGroups(le, groups[1..]))
  }

  /** feeds_plan.plan: the groups, most subscribers first, equal counts by key. */
  function Plan(le: Collation, sources: seq<Source>): seq<Group> {
    OrderGroups(le, Groups(sources, Keys(sources)))
  }

  lemma {:induction false} InsertKeepsGroups(le: Collation, g: Group, groups: seq<Group>)
    ensures multiset(InsertGroup(le, g, groups)) == multiset{g} + multiset(groups)
  {
    if groups != [] && !Precedes(le, g, groups[0]) {
      InsertKeepsGroups(le, g, groups[1..]);
      assert groups == [groups[0]] + groups[1..];
    }
  }

  lemma {:induction false} InsertOrders(le: Collation, g: Group, groups: seq<Group>)
    requires TotalOrder(le) && InPlanOrder(le, groups)
    ensures InPlanOrder(le, InsertGroup(le, g, groups))
  {
    if groups == [] || Precedes(le, g, groups[0]) {
      forall k | 0 <= k < |groups| ensures Precedes(le, g, groups[k]) {
        FirstPrecedes(le, groups, groups[k]);
      }
    } else {
      InsertOrders(le, g, groups[1..]);
      InsertKeepsGroups(le, g, groups[1..]);
      var rest := InsertGroup(le, g, groups[1..]);
      forall k | 0 <= k < |rest| ensures Precedes(le, groups[0], rest[k]) {
        assert rest[k] in multiset{g} + multiset(groups[1..]);
        if rest[k] != g {
          FirstPrecedes(le, groups, rest[k]);
        }
      }
    }
  }

  lemma FirstPrecedes(le: Collation, groups: seq<Group>, g: Group)
    requires TotalOrder(le) && InPlanOrder(le, groups) && g in groups
    ensures Precedes(le, groups[0], g)
  {
    var k :| 0 <= k < |groups| && groups[k] == g;
    assert k == 0 || Precedes(le, groups[0], groups[k]);
  }

  lemma {:induction false} OrderOrders(le: Collation, groups: seq<Group>)
    requires TotalOrder(le)
    ensures InPlanOrder(le, OrderGroups(le, groups)) && multiset(OrderGroups(le, groups)) == multiset(groups)
    ensures |OrderGroups(le, groups)| == |groups|
  {
    if groups != [] {
      OrderOrders(le, groups[1..]);
      InsertOrders(le, groups[0], OrderGroups(le, groups[1..]));
      InsertKeepsGroups(le, groups[0], OrderGroups(le, groups[1..]));
      assert groups == [groups[0]] + groups[1..];
    }
    assert |multiset(OrderGroups(le, groups))| == |multiset(groups)|;
  }

  lemma SameFirst(le: Collation, a: seq<Group>, b: seq<Group>)
    requires TotalOrder(le) && InPlanOrder(le, a) && InPlanOrder(le, b) && multiset(a) == multiset(b)
    requires a != [] && b != []
    ensures a[0] == b[0]
  {
    assert a[0] in multiset(b) && b[0] in multiset(a);
    FirstPrecedes(le, a, b[0]);
    FirstPrecedes(le, b, a[0]);
  }

  /** ORDER BY 2 DESC, 1 leaves one possible answer: groups of different keys have one order. */
  lemma {:induction false} PlanOrderUnique(le: Collation, a: seq<Group>, b: seq<Group>)
    requires TotalOrder(le) && InPlanOrder(le, a) && InPlanOrder(le, b) && multiset(a) == multiset(b)
    ensures a == b
  {
    if a == [] {
      assert |multiset(b)| == 0;
    } else {
      assert |multiset(a)| == |multiset(b)|;
      SameFirst(le, a, b);
      MultisetOfTail(a);
      MultisetOfTail(b);
      PlanOrderUnique(le, a[1..], b[1..]);
      assert a == [a[0]] + a[1..] && b == [b[0]] + b[1..];
    }
  }

  lemma {:induction false} KeysMembers(sources: seq<Source>)
    ensures Distinct(Keys(sources))
    ensures forall key :: key in Keys(sources) <==> exists s :: s in sources && IsFeed(s) && KeyOf(s) == key
  {
    if sources != [] {
      KeysMembers(sources[1..]);
      var rest := Keys(sources[1..]);
      forall key ensures key in Keys(sources) <==> exists s :: s in sources && IsFeed(s) && KeyOf(s) == key {
        if IsFeed(sources[0]) && KeyOf(sources[0]) == key {
          assert sources[0] in sources;
        } else if key in rest {
          var s :| s in sources[1..] && IsFeed(s) && KeyOf(s) == key;
          assert s in sources;
        } else {
          assert forall s :: s in sources ==> s == sources[0] || s in sources[1..];
        }
      }
    }
  }

  function CountFeeds(sources: seq<Source>): nat {
    if sources == [] then 0 else (if IsFeed(sources[0]) then 1 else 0) + CountFeeds(sources[1..])
  }

  function TotalOver(sources: seq<Source>, keys: seq<string>): nat {
    if keys == [] then 0 else Subscribers(sources, keys[0]) + TotalOver(sources, keys[1..])
  }

  lemma {:induction false} TotalWithout(sources: seq<Source>, keys: seq<string>)
    requires sources != []
    requires !IsFeed(sources[0]) || KeyOf(sources[0]) !in keys
    ensures TotalOver(sources, keys) == TotalOver(sources[1..], keys)
  {
    if keys != [] {
      TotalWithout(sources, keys[1..]);
    }
  }

  lemma {:induction false} TotalWith(sources: seq<Source>, keys: seq<string>)
    requires sources != [] && IsFeed(sources[0]) && Distinct(keys) && KeyOf(sources[0]) in keys
    ensures TotalOver(sources, keys) == 1 + TotalOver(sources[1..], keys)
  {
    if keys[0] == KeyOf(sources[0]) {
      TotalWithout(sources, keys[1..]);
    } else {
      TotalWith(sources, keys[1..]);
    }
  }

  lemma {:induction false} NoSubscribers(sources: seq<Source>, key: string)
    requires key !in Keys(sources)
    ensures Subscribers(sources, key) == 0
  {
    if sources != [] {
      NoSubscribers(sources[1..], key);
    }
  }

  /** Every subscription is in exactly one group of the plan. */
  lemma {:induction false} PlanCountsAll(sources: seq<Source>)
    ensures TotalOver(sources, Keys(sources)) == CountFeeds(sources)
  {
    if sources != [] {
      PlanCountsAll(sources[1..]);
      KeysMembers(sources[1..]);
      var rest, key := Keys(sources[1..]), KeyOf(sources[0]);
      if !IsFeed(sources[0]) {
        TotalWithout(sources, rest);
      } else if key in rest {
        TotalWith(sources, rest);
      } else {
        TotalWithout(sources, rest);
        NoSubscribers(sources[1..], key);
      }
    }
  }

  // ------------------------------------------------------------------ what the migration leaves

  function FeedWithKey(feeds: seq<Feed>, key: string): Option<int> {
    if feeds == [] then None
    else if feeds[0].key == key then Some(feeds[0].id)
    else FeedWithKey(feeds[1..], key)
  }

  ghost predicate UniqueIds(sources: seq<Source>) {
    forall i, j :: 0 <= i < j < |sources| ==> sources[i].id != sources[j].id
  }

  ghost predicate UniqueItems(items: seq<Item>) {
    forall i, j :: 0 <= i < j < |items| ==> items[i].id != items[j].id
  }

  ghost predicate DistinctFeeds(feeds: seq<Feed>) {
    forall i, j :: 0 <= i < j < |feeds| ==> feeds[i].id != feeds[j].id && feeds[i].key != feeds[j].key
  }

  /** The feed's columns come from s, a latest subscriber of its key. */
  ghost predicate TakenFrom(sources: seq<Source>, feed: Feed, s: Source) {
    Latest(sources, s) && feed == FeedFrom(s, feed.id)
  }

  ghost predicate HasOrigin(sources: seq<Source>, feed: Feed) {
    exists s :: TakenFrom(sources, feed, s)
  }

  ghost predicate HasKey(feeds: seq<Feed>, key: string) {
    exists i :: 0 <= i < |feeds| && feeds[i].key == key
  }

  ghost predicate FeedsOf(sources: seq<Source>, feeds: seq<Feed>) {
    && DistinctFeeds(feeds)
    && (forall i :: 0 <= i < |feeds| ==> HasOrigin(sources, feeds[i]))
    && (forall s :: s in sources && IsFeed(s) ==> HasKey(feeds, KeyOf(s)))
  }

  /** Exactly the non-newsletter sources point at a feed: the one with their key. */
  ghost predicate SourcesPoint(sources: seq<Source>, feeds: seq<Feed>, sourceFeed: map<int, int>) {
    && (forall id :: id in sourceFeed ==> exists s :: s in sources && s.id == id && IsFeed(s))
    && (forall s :: s in sources && IsFeed(s) ==>
          s.id in sourceFeed && Some(sourceFeed[s.id]) == FeedWithKey(feeds, KeyOf(s)))
  }

  /** Exactly the public items of such a source point at the source's feed. */
  ghost predicate ItemsPoint(items: seq<Item>, sourceFeed: map<int, int>, itemFeed: map<int, int>) {
    forall k :: 0 <= k < |items| ==>
      var item := items[k];
      && (item.id in itemFeed <==> IsPublicOf(item, sourceFeed))
      && (item.id in itemFeed ==> itemFeed[item.id] == sourceFeed[item.sourceId.value])
  }

  function Pointing(sources: seq<Source>, sourceFeed: map<int, int>, id: int): nat {
    if sources == [] then 0
    else
      var hit := sources[0].id in sourceFeed && sourceFeed[sources[0].id] == id;
      (if hit then 1 else 0) + Pointing(sources[1..], sourceFeed, id)
  }

  lemma {:induction false} FeedWithKeyFinds(feeds: seq<Feed>, i: nat)
    requires i < |feeds| && DistinctFeeds(feeds)
    ensures FeedWithKey(feeds, feeds[i].key) == Some(feeds[i].id)
  {
    if i > 0 {
      FeedWithKeyFinds(feeds[1..], i - 1);
    }
  }

  lemma SameIdSameSource(sources: seq<Source>, s: Source, t: Source)
    requires UniqueIds(sources) && s in sources && t in sources && s.id == t.id
    ensures s == t
  {
    var i :| 0 <= i < |sources| && sources[i] == s;
    var j :| 0 <= j < |sources| && sources[j] == t;
    assert i == j;
  }

  lemma PointsByKey(sources: seq<Source>, s: Source, feeds: seq<Feed>, sourceFeed: map<int, int>, i: nat)
    requires UniqueIds(sources) && FeedsOf(sources, feeds) && SourcesPoint(sources, feeds, sourceFeed)
    requires s in sources && i < |feeds|
    ensures s.id in sourceFeed && sourceFeed[s.id] == feeds[i].id <==> IsFeed(s) && KeyOf(s) == feeds[i].key
  {
    if IsFeed(s) {
      assert HasKey(feeds, KeyOf(s));
      var j :| 0 <= j < |feeds| && feeds[j].key == KeyOf(s);
      FeedWithKeyFinds(feeds, j);
      assert sourceFeed[s.id] == feeds[j].id;
      assert i < j || j < i || i == j;
    } else if s.id in sourceFeed {
      var t :| t in sources && t.id == s.id && IsFeed(t);
      SameIdSameSource(sources, s, t);
    }
  }

  ghost predicate PointsAt(sourceFeed: map<int, int>, s: Source, feed: Feed) {
    s.id in sourceFeed && sourceFeed[s.id] == feed.id <==> IsFeed(s) && KeyOf(s) == feed.key
  }

  lemma {:induction false} PointingIsSubscribers(sources: seq<Source>, feed: Feed, sourceFeed: map<int, int>)
    requires forall k :: 0 <= k < |sources| ==> PointsAt(sourceFeed, sources[k], feed)
    ensures Pointing(sources, sourceFeed, feed.id) == Subscribers(sources, feed.key)
  {
    if sources != [] {
      assert PointsAt(sourceFeed, sources[0], feed);
      PointingIsSubscribers(sources[1..], feed, sourceFeed);
    }
  }

  lemma FeedPointers(sources: seq<Source>, feeds: seq<Feed>, sourceFeed: map<int, int>, i: nat)
    requires UniqueIds(sources) && FeedsOf(sources, feeds) && SourcesPoint(sources, feeds, sourceFeed) && i < |feeds|
    ensures Pointing(sources, sourceFeed, feeds[i].id) == Subscribers(sources, feeds[i].key)
  {
    forall k | 0 <= k < |sources| ensures PointsAt(sourceFeed, sources[k], feeds[i]) {
      PointsByKey(sources, sources[k], feeds, sourceFeed, i);
    }
    PointingIsSubscribers(sources, feeds[i], sourceFeed);
  }

  lemma PlanMembers(le: Collation, sources: seq<Source>)
    requires TotalOrder(le)
    ensures forall g: Group :: g in Plan(le, sources) <==> g.0 in Keys(sources) && g.1 == Subscribers(sources, g.0)
    ensures Distinct(Plan(le, sources)) && |Plan(le, sources)| == |Keys(sources)| && InPlanOrder(le, Plan(le, sources))
  {
    var keys, groups := Keys(sources), Groups(sources, Keys(sources));
    KeysMembers(sources);
    OrderOrders(le, groups);
    DistinctPermuted(groups, Plan(le, sources));
    forall g: Group ensures g in Plan(le, sources) <==> g.0 in keys && g.1 == Subscribers(sources, g.0) {
      assert g in Plan(le, sources) <==> g in multiset(Plan(le, sources));
      assert g in groups <==> g in multiset(groups);
      if g.0 in keys && g.1 == Subscribers(sources, g.0) {
        var i :| 0 <= i < |keys| && keys[i] == g.0;
        assert groups[i] == g;
      }
    }
  }

  lemma {:induction false} SubscribersAppend(sources: seq<Source>, s: Source, key: string)
    ensures Subscribers(sources + [s], key)
         == Subscribers(sources, key) + if IsFeed(s) && KeyOf(s) == key then 1 else 0
  {
    if sources == [] {
      assert sources + [s] == [s];
    } else {
      SubscribersAppend(sources[1..], s, key);
      assert (sources + [s])[1..] == sources[1..] + [s];
    }
  }

  /** The key of a source, in full. */
  ghost predicate Subscribes(s: Source, key: string) {
    s.sourceType != Some("newsletter") && key == match s.feedUrl case Some(feedUrl) => feedUrl case None => s.url
  }

  /** The sources with this key, newsletters left out, by place. */
  ghost function PlacesOf(sources: seq<Source>, key: string): set<int> {
    set i | 0 <= i < |sources| && Subscribes(sources[i], key)
  }

  /** The count of a group is the number of sources of the table with its key. */
  lemma {:induction false} SubscribersCounted(sources: seq<Source>, key: string)
    ensures Subscribers(sources, key) == |PlacesOf(sources, key)|
  {
    if sources != [] {
      var n := |sources| - 1;
      var rest := sources[..n];
      SubscribersCounted(rest, key);
      SubscribersAppend(rest, sources[n], key);
      assert sources == rest + [sources[n]];
      assert PlacesOf(sources, key) == PlacesOf(rest, key) + if Subscribes(sources[n], key) then {n} else {};
    }
  }

  ghost predicate GroupOf(feed: Feed, sources: seq<Source>, sourceFeed: map<int, int>, g: Group) {
    g == (feed.key, Pointing(sources, sourceFeed, feed.id))
  }

  /** The preview is exact: its groups are the feeds the migration makes, one each, each count is the
      number of subscriptions that point at that feed afterwards, and they stand most subscribers
      first, equal counts by key. */
  lemma PreviewIsExact(le: Collation, sources: seq<Source>, feeds: seq<Feed>, sourceFeed: map<int, int>)
    requires TotalOrder(le) && UniqueIds(sources) && FeedsOf(sources, feeds) && SourcesPoint(sources, feeds, sourceFeed)
    ensures Distinct(Plan(le, sources)) && |Plan(le, sources)| == |feeds|
    ensures var plan := Plan(le, sources);
            forall i, j :: 0 <= i < j < |plan| ==>
              plan[i].1 > plan[j].1 || (plan[i].1 == plan[j].1 && le(plan[i].0, plan[j].0))
    ensures forall i :: 0 <= i < |feeds| ==>
              (feeds[i].key, Pointing(sources, sourceFeed, feeds[i].id)) in Plan(le, sources)
    ensures forall g: Group :: g in Plan(le, sources) ==>
              exists i :: 0 <= i < |feeds| && GroupOf(feeds[i], sources, sourceFeed, g)
  {
    PlanMembers(le, sources);
    KeysMembers(sources);
    SameKeys(sources, feeds);
    SameLength(Keys(sources), feeds);
    forall i | 0 <= i < |feeds|
      ensures Pointing(sources, sourceFeed, feeds[i].id) == Subscribers(sources, feeds[i].key)
    {
      FeedPointers(sources, feeds, sourceFeed, i);
    }
    forall g: Group | g in Plan(le, sources)
      ensures exists i :: 0 <= i < |feeds| && GroupOf(feeds[i], sources, sourceFeed, g)
    {
      assert HasKey(feeds, g.0);
      var i :| 0 <= i < |feeds| && feeds[i].key == g.0;
      assert GroupOf(feeds[i], sources, sourceFeed, g);
    }
  }

  lemma SameKeys(sources: seq<Source>, feeds: seq<Feed>)
    requires FeedsOf(sources, feeds)
    ensures forall i :: 0 <= i < |feeds| ==> feeds[i].key in Keys(sources)
    ensures forall key :: key in Keys(sources) ==> HasKey(feeds, key)
  {
    KeysMembers(sources);
    forall i | 0 <= i < |feeds| ensures feeds[i].key in Keys(sources) {
      assert HasOrigin(sources, feeds[i]);
      var s :| TakenFrom(sources, feeds[i], s);
    }
  }

  lemma SameLength(keys: seq<string>, feeds: seq<Feed>)
    requires Distinct(keys) && DistinctFeeds(feeds)
    requires forall i :: 0 <= i < |feeds| ==> feeds[i].key in keys
    requires forall key :: key in keys ==> HasKey(feeds, key)
    ensures |keys| == |feeds|
  {
    var feedKeys := seq(|feeds|, i requires 0 <= i < |feeds| => feeds[i].key);
    assert forall i :: 0 <= i < |feeds| ==> feedKeys[i] == feeds[i].key;
    forall key ensures key in keys <==> key in feedKeys {
      if key in keys {
        assert HasKey(feeds, key);
        var i :| 0 <= i < |feeds| && feeds[i].key == key;
        assert feedKeys[i] == key;
      }
    }
    assert Distinct(feedKeys);
    SameMembersSameLength(keys, feedKeys);
  }

  lemma SameMembersSameLength(a: seq<string>, b: seq<string>)
    requires Distinct(a) && Distinct(b) && forall x :: x in a <==> x in b
    ensures |a| == |b|
  {
    forall x ensures multiset(a)[x] == multiset(b)[x] {
      OnceCounted(a, x);
      OnceCounted(b, x);
      assert x in a <==> x in multiset(a);
      assert x in b <==> x in multiset(b);
    }
    assert multiset(a) == multiset(b);
    assert |multiset(a)| == |a| && |multiset(b)| == |b|;
  }

  /** feed holds the columns of s, and the given values where s has NULL. */
  ghost predicate Carries(feed: Feed, s: Source) {
    && feed.key == (match s.feedUrl case Some(feedUrl) => feedUrl case None => s.url)
    && feed.url == s.url && feed.feedUrl == s.feedUrl && feed.sourceType == s.sourceType && feed.poll == s.poll
    && (s.pollInterval == Some(feed.pollInterval) || (s.pollInterval == None && feed.pollInterval == 3600))
    && (s.status == Some(feed.status) || (s.status == None && feed.status == "healthy"))
    && (s.errorCount == Some(feed.errorCount) || (s.errorCount == None && feed.errorCount == 0))
    && (s.backfillDone == Some(feed.backfillDone) || (s.backfillDone == None && feed.backfillDone))
    && feed.isActive && !feed.deadNotice
  }

  /** The times of all sources with this key are at most fetched; all are NULL when it is. */
  ghost predicate NoneLater(sources: seq<Source>, key: string, fetched: Option<int>) {
    forall t :: t in sources && Subscribes(t, key) && t.poll.lastFetched.Some? ==>
      fetched.Some? && t.poll.lastFetched.value <= fetched.value
  }

  ghost predicate MostRecent(sources: seq<Source>, feed: Feed, s: Source) {
    s in sources && Subscribes(s, feed.key) && Carries(feed, s) && NoneLater(sources, feed.key, s.poll.lastFetched)
  }

  /** A feed row carries the columns of one of the sources with its key, and none of them was fetched
      later; its fetch time is NULL only when none was ever fetched. */
  lemma FeedIsMostRecent(sources: seq<Source>, feeds: seq<Feed>, i: nat)
    requires FeedsOf(sources, feeds) && i < |feeds|
    ensures exists s :: MostRecent(sources, feeds[i], s)
    ensures NoneLater(sources, feeds[i].key, feeds[i].poll.lastFetched)
  {
    assert HasOrigin(sources, feeds[i]);
    var s :| TakenFrom(sources, feeds[i], s);
    forall t | t in sources && Subscribes(t, feeds[i].key) && t.poll.lastFetched.Some?
      ensures s.poll.lastFetched.Some? && t.poll.lastFetched.value <= s.poll.lastFetched.value
    {
      assert !Later(t.poll.lastFetched, s.poll.lastFetched);
    }
    assert MostRecent(sources, feeds[i], s);
  }

  /** A source points at a feed exactly when it is no newsletter. */
  lemma PointsUnlessNewsletter(sources: seq<Source>, feeds: seq<Feed>, sourceFeed: map<int, int>, s: Source)
    requires UniqueIds(sources) && SourcesPoint(sources, feeds, sourceFeed) && s in sources
    ensures s.id in sourceFeed <==> s.sourceType != Some("newsletter")
  {
    if s.id in sourceFeed {
      var t :| t in sources && t.id == s.id && IsFeed(t);
      SameIdSameSource(sources, s, t);
    }
  }

  /** Row by row: a source points at a feed exactly when it is no newsletter and has that feed's key. */
  lemma SourceFollowsKey(sources: seq<Source>, feeds: seq<Feed>, sourceFeed: map<int, int>, s: Source, i: nat)
    requires UniqueIds(sources) && FeedsOf(sources, feeds) && SourcesPoint(sources, feeds, sourceFeed)
    requires s in sources && i < |feeds|
    ensures s.id in sourceFeed && sourceFeed[s.id] == feeds[i].id <==> Subscribes(s, feeds[i].key)
  {
    PointsByKey(sources, s, feeds, sourceFeed, i);
    SubscribesMeans(s, feeds[i].key);
  }

  lemma SubscribesMeans(s: Source, key: string)
    ensures Subscribes(s, key) <==> IsFeed(s) && KeyOf(s) == key
  {
  }

  /** An item of the source s points at a feed exactly when nobody owns it and s is no newsletter; it is
      the feed with the key of s. */
  lemma ItemFollowsSource(sources: seq<Source>, feeds: seq<Feed>, sourceFeed: map<int, int>, items: seq<Item>,
                          itemFeed: map<int, int>, s: Source, k: nat, i: nat)
    requires UniqueIds(sources) && FeedsOf(sources, feeds) && SourcesPoint(sources, feeds, sourceFeed)
    requires ItemsPoint(items, sourceFeed, itemFeed) && s in sources && k < |items| && i < |feeds|
    ensures items[k].sourceId == None ==> items[k].id !in itemFeed
    ensures items[k].sourceId == Some(s.id) ==>
              && (items[k].id in itemFeed <==> items[k].owner == None && s.sourceType != Some("newsletter"))
              && (items[k].id in itemFeed ==> (itemFeed[items[k].id] == feeds[i].id <==> Subscribes(s, feeds[i].key)))
  {
    SourceFollowsKey(sources, feeds, sourceFeed, s, i);
    PointsUnlessNewsletter(sources, feeds, sourceFeed, s);
  }

  // ------------------------------------------------------------------ the migration

  ghost predicate DistinctKeys(picks: seq<Source>) {
    forall i, j :: 0 <= i < j < |picks| ==> KeyOf(picks[i]) != KeyOf(picks[j])
  }

  ghost predicate AllLatest(seen: seq<Source>, picks: seq<Source>) {
    forall i :: 0 <= i < |picks| ==> Latest(seen, picks[i])
  }

  ghost predicate Picked(picks: seq<Source>, key: string) {
    exists i :: 0 <= i < |picks| && KeyOf(picks[i]) == key
  }

  ghost predicate Covers(picks: seq<Source>, seen: seq<Source>) {
    forall s :: s in seen && IsFeed(s) ==> Picked(picks, KeyOf(s))
  }

  function IndexOfKey(picks: seq<Source>, key: string): (k: nat)
    ensures k <= |picks|
    ensures k < |picks| ==> KeyOf(picks[k]) == key
    ensures forall i :: 0 <= i < k ==> KeyOf(picks[i]) != key
  {
    if picks == [] || KeyOf(picks[0]) == key then 0 else 1 + IndexOfKey(picks[1..], key)
  }

  function Pick(picks: seq<Source>, s: Source): seq<Source> {
    var k := IndexOfKey(picks, KeyOf(s));
    if !IsFeed(s) then picks
    else if k == |picks| then picks + [s]
    else if Later(s.poll.lastFetched, picks[k].poll.lastFetched) then picks[k := s]
    else picks
  }

  lemma LatestGrows(seen: seq<Source>, s: Source, p: Source)
    requires Latest(seen, p)
    requires IsFeed(s) && KeyOf(s) == KeyOf(p) ==> !Later(s.poll.lastFetched, p.poll.lastFetched)
    ensures Latest(seen + [s], p)
  {
  }

  lemma NewLatest(seen: seq<Source>, s: Source, p: Source)
    requires IsFeed(s) && Latest(seen, p) && KeyOf(s) == KeyOf(p) && Later(s.poll.lastFetched, p.poll.lastFetched)
    ensures Latest(seen + [s], s)
  {
  }

  lemma PickLatest(seen: seq<Source>, picks: seq<Source>, s: Source)
    requires DistinctKeys(picks) && AllLatest(seen, picks) && Covers(picks, seen)
    ensures AllLatest(seen + [s], Pick(picks, s))
  {
    var next, k := Pick(picks, s), IndexOfKey(picks, KeyOf(s));
    forall i | 0 <= i < |next| ensures Latest(seen + [s], next[i]) {
      if i < |picks| {
        assert Latest(seen, picks[i]);
        if IsFeed(s) && i == k && Later(s.poll.lastFetched, picks[k].poll.lastFetched) {
          NewLatest(seen, s, picks[k]);
        } else {
          assert IsFeed(s) && KeyOf(s) == KeyOf(picks[i]) ==> i == k;
          LatestGrows(seen, s, picks[i]);
        }
      } else {
        assert next[i] == s;
        forall t | t in seen && IsFeed(t) ensures KeyOf(t) != KeyOf(s) {
          assert Picked(picks, KeyOf(t));
        }
      }
    }
  }

  lemma PickCovers(seen: seq<Source>, picks: seq<Source>, s: Source)
    requires DistinctKeys(picks) && Covers(picks, seen)
    ensures DistinctKeys(Pick(picks, s)) && Covers(Pick(picks, s), seen + [s])
  {
    var next, k := Pick(picks, s), IndexOfKey(picks, KeyOf(s));
    forall t | t in seen + [s] && IsFeed(t) ensures Picked(next, KeyOf(t)) {
      if t in seen {
        assert Picked(picks, KeyOf(t));
        var i :| 0 <= i < |picks| && KeyOf(picks[i]) == KeyOf(t);
        assert KeyOf(next[i]) == KeyOf(t);
      } else {
        assert KeyOf(next[k]) == KeyOf(t);
      }
    }
  }

  function Rows(picks: seq<Source>, newIds: seq<int>): (feeds: seq<Feed>)
    requires |picks| <= |newIds|
    ensures |feeds| == |picks|
    ensures forall i :: 0 <= i < |feeds| ==> feeds[i] == FeedFrom(picks[i], newIds[i])
  {
    seq(|picks|, i requires 0 <= i < |picks| => FeedFrom(picks[i], newIds[i]))
  }

  lemma RowsAreFeeds(sources: seq<Source>, picks: seq<Source>, newIds: seq<int>)
    requires DistinctKeys(picks) && AllLatest(sources, picks) && Covers(picks, sources)
    requires |picks| <= |newIds| && Distinct(newIds)
    ensures FeedsOf(sources, Rows(picks, newIds))
  {
    var feeds := Rows(picks, newIds);
    forall i | 0 <= i < |feeds| ensures HasOrigin(sources, feeds[i]) {
      assert TakenFrom(sources, feeds[i], picks[i]);
    }
    forall s | s in sources && IsFeed(s) ensures HasKey(feeds, KeyOf(s)) {
      assert Picked(picks, KeyOf(s));
      var i :| 0 <= i < |picks| && KeyOf(picks[i]) == KeyOf(s);
      assert feeds[i].key == KeyOf(s);
    }
    assert forall i, j :: 0 <= i < j < |feeds| ==> newIds[i] != newIds[j] && KeyOf(picks[i]) != KeyOf(picks[j]);
  }

  lemma FindsFeed(sources: seq<Source>, feeds: seq<Feed>, s: Source)
    requires FeedsOf(sources, feeds) && s in sources && IsFeed(s)
    ensures FeedWithKey(feeds, KeyOf(s)).Some?
  {
    assert HasKey(feeds, KeyOf(s));
    var i :| 0 <= i < |feeds| && feeds[i].key == KeyOf(s);
    FeedWithKeyFinds(feeds, i);
  }

  /** The first k sources have been updated. */
  ghost predicate PointedUpTo(sources: seq<Source>, feeds: seq<Feed>, sourceFeed: map<int, int>, k: nat)
    requires k <= |sources|
  {
    && (forall id :: id in sourceFeed ==> exists j :: 0 <= j < k && sources[j].id == id && IsFeed(sources[j]))
    && (forall j :: 0 <= j < k && IsFeed(sources[j]) ==> FeedPointer(sources[j], feeds, sourceFeed))
  }

  predicate FeedPointer(s: Source, feeds: seq<Feed>, sourceFeed: map<int, int>) {
    s.id in sourceFeed && Some(sourceFeed[s.id]) == FeedWithKey(feeds, KeyOf(s))
  }

  lemma PointedNext(sources: seq<Source>, feeds: seq<Feed>, before: map<int, int>, after: map<int, int>, k: nat,
                    feed: int)
    requires UniqueIds(sources) && k < |sources| && PointedUpTo(sources, feeds, before, k)
    requires IsFeed(sources[k]) && FeedWithKey(feeds, KeyOf(sources[k])) == Some(feed)
    requires after == before[sources[k].id := feed]
    ensures PointedUpTo(sources, feeds, after, k + 1)
  {
    forall j | 0 <= j < k + 1 && IsFeed(sources[j]) ensures FeedPointer(sources[j], feeds, after) {
      if j < k {
        assert FeedPointer(sources[j], feeds, before) && sources[j].id != sources[k].id;
      }
    }
    forall id | id in after ensures exists j :: 0 <= j < k + 1 && sources[j].id == id && IsFeed(sources[j]) {
      if id in before {
        var j :| 0 <= j < k && sources[j].id == id && IsFeed(sources[j]);
      } else {
        assert sources[k].id == id;
      }
    }
  }

  lemma PointedAll(sources: seq<Source>, feeds: seq<Feed>, sourceFeed: map<int, int>)
    requires PointedUpTo(sources, feeds, sourceFeed, |sources|)
    ensures SourcesPoint(sources, feeds, sourceFeed)
  {
    forall s | s in sources && IsFeed(s) ensures FeedPointer(s, feeds, sourceFeed) {
      var j :| 0 <= j < |sources| && sources[j] == s;
    }
    forall id | id in sourceFeed ensures exists s :: s in sources && s.id == id && IsFeed(s) {
      var j :| 0 <= j < |sources| && sources[j].id == id && IsFeed(sources[j]);
      assert sources[j] in sources;
    }
  }

  /** The first k items have been updated. */
  ghost predicate ItemsPointUpTo(items: seq<Item>, sourceFeed: map<int, int>, itemFeed: map<int, int>, k: nat)
    requires k <= |items|
  {
    && (forall id :: id in itemFeed ==> exists i :: 0 <= i < k && items[i].id == id)
    && ItemsPoint(items[..k], sourceFeed, itemFeed)
  }

  lemma ItemsPointAll(items: seq<Item>, sourceFeed: map<int, int>, itemFeed: map<int, int>)
    requires ItemsPointUpTo(items, sourceFeed, itemFeed, |items|)
    ensures ItemsPoint(items, sourceFeed, itemFeed)
  {
    assert items[..|items|] == items;
  }

  predicate IsPublicOf(item: Item, sourceFeed: map<int, int>) {
    item.owner.None? && item.sourceId.Some? && item.sourceId.value in sourceFeed
  }

  lemma ItemsPointNext(items: seq<Item>, sourceFeed: map<int, int>, before: map<int, int>, after: map<int, int>, k: nat)
    requires UniqueItems(items) && k < |items|
    requires ItemsPointUpTo(items, sourceFeed, before, k)
    requires IsPublicOf(items[k], sourceFeed) ==> after == before[items[k].id := sourceFeed[items[k].sourceId.value]]
    requires !IsPublicOf(items[k], sourceFeed) ==> after == before
    ensures ItemsPointUpTo(items, sourceFeed, after, k + 1)
  {
    assert items[k].id !in before;
    forall i | 0 <= i < k + 1
      ensures items[i].id in after <==> IsPublicOf(items[i], sourceFeed)
      ensures items[i].id in after ==> after[items[i].id] == sourceFeed[items[i].sourceId.value]
    {
      if i < k {
        assert items[..k][i] == items[i] && items[i].id != items[k].id;
      }
    }
  }

  class Database {
    var sources: seq<Source>
    var items: seq<Item>
    var feeds: Option<seq<Feed>>      // None: the table does not exist
    var sourceFeed: map<int, int>     // sources.feed_id, by source id; absent is NULL
    var itemFeed: map<int, int>       // content_items.feed_id, by item id

    /** Before 0025: neither the table nor the columns hold anything. */
    ghost predicate Before()
      reads this
    {
      feeds.None? && sourceFeed == map[] && itemFeed == map[]
    }

    ghost predicate PrimaryKeys()
      reads this
    {
      UniqueIds(sources) && UniqueItems(items)
    }

    constructor (sources: seq<Source>, items: seq<Item>)
      ensures Before() && this.sources == sources && this.items == items
    {
      this.sources := sources;
      this.items := items;
      feeds := None;
      sourceFeed := map[];
      itemFeed := map[];
    }

    /** upgrade(); newIds are the random ids handed to new feed rows. */
    method Upgrade(newIds: seq<int>)
      requires Before() && PrimaryKeys() && |newIds| == |sources|
      requires Distinct(newIds)
      modifies this
      ensures sources == old(sources) && items == old(items)
      ensures feeds.Some? && FeedsOf(sources, feeds.value)
      ensures SourcesPoint(sources, feeds.value, sourceFeed)
      ensures ItemsPoint(items, sourceFeed, itemFeed)
    {
      InsertFeeds(newIds);
      UpdateSources();
      UpdateItems();
    }

    /** INSERT INTO feeds ... SELECT DISTINCT ON. */
    method InsertFeeds(newIds: seq<int>)
      requires Before() && |newIds| == |sources|
      requires Distinct(newIds)
      modifies this`feeds
      ensures feeds.Some? && FeedsOf(sources, feeds.value)
    {
      var picks: seq<Source> := [];
      for k := 0 to |sources|
        invariant |picks| <= k && DistinctKeys(picks)
        invariant AllLatest(sources[..k], picks) && Covers(picks, sources[..k])
      {
        PickLatest(sources[..k], picks, sources[k]);
        PickCovers(sources[..k], picks, sources[k]);
        assert sources[..k] + [sources[k]] == sources[..k + 1];
        picks := Pick(picks, sources[k]);
      }
      assert sources[..|sources|] == sources;
      RowsAreFeeds(sources, picks, newIds);
      feeds := Some(Rows(picks, newIds));
    }

    /** UPDATE sources SET feed_id = f.id FROM feeds f WHERE f.key = .... */
    method UpdateSources()
      requires sourceFeed == map[] && UniqueIds(sources) && feeds.Some? && FeedsOf(sources, feeds.value)
      modifies this`sourceFeed
      ensures SourcesPoint(sources, feeds.value, sourceFeed)
    {
      for k := 0 to |sources|
        invariant PointedUpTo(sources, feeds.value, sourceFeed, k)
      {
        var s := sources[k];
        if IsFeed(s) { FindsFeed(sources, feeds.value, s); }
        var feed := FeedWithKey(feeds.value, KeyOf(s));
        if IsFeed(s) && feed.Some? {
          ghost var before := sourceFeed;
          sourceFeed := sourceFeed[s.id := feed.value];
          PointedNext(sources, feeds.value, before, sourceFeed, k, feed.value);
        }
      }
      PointedAll(sources, feeds.value, sourceFeed);
    }

    /** UPDATE content_items SET feed_id = s.feed_id FROM sources s, public items only. */
    method UpdateItems()
      requires itemFeed == map[] && UniqueItems(items)
      modifies this`itemFeed
      ensures ItemsPoint(items, sourceFeed, itemFeed)
    {
      for k := 0 to |items|
        invariant ItemsPointUpTo(items, sourceFeed, itemFeed, k)
      {
        var item := items[k];
        ghost var before := itemFeed;
        if IsPublicOf(item, sourceFeed) {
          itemFeed := itemFeed[item.id := sourceFeed[item.sourceId.value]];
        }
        ItemsPointNext(items, sourceFeed, before, itemFeed, k);
      }
      ItemsPointAll(items, sourceFeed, itemFeed);
    }

    /** downgrade() */
    method Downgrade()
      modifies this
      ensures Before() && sources == old(sources) && items == old(items)
    {
      itemFeed := map[];
      sourceFeed := map[];
      feeds := None;
    }

    /** Upgrade, then downgrade: the database is what it was. */
    method UpAndDown(newIds: seq<int>)
      requires Before() && PrimaryKeys() && |newIds| == |sources|
      requires Distinct(newIds)
      modifies this
      ensures Before() && sources == old(sources) && items == old(items)
    {
      Upgrade(newIds);
      Downgrade();
    }
  }
}
