/** Public and private content rows: which row a user gets for a URL, and that private
    rows of different users never interfere. */
module ContentLookup {
  import opened Wrappers

  /** A content row; owner None is a public row. */
  datatype Row = Row(
    id: int, owner: Option<int>, url: string, title: string, origin: string, fullText: Option<string>, fetchedAt: int)

  type Table = seq<Row>

  predicate VisibleTo(user: int, row: Row) {
    row.owner.None? || row.owner == Some(user)
  }

  /** The first row of the table for url with the given owner. */
  function RowFor(table: Table, owner: Option<int>, url: string): Option<Row> {
    if table == [] then None
    else if table[0].owner == owner && table[0].url == url then Some(table[0])
    else RowFor(table[1..], owner, url)
  }

  /** The public row for url if there is one, else the user's private row. */
  function FindVisible(table: Table, user: int, url: string): Option<Row> {
    if RowFor(table, None, url).Some? then RowFor(table, None, url) else RowFor(table, Some(user), url)
  }

  datatype Draft = Draft(url: string, title: string, origin: string, fullText: Option<string>)

  /** A save by a user, or a public row arriving from a feed; id and time come from outside. */
  datatype Op =
    | Save(user: int, draft: Draft, id: int, now: int)
    | Publish(draft: Draft, id: int, now: int)

  function NewRow(owner: Option<int>, d: Draft, id: int, now: int): Row {
    Row(id, owner, d.url, if d.title == "" then d.url else d.title, d.origin, d.fullText, now)
  }

  /** What get_or_create_private_item returns: the row and whether it is new. */
  datatype Answer = Answer(row: Row, created: bool)

  function AnswerTo(table: Table, user: int, d: Draft, id: int, now: int): Answer {
    var existing := FindVisible(table, user, d.url);
    if existing.Some? then Answer(existing.value, false) else Answer(NewRow(Some(user), d, id, now), true)
  }

  function Apply(table: Table, op: Op): Table {
    match op
    case Save(user, d, id, now) =>
      var answer := AnswerTo(table, user, d, id, now);
      if answer.created then table + [answer.row] else table
    case Publish(d, id, now) =>
      if RowFor(table, None, d.url).Some? then table else table + [NewRow(None, d, id, now)]
  }

  function Run(table: Table, ops: seq<Op>): Table
    decreases |ops|
  {
    if ops == [] then table else Run(Apply(table, ops[0]), ops[1..])
  }

  class ContentStore {
    var table: Table

    constructor ()
      ensures table == []
    {
      table := [];
    }

    /** An existing visible row, or a new private one. */
    method GetOrCreatePrivateItem(user: int, d: Draft, id: int, now: int) returns (row: Row, created: bool)
      modifies this
      ensures Answer(row, created) == AnswerTo(old(table), user, d, id, now)
      ensures table == Apply(old(table), Save(user, d, id, now))
    {
      var existing := FindVisible(table, user, d.url);
      if existing.Some? {
        return existing.value, false;
      }
      row := NewRow(Some(user), d, id, now);
      table := table + [row];
      created := true;
    }
  }

  // ------------------------------------------------------------------ uniqueness

  /** One public row per URL, and one private row per owner and URL. */
  ghost predicate UniqueRows(table: Table) {
    forall i, j :: 0 <= i < j < |table| && table[i].url == table[j].url ==> table[i].owner != table[j].owner
  }

  lemma {:induction false} RowForFinds(table: Table, owner: Option<int>, url: string)
    ensures RowFor(table, owner, url).Some?
       <==> exists i :: 0 <= i < |table| && table[i].owner == owner && table[i].url == url
    ensures RowFor(table, owner, url).Some? ==>
              var r := RowFor(table, owner, url).value; r in table && r.owner == owner && r.url == url
  {
    if table != [] {
      RowForFinds(table[1..], owner, url);
      if exists i :: 0 <= i < |table| && table[i].owner == owner && table[i].url == url {
        var i :| 0 <= i < |table| && table[i].owner == owner && table[i].url == url;
        if i > 0 {
          assert table[1..][i - 1] == table[i];
        }
      }
    }
  }

  lemma ApplyKeepsUnique(table: Table, op: Op)
    requires UniqueRows(table)
    ensures UniqueRows(Apply(table, op))
  {
    var owner := if op.Save? then Some(op.user) else None;
    RowForFinds(table, owner, op.draft.url);
  }

  lemma {:induction false} RunKeepsUnique(table: Table, ops: seq<Op>)
    requires UniqueRows(table)
    ensures UniqueRows(Run(table, ops))
    decreases |ops|
  {
    if ops != [] {
      ApplyKeepsUnique(table, ops[0]);
      RunKeepsUnique(Apply(table, ops[0]), ops[1..]);
    }
  }

  /** A row that SELECT ... ORDER BY public first LIMIT 1 may return. */
  ghost predicate MayReturn(table: Table, user: int, url: string, r: Row) {
    && r in table && r.url == url && VisibleTo(user, r)
    && (r.owner.Some? ==> forall s :: s in table && s.url == url ==> s.owner.Some?)
  }

  /** With unique rows the query has one possible answer, whatever order the table is read in. */
  lemma AnswerDetermined(table: Table, user: int, url: string, r: Row)
    requires UniqueRows(table)
    ensures MayReturn(table, user, url, r) <==> FindVisible(table, user, url) == Some(r)
  {
    RowForFinds(table, None, url);
    RowForFinds(table, Some(user), url);
    var found := FindVisible(table, user, url);
    if MayReturn(table, user, url, r) {
      var i :| 0 <= i < |table| && table[i] == r;
      assert found.Some?;
      var j :| 0 <= j < |table| && table[j] == found.value;
      assert r.owner == found.value.owner;
      assert i == j;
    }
  }

  predicate HasRow(table: Table, owner: Option<int>, url: string) {
    exists i :: 0 <= i < |table| && table[i].owner == owner && table[i].url == url
  }

  /** A save hands the user a row for the URL that is in the table afterwards. It is new exactly when the table
      had neither a public row for the URL nor one of this user; then it is the only thing added, and
      belongs to this user alone. Saving the URL again, with whatever draft, hands out the same row. */
  lemma SaveFindsOrAdds(table: Table, user: int, d: Draft, id: int, now: int, again: Draft, id': int, now': int)
    requires again.url == d.url
    ensures var answer, after := AnswerTo(table, user, d, id, now), Apply(table, Save(user, d, id, now));
            var row := answer.row;
            && row in after && row.url == d.url
            && (answer.created <==> !HasRow(table, None, d.url) && !HasRow(table, Some(user), d.url))
            && (!answer.created ==> after == table && (row.owner == None <==> HasRow(table, None, d.url))
                                    && (row.owner.Some? ==> row.owner.value == user))
            && (answer.created ==> after == table + [row] && row.owner == Some(user) && row.id == id
                                   && row.origin == d.origin && row.fullText == d.fullText && row.fetchedAt == now
                                   && (row.title == d.title || d.title == "")
                                   && (d.title == "" ==> row.title == d.url))
            && AnswerTo(after, user, again, id', now') == Answer(row, false)
  {
    RowForFinds(table, None, d.url);
    RowForFinds(table, Some(user), d.url);
    if AnswerTo(table, user, d, id, now).created {
      var row := AnswerTo(table, user, d, id, now).row;
      RowForAppend(table, row, None, d.url);
      RowForAppend(table, row, Some(user), d.url);
      assert (table + [row])[|table|] == row;
    }
  }

  lemma {:induction false} RowForAppend(table: Table, r: Row, owner: Option<int>, url: string)
    ensures RowFor(table + [r], owner, url)
         == if RowFor(table, owner, url).Some? then RowFor(table, owner, url)
            else if r.owner == owner && r.url == url then Some(r) else None
  {
    if table == [] {
      assert table + [r] == [r];
    } else {
      RowForAppend(table[1..], r, owner, url);
      assert (table + [r])[1..] == table[1..] + [r];
    }
  }

  /** A feed adds a public row exactly when the table has none for the URL, whatever private rows there are. */
  lemma PublishAdds(table: Table, d: Draft, id: int, now: int)
    ensures var after := Apply(table, Publish(d, id, now));
            && HasRow(after, None, d.url)
            && (if HasRow(table, None, d.url) then after == table
                else && |after| == |table| + 1 && after[..|table|] == table
                     && after[|table|].id == id && after[|table|].fetchedAt == now
                     && after[|table|].origin == d.origin && after[|table|].fullText == d.fullText)
  {
    RowForFinds(table, None, d.url);
    var after := Apply(table, Publish(d, id, now));
    if !HasRow(table, None, d.url) {
      assert after[|table|].owner == None && after[|table|].url == d.url;
    }
  }

  /** The view of a user is the table without the rows of others, in its order. */
  lemma {:induction false} ViewHolds(table: Table, user: int, r: Row)
    ensures r in View(table, user) <==> r in table && (r.owner == None || r.owner == Some(user))
    ensures multiset(View(table, user))[r] == if r.owner == None || r.owner == Some(user) then multiset(table)[r] else 0
  {
    if table != [] {
      ViewHolds(table[1..], user, r);
      assert table == [table[0]] + table[1..];
    }
  }

  // ------------------------------------------------------------------ non-interference

  /** The rows a user can see. */
  function View(table: Table, user: int): Table {
    if table == [] then []
    else if VisibleTo(user, table[0]) then [table[0]] + View(table[1..], user)
    else View(table[1..], user)
  }

  lemma {:induction false} ViewAppend(table: Table, r: Row, user: int)
    ensures View(table + [r], user) == View(table, user) + if VisibleTo(user, r) then [r] else []
  {
    if table == [] {
      assert table + [r] == [r];
    } else {
      ViewAppend(table[1..], r, user);
      assert (table + [r])[1..] == table[1..] + [r];
    }
  }

  lemma {:induction false} RowForInView(table: Table, user: int, owner: Option<int>, url: string)
    requires owner.None? || owner == Some(user)
    ensures RowFor(View(table, user), owner, url) == RowFor(table, owner, url)
  {
    if table != [] {
      RowForInView(table[1..], user, owner, url);
      if VisibleTo(user, table[0]) {
        assert View(table, user)[1..] == View(table[1..], user);
      }
    }
  }

  /** Answers to a user depend on the user's view alone. */
  lemma SameViewSameAnswer(s: Table, t: Table, user: int, d: Draft, id: int, now: int)
    requires View(s, user) == View(t, user)
    ensures AnswerTo(s, user, d, id, now) == AnswerTo(t, user, d, id, now)
    ensures RowFor(s, None, d.url) == RowFor(t, None, d.url)
  {
    RowForInView(s, user, None, d.url);
    RowForInView(t, user, None, d.url);
    RowForInView(s, user, Some(user), d.url);
    RowForInView(t, user, Some(user), d.url);
  }

  /** Two databases that look the same to a user keep looking the same, whoever saves. */
  lemma ApplyKeepsView(s: Table, t: Table, user: int, op: Op)
    requires View(s, user) == View(t, user)
    ensures View(Apply(s, op), user) == View(Apply(t, op), user)
  {
    var id, now, d := op.id, op.now, op.draft;
    SameViewSameAnswer(s, t, user, d, id, now);
    var owner := if op.Save? then Some(op.user) else None;
    ViewAppend(s, NewRow(owner, d, id, now), user);
    ViewAppend(t, NewRow(owner, d, id, now), user);
  }

  /** A save by somebody else changes nothing a user can see. */
  lemma OthersInvisible(table: Table, user: int, op: Op)
    requires op.Save? && op.user != user
    ensures View(Apply(table, op), user) == View(table, user)
  {
    ViewAppend(table, NewRow(Some(op.user), op.draft, op.id, op.now), user);
  }

  predicate Concerns(op: Op, user: int) {
    op.Publish? || op.user == user
  }

  /** The run as if the other users had saved nothing. */
  function WithoutOthers(ops: seq<Op>, user: int): seq<Op> {
    if ops == [] then []
    else if Concerns(ops[0], user) then [ops[0]] + WithoutOthers(ops[1..], user)
    else WithoutOthers(ops[1..], user)
  }

  /** What a user is told over a run. */
  function Told(table: Table, ops: seq<Op>, user: int): seq<Answer>
    decreases |ops|
  {
    if ops == [] then []
    else
      var op, rest := ops[0], Told(Apply(table, ops[0]), ops[1..], user);
      if op.Save? && op.user == user then [AnswerTo(table, user, op.draft, op.id, op.now)] + rest else rest
  }

  /** Whatever the other users save, a user is told the same, and in the end sees the same. */
  lemma {:induction false} OthersNeverInterfere(s: Table, t: Table, ops: seq<Op>, user: int)
    requires View(s, user) == View(t, user)
    ensures Told(s, ops, user) == Told(t, WithoutOthers(ops, user), user)
    ensures View(Run(s, ops), user) == View(Run(t, WithoutOthers(ops, user)), user)
    decreases |ops|
  {
    if ops != [] {
      var op, kept := ops[0], WithoutOthers(ops, user);
      if Concerns(op, user) {
        ApplyKeepsView(s, t, user, op);
        OthersNeverInterfere(Apply(s, op), Apply(t, op), ops[1..], user);
        SameViewSameAnswer(s, t, user, op.draft, op.id, op.now);
        assert kept[0] == op && kept[1..] == WithoutOthers(ops[1..], user);
      } else {
        OthersInvisible(s, user, op);
        OthersNeverInterfere(Apply(s, op), t, ops[1..], user);
      }
    }
  }
}
