/**
 Histories of the poller: rows being added to the table, polls that succeed and
 polls that fail, in any order. A row added at or below the cursor is late; it is
 recorded because the poller never comes back to it.
 */
module PollingHistory {
  import opened Wrappers
  import opened Records
  import opened Polling

  /** `added` are the rows added since the start, and `late` those of them that were added at or below the cursor. */
  datatype State = State(table: Table, start: int, cursor: int, handled: seq<Handled>, sent: seq<Event>,
                         added: set<int>, late: set<int>)

  datatype Step = Append(row: MessageRow) | FailedPoll | SuccessfulPoll(mapper: Mapper)

  /** The poller has just started. */
  ghost predicate Initial(s: State) {
    s.cursor == s.start && s.handled == [] && s.sent == [] && s.added == s.late == {}
  }

  /** Ids are unique in the table. */
  predicate Enabled(s: State, step: Step) {
    step.Append? ==> step.row.databaseId !in s.table
  }

  predicate Late(s: State, row: MessageRow) {
    row.databaseId <= s.cursor
  }

  function Apply(codec: Codec, s: State, step: Step): State
    requires Enabled(s, step)
  {
    match step
    case Append(row) =>
      s.(table := s.table[row.databaseId := row], added := s.added + {row.databaseId},
         late := if Late(s, row) then s.late + {row.databaseId} else s.late)
    case FailedPoll => s
    case SuccessfulPoll(mapper) =>
      var rows := MessagesAfter(s.table, s.cursor);
      var handled := HandleAll(codec, mapper, rows);
      s.(cursor := CursorAfter(rows, s.cursor), handled := s.handled + handled, sent := s.sent + Published(handled))
  }

  ghost predicate Possible(codec: Codec, s: State, steps: seq<Step>)
    decreases steps
  {
    steps == [] || (Enabled(s, steps[0]) && Possible(codec, Apply(codec, s, steps[0]), steps[1..]))
  }

  ghost function Run(codec: Codec, s: State, steps: seq<Step>): State
    requires Possible(codec, s, steps)
    decreases steps
  {
    if steps == [] then s else Run(codec, Apply(codec, s, steps[0]), steps[1..])
  }

  ghost predicate IsHandled(s: State, row: MessageRow) {
    exists i :: 0 <= i < |s.handled| && s.handled[i].row == row
  }

  /** Rows are handled in ascending order, so each at most once. */
  ghost predicate Ordered(s: State) {
    forall i, j :: 0 <= i < j < |s.handled| ==> s.handled[i].row.databaseId < s.handled[j].row.databaseId
  }

  /** The cursor has passed a row that it should have read: one above the start, or added since. */
  ghost predicate Due(s: State, row: MessageRow) {
    && row.databaseId in s.table && s.table[row.databaseId] == row
    && row.databaseId <= s.cursor && (s.start < row.databaseId || row.databaseId in s.added)
  }

  /** A row the cursor has passed is either handled or late; no other row is handled. */
  ghost predicate Split(s: State) {
    && (forall row :: IsHandled(s, row) ==> Between(s.table, row, s.start, s.cursor) && row.databaseId !in s.late)
    && (forall row :: Due(s, row) ==> IsHandled(s, row) || row.databaseId in s.late)
  }

  ghost predicate LateInRange(s: State) {
    s.start <= s.cursor && s.late <= s.added && forall id :: id in s.late ==> id in s.table && id <= s.cursor
  }

  /** What was sent is what the handled rows gave, and synchronised rows gave nothing. */
  ghost predicate SentHandled(codec: Codec, s: State) {
    && s.sent == Published(s.handled)
    && forall i :: 0 <= i < |s.handled| && Synchronised(codec, s.handled[i].row) ==> s.handled[i].event.None?
  }

  ghost predicate Accounted(codec: Codec, s: State) {
    Ordered(s) && Split(s) && LateInRange(s) && SentHandled(codec, s)
  }

  lemma {:induction false} AppendKeepsAccount(codec: Codec, s: State, row: MessageRow)
    requires Accounted(codec, s) && Enabled(s, Append(row))
    ensures Accounted(codec, Apply(codec, s, Append(row)))
  {
    var t := Apply(codec, s, Append(row));
    forall r | IsHandled(t, r) ensures Between(t.table, r, t.start, t.cursor) && r.databaseId !in t.late {
      assert IsHandled(s, r);
    }
    forall r | Due(t, r) ensures IsHandled(t, r) || r.databaseId in t.late {
      if r.databaseId != row.databaseId {
        assert Due(s, r);
        assert IsHandled(s, r) ==> IsHandled(t, r);
      }
    }
  }

  /** After a poll, the handled rows are those from before and the batch. */
  lemma {:induction false} HandledWithBatch(codec: Codec, s: State, t: State, mapper: Mapper, rows: seq<MessageRow>)
    requires t.handled == s.handled + HandleAll(codec, mapper, rows)
    ensures forall r :: IsHandled(t, r) <==> IsHandled(s, r) || r in rows
  {
    forall r ensures IsHandled(t, r) <==> IsHandled(s, r) || r in rows {
      if IsHandled(s, r) {
        var i :| 0 <= i < |s.handled| && s.handled[i].row == r;
        assert t.handled[i].row == r;
      }
      if r in rows {
        var i :| 0 <= i < |rows| && rows[i] == r;
        assert t.handled[|s.handled| + i].row == r;
      }
    }
  }

  /** t is s after a batch of rows above its cursor. */
  ghost predicate AfterBatch(codec: Codec, s: State, t: State, mapper: Mapper, rows: seq<MessageRow>) {
    && t.table == s.table && t.start == s.start && t.added == s.added && t.late == s.late && t.cursor >= s.cursor
    && InOrder(rows, s.cursor)
    && (forall row :: row in rows <==> Between(s.table, row, s.cursor, t.cursor))
    && t.handled == s.handled + HandleAll(codec, mapper, rows)
    && t.sent == s.sent + Published(HandleAll(codec, mapper, rows))
  }

  lemma {:induction false} BatchKeepsOrder(codec: Codec, s: State, t: State, mapper: Mapper, rows: seq<MessageRow>)
    requires AfterBatch(codec, s, t, mapper, rows) && Ordered(s) && Split(s)
    ensures Ordered(t)
  {
    forall i | 0 <= i < |s.handled| ensures s.handled[i].row.databaseId <= s.cursor {
      assert IsHandled(s, s.handled[i].row);
    }
  }

  lemma {:induction false} BatchKeepsSplit(codec: Codec, s: State, t: State, mapper: Mapper, rows: seq<MessageRow>)
    requires AfterBatch(codec, s, t, mapper, rows) && Split(s) && LateInRange(s)
    ensures Split(t)
  {
    HandledWithBatch(codec, s, t, mapper, rows);
    forall r | Due(t, r) ensures IsHandled(t, r) || r.databaseId in t.late {
      assert Due(s, r) || Between(s.table, r, s.cursor, t.cursor);
    }
    forall r | IsHandled(t, r) ensures Between(t.table, r, t.start, t.cursor) && r.databaseId !in t.late {
      assert Between(s.table, r, s.start, s.cursor) || Between(s.table, r, s.cursor, t.cursor);
    }
  }

  lemma {:induction false} BatchKeepsSent(codec: Codec, s: State, t: State, mapper: Mapper, rows: seq<MessageRow>)
    requires AfterBatch(codec, s, t, mapper, rows) && SentHandled(codec, s)
    ensures SentHandled(codec, t)
  {
    PublishedConcat(s.handled, HandleAll(codec, mapper, rows));
  }

  lemma {:induction false} PollIsBatch(codec: Codec, s: State, mapper: Mapper)
    ensures AfterBatch(codec, s, Apply(codec, s, SuccessfulPoll(mapper)), mapper, MessagesAfter(s.table, s.cursor))
  {
    MessagesAfterMeaning(s.table, s.cursor);
  }

  lemma {:induction false} PollKeepsAccount(codec: Codec, s: State, mapper: Mapper)
    requires Accounted(codec, s)
    ensures Accounted(codec, Apply(codec, s, SuccessfulPoll(mapper)))
    ensures Apply(codec, s, SuccessfulPoll(mapper)).cursor >= s.cursor
  {
    PollIsBatch(codec, s, mapper);
    var t, rows := Apply(codec, s, SuccessfulPoll(mapper)), MessagesAfter(s.table, s.cursor);
    BatchKeepsOrder(codec, s, t, mapper, rows);
    BatchKeepsSplit(codec, s, t, mapper, rows);
    BatchKeepsSent(codec, s, t, mapper, rows);
  }

  /** Every history accounts for every row, and the cursor never goes back. */
  lemma {:induction false} HistoryIsAccounted(codec: Codec, s: State, steps: seq<Step>)
    requires Accounted(codec, s) && Possible(codec, s, steps)
    ensures Accounted(codec, Run(codec, s, steps))
    ensures Run(codec, s, steps).cursor >= s.cursor && Run(codec, s, steps).start == s.start
    decreases steps
  {
    if steps != [] {
      match steps[0] {
        case Append(row) => AppendKeepsAccount(codec, s, row);
        case FailedPoll =>
        case SuccessfulPoll(mapper) =>
          PollKeepsAccount(codec, s, mapper);
      }
      HistoryIsAccounted(codec, Apply(codec, s, steps[0]), steps[1..]);
    }
  }

  /** The rows of a batch are the first handled, each with what it gave when the mapper of the poll mapped it. */
  ghost predicate BatchGiven(codec: Codec, mapper: Mapper, rows: seq<MessageRow>, handled: seq<Handled>) {
    |rows| <= |handled|
    && forall i: nat :: i < |rows| ==>
         handled[i].row == rows[i] && Gives(codec, mapper, rows[i], handled[i].event)
  }

  /** What a history handles: batch by batch, what each row gave when its own poll mapped it. */
  ghost predicate GivenBy(codec: Codec, s: State, steps: seq<Step>, handled: seq<Handled>)
    requires Possible(codec, s, steps)
    decreases steps
  {
    if steps == [] then handled == []
    else if steps[0].SuccessfulPoll? then
      var rows := MessagesAfter(s.table, s.cursor);
      BatchGiven(codec, steps[0].mapper, rows, handled)
      && GivenBy(codec, Apply(codec, s, steps[0]), steps[1..], handled[|rows|..])
    else GivenBy(codec, Apply(codec, s, steps[0]), steps[1..], handled)
  }

  lemma {:induction false} BatchIsGiven(codec: Codec, mapper: Mapper, rows: seq<MessageRow>, rest: seq<Handled>)
    ensures BatchGiven(codec, mapper, rows, HandleAll(codec, mapper, rows) + rest)
  {
    var handled := HandleAll(codec, mapper, rows) + rest;
    forall i: nat | i < |rows|
      ensures handled[i].row == rows[i] && Gives(codec, mapper, rows[i], handled[i].event)
    {
      HandledGives(codec, mapper, rows[i]);
    }
  }

  lemma {:induction false} PollIsGiven(codec: Codec, s: State, mapper: Mapper, rest: seq<Handled>)
    returns (handled: seq<Handled>)
    ensures var rows := MessagesAfter(s.table, s.cursor);
            BatchGiven(codec, mapper, rows, handled) && handled[|rows|..] == rest
    ensures Apply(codec, s, SuccessfulPoll(mapper)).handled + rest == s.handled + handled
  {
    var rows := MessagesAfter(s.table, s.cursor);
    var batch := HandleAll(codec, mapper, rows);
    BatchIsGiven(codec, mapper, rows, rest);
    assert (s.handled + batch) + rest == s.handled + (batch + rest);
    handled := batch + rest;
  }

  /** What was handled stays, and every further row is recorded with what it gave when its own poll mapped it. */
  lemma {:induction false} EventsAreMapped(codec: Codec, s: State, steps: seq<Step>) returns (handled: seq<Handled>)
    requires Possible(codec, s, steps)
    ensures Run(codec, s, steps).handled == s.handled + handled && GivenBy(codec, s, steps, handled)
    decreases steps
  {
    if steps == [] {
      handled := [];
    } else {
      var rest := EventsAreMapped(codec, Apply(codec, s, steps[0]), steps[1..]);
      handled := rest;
      if steps[0].SuccessfulPoll? { handled := PollIsGiven(codec, s, steps[0].mapper, rest); }
    }
  }

  /** No row is added at or below the cursor, as when ids only grow. */
  ghost predicate Timely(codec: Codec, s: State, steps: seq<Step>)
    requires Possible(codec, s, steps)
    decreases steps
  {
    steps == []
    || ((steps[0].Append? ==> !Late(s, steps[0].row)) && Timely(codec, Apply(codec, s, steps[0]), steps[1..]))
  }

  lemma {:induction false} NothingLate(codec: Codec, s: State, steps: seq<Step>)
    requires Possible(codec, s, steps)
    ensures s.late <= Run(codec, s, steps).late
    ensures s.late == {} ==> (Timely(codec, s, steps) <==> Run(codec, s, steps).late == {})
    decreases steps
  {
    if steps != [] {
      NothingLate(codec, Apply(codec, s, steps[0]), steps[1..]);
    }
  }

  /** Every row that the cursor has passed has been handled. */
  ghost predicate Complete(s: State) {
    forall row :: Due(s, row) ==> IsHandled(s, row)
  }

  lemma {:induction false} InitiallyAccounted(codec: Codec, s: State)
    requires Initial(s)
    ensures Accounted(codec, s)
  {
    assert forall row :: !IsHandled(s, row) && !Due(s, row);
  }

  /** A late row is never handled. */
  lemma {:induction false} LateIsLost(codec: Codec, s: State, id: int)
    requires Accounted(codec, s) && id in s.late
    ensures id in s.table && Due(s, s.table[id]) && !IsHandled(s, s.table[id])
  {
  }

  /**
   From the start of the poller, every row that was above the start or is added
   later is handled once the cursor has passed it, once and in ascending order, if
   and only if no row is ever added at or below the cursor.
   */
  lemma {:induction false} ExactlyOnceIffTimely(codec: Codec, s: State, steps: seq<Step>)
    requires Initial(s) && Possible(codec, s, steps)
    ensures Accounted(codec, Run(codec, s, steps))
    ensures Complete(Run(codec, s, steps)) <==> Timely(codec, s, steps)
  {
    InitiallyAccounted(codec, s);
    HistoryIsAccounted(codec, s, steps);
    NothingLate(codec, s, steps);
    var end := Run(codec, s, steps);
    forall id | id in end.late ensures !Complete(end) {
      LateIsLost(codec, end, id);
    }
  }

  /** The poller started on an empty table. */
  const EMPTY := State(map[], 0, 0, [], [], {}, {})

  lemma {:induction false} PollReachesRow(codec: Codec, row: MessageRow, mapper: Mapper)
    requires row.databaseId > 0
    ensures Apply(codec, Apply(codec, EMPTY, Append(row)), SuccessfulPoll(mapper)).cursor == row.databaseId
  {
    var s := Apply(codec, EMPTY, Append(row));
    var rows := MessagesAfter(s.table, 0);
    MessagesAfterMeaning(s.table, 0);
    assert row.databaseId in Above(s.table.Keys, 0);
    if rows != [] {
      assert rows[|rows| - 1] in rows;
    }
  }

  lemma {:induction false} ThreeSteps(codec: Codec, s: State, a: Step, b: Step, c: Step)
    requires Enabled(s, a) && Enabled(Apply(codec, s, a), b) && Enabled(Apply(codec, Apply(codec, s, a), b), c)
    ensures Possible(codec, s, [a, b, c])
    ensures Run(codec, s, [a, b, c]) == Apply(codec, Apply(codec, Apply(codec, s, a), b), c)
  {
    assert [a, b, c][1..] == [b, c] && [b, c][1..] == [c] && [c][1..] == [];
    var t := Apply(codec, s, a);
    var u := Apply(codec, t, b);
    assert Possible(codec, u, [c]) && Run(codec, u, [c]) == Apply(codec, u, c);
    assert Possible(codec, t, [b, c]) && Run(codec, t, [b, c]) == Run(codec, u, [c]);
  }

  /** A row that appears after one with a larger id, when the poller has been by, is lost. */
  lemma {:induction false} LateRowIsLost(codec: Codec, early: MessageRow, late: MessageRow, mapper: Mapper)
    requires 0 < late.databaseId < early.databaseId
    ensures var steps := [Append(early), SuccessfulPoll(mapper), Append(late)];
      && Initial(EMPTY) && Possible(codec, EMPTY, steps)
      && Due(Run(codec, EMPTY, steps), late) && !IsHandled(Run(codec, EMPTY, steps), late)
  {
    var steps := [Append(early), SuccessfulPoll(mapper), Append(late)];
    PollReachesRow(codec, early, mapper);
    ThreeSteps(codec, EMPTY, steps[0], steps[1], steps[2]);
    InitiallyAccounted(codec, EMPTY);
    HistoryIsAccounted(codec, EMPTY, steps);
    LateIsLost(codec, Run(codec, EMPTY, steps), late.databaseId);
  }

  /** Rows that have not been read yet. */
  ghost function Backlog(s: State): nat {
    |Above(s.table.Keys, s.cursor)|
  }

  function Less(n: nat, m: nat): nat {
    if n <= m then 0 else n - m
  }

  /** A poll takes a full batch off the backlog, or all of it. */
  lemma {:induction false} PollTakesBatch(codec: Codec, s: State, mapper: Mapper)
    ensures Backlog(Apply(codec, s, SuccessfulPoll(mapper))) == Less(Backlog(s), 100)
  {
    var ids := NextIds(s.table.Keys, s.cursor, BATCH_LIMIT);
    NextIdsMeaning(s.table.Keys, s.cursor, BATCH_LIMIT);
    RowsAtMeaning(s.table, ids, s.cursor);
    BatchOffBacklog(s.table.Keys, s.cursor, ids);
  }

  lemma {:induction false} BatchOffBacklog(keys: set<int>, cursor: int, batch: seq<int>)
    requires Ascending(batch)
    requires forall id :: id in batch <==> id in keys && cursor < id <= LastOf(batch, cursor)
    ensures |Above(keys, cursor)| == |batch| + |Above(keys, LastOf(batch, cursor))|
  {
    var last := LastOf(batch, cursor);
    DistinctLength(batch, Elements(batch));
    if batch != [] {
      assert last in batch;
    }
    assert Above(keys, cursor) == Elements(batch) + Above(keys, last);
    assert Elements(batch) !! Above(keys, last);
  }

  /** Without new rows and failures, k polls read 100 k rows or all there are. */
  lemma {:induction false} PollsDrain(codec: Codec, s: State, polls: seq<Step>)
    requires forall step :: step in polls ==> step.SuccessfulPoll?
    ensures Possible(codec, s, polls)
    ensures Backlog(Run(codec, s, polls)) == Less(Backlog(s), 100 * |polls|)
    decreases polls
  {
    if polls != [] {
      assert polls[0] in polls;
      PollTakesBatch(codec, s, polls[0].mapper);
      PollsDrain(codec, Apply(codec, s, polls[0]), polls[1..]);
    }
  }

  /** So a backlog of n rows is read in exactly ceil(n / 100) polls. */
  lemma {:induction false} DrainedAfter(codec: Codec, s: State, polls: seq<Step>)
    requires forall step :: step in polls ==> step.SuccessfulPoll?
    ensures Possible(codec, s, polls)
    ensures Backlog(Run(codec, s, polls)) == 0 <==> |polls| >= CeilDiv(Backlog(s), 100)
  {
    PollsDrain(codec, s, polls);
  }
}
