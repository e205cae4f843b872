/** Session boundaries: the in-memory machine (server/tomoko/session.py) and the table of sessions
    (server/tomoko/db_worker.py, with the commands of server/tomoko/db_bridge.py), which must agree. */
module Session {
  import opened Wrappers

  type Id = int

  /** A supply of ids: the n-th call of `new_id`. */
  type Supply = nat -> Id

  ghost predicate Fresh(ids: Supply) { forall m, n :: ids(m) == ids(n) ==> m == n }

  // ----- in memory -----

  datatype Boundary = Boundary(sessionId: Id, startedNew: bool, closed: Option<Id>)

  datatype Memory = Memory(current: Option<Id>, lastActivityAt: Option<real>, drawn: nat)

  function Observe(m: Memory, limit: real, ids: Supply, at: real): (Memory, Boundary) {
    if m.current.None? || m.lastActivityAt.None? then
      (Memory(Some(ids(m.drawn)), Some(at), m.drawn + 1), Boundary(ids(m.drawn), true, None))
    else if at - m.lastActivityAt.value >= limit then
      (Memory(Some(ids(m.drawn)), Some(at), m.drawn + 1), Boundary(ids(m.drawn), true, m.current))
    else (m.(lastActivityAt := Some(at)), Boundary(m.current.value, false, None))
  }

  function MemoryAfter(times: seq<real>, limit: real, ids: Supply): Memory {
    if times == [] then Memory(None, None, 0)
    else Observe(MemoryAfter(times[..|times| - 1], limit, ids), limit, ids, times[|times| - 1]).0
  }

  /** What the machine answers to the last of the utterances. */
  function MemoryAnswer(times: seq<real>, limit: real, ids: Supply): Boundary
    requires times != []
  {
    Observe(MemoryAfter(times[..|times| - 1], limit, ids), limit, ids, times[|times| - 1]).1
  }

  class SessionBoundaryModel {
    const idleGapToNewSessionMs: real
    const newId: Supply
    var currentSessionId: Option<Id>
    var lastActivityAt: Option<real>
    var drawn: nat

    function View(): Memory
      reads this
    {
      Memory(currentSessionId, lastActivityAt, drawn)
    }

    constructor (limit: real, ids: Supply)
      ensures View() == Memory(None, None, 0) && idleGapToNewSessionMs == limit && newId == ids
    {
      idleGapToNewSessionMs, newId := limit, ids;
      currentSessionId, lastActivityAt, drawn := None, None, 0;
    }

    method ObserveUtterance(utteredAt: real) returns (r: Boundary)
      modifies this
      ensures (View(), r) == Observe(old(View()), idleGapToNewSessionMs, newId, utteredAt)
    {
      if currentSessionId.None? || lastActivityAt.None? {
        currentSessionId := Some(newId(drawn));
        drawn := drawn + 1;
        lastActivityAt := Some(utteredAt);
        return Boundary(currentSessionId.value, true, None);
      }
      var gapMs := utteredAt - lastActivityAt.value;
      if gapMs >= idleGapToNewSessionMs {
        var closed := currentSessionId;
        currentSessionId := Some(newId(drawn));
        drawn := drawn + 1;
        lastActivityAt := Some(utteredAt);
        return Boundary(currentSessionId.value, true, closed);
      }
      lastActivityAt := Some(utteredAt);
      return Boundary(currentSessionId.value, false, None);
    }
  }

  // ----- in the table -----

  datatype Row = Row(
    id: Id, startedAt: real, lastActivityAt: real, createdAt: real, endedAt: Option<real>, closeReason: Option<string>)

  /** An observation to assign: when its audio ended, and the database's clock. */
  datatype Arrival = Arrival(at: real, clock: real)

  predicate Open(row: Row) { row.endedAt.None? }

  predicate Before(a: Row, b: Row) {
    a.lastActivityAt > b.lastActivityAt || (a.lastActivityAt == b.lastActivityAt && a.createdAt > b.createdAt)
  }

  /** `WHERE ended_at IS NULL ORDER BY last_activity_at DESC, created_at DESC LIMIT 1`. */
  function Latest(rows: seq<Row>): (r: Option<Row>)
    ensures r.Some? ==> r.value in rows && Open(r.value)
    ensures r.None? ==> forall i :: 0 <= i < |rows| ==> !Open(rows[i])
    ensures r.Some? ==> forall i :: 0 <= i < |rows| && Open(rows[i]) ==> !Before(rows[i], r.value)
  {
    if rows == [] then None
    else
      var best, row := Latest(rows[..|rows| - 1]), rows[|rows| - 1];
      if Open(row) && (best.None? || Before(row, best.value)) then Some(row) else best
  }

  function Insert(rows: seq<Row>, id: Id, at: real, clock: real): seq<Row> {
    if exists i :: 0 <= i < |rows| && rows[i].id == id then rows else rows + [Row(id, at, at, clock, None, None)]
  }

  function Touch(rows: seq<Row>, id: Id, at: real): seq<Row> {
    seq(|rows|, i requires 0 <= i < |rows| => if rows[i].id == id then rows[i].(lastActivityAt := at) else rows[i])
  }

  function Close(rows: seq<Row>, id: Id, at: real): seq<Row> {
    seq(|rows|, i requires 0 <= i < |rows| =>
      if rows[i].id == id then rows[i].(endedAt := Some(at), closeReason := Some("idle_gap")) else rows[i])
  }

  datatype Table = Table(rows: seq<Row>, drawn: nat)

  function Assign(t: Table, limit: real, ids: Supply, a: Arrival): (Table, Id) {
    var row := Latest(t.rows);
    if row.None? then
      (Table(Insert(t.rows, ids(t.drawn), a.at, a.clock), t.drawn + 1), ids(t.drawn))
    else if a.at - row.value.lastActivityAt >= limit then
      (Table(Insert(Close(t.rows, row.value.id, a.at), ids(t.drawn), a.at, a.clock), t.drawn + 1), ids(t.drawn))
    else
      (Table(Touch(t.rows, row.value.id, a.at), t.drawn), row.value.id)
  }

  function TableAfter(history: seq<Row>, arrivals: seq<Arrival>, limit: real, ids: Supply): Table {
    if arrivals == [] then Table(history, 0)
    else Assign(TableAfter(history, arrivals[..|arrivals| - 1], limit, ids), limit, ids, arrivals[|arrivals| - 1]).0
  }

  function TableAnswer(history: seq<Row>, arrivals: seq<Arrival>, limit: real, ids: Supply): Id
    requires arrivals != []
  {
    Assign(TableAfter(history, arrivals[..|arrivals| - 1], limit, ids), limit, ids, arrivals[|arrivals| - 1]).1
  }

  /** Of the open rows the one that was active last is taken, and of several such ones the one created last. */
  lemma LatestExactly(rows: seq<Row>, i: nat)
    requires i < |rows| && Open(rows[i])
    ensures var row := Latest(rows);
            && row.Some? && row.value.endedAt.None? && rows[i].lastActivityAt <= row.value.lastActivityAt
            && (rows[i].lastActivityAt == row.value.lastActivityAt ==> rows[i].createdAt <= row.value.createdAt)
  {
    hide Latest;
    assert !Before(rows[i], Latest(rows).value);
  }

  ghost predicate DistinctIds(rows: seq<Row>) { forall i, j :: 0 <= i < j < |rows| ==> rows[i].id != rows[j].id }

  /** No id is ever in two rows, whatever ids are drawn. */
  lemma {:induction false} IdsStayDistinct(history: seq<Row>, arrivals: seq<Arrival>, limit: real, ids: Supply)
    requires DistinctIds(history)
    ensures DistinctIds(TableAfter(history, arrivals, limit, ids).rows)
  {
    if arrivals != [] {
      hide Latest, Insert;
      var n := |arrivals| - 1;
      IdsStayDistinct(history, arrivals[..n], limit, ids);
      var t, a := TableAfter(history, arrivals[..n], limit, ids), arrivals[n];
      var row := Latest(t.rows);
      InsertKeepsDistinct(t.rows, ids(t.drawn), a.at, a.clock);
      if row.Some? {
        InsertKeepsDistinct(Close(t.rows, row.value.id, a.at), ids(t.drawn), a.at, a.clock);
      }
    }
  }

  lemma InsertKeepsDistinct(rows: seq<Row>, id: Id, at: real, clock: real)
    requires DistinctIds(rows)
    ensures DistinctIds(Insert(rows, id, at, clock))
  {
  }

  class SessionTable {
    const newId: Supply
    var rows: seq<Row>
    var drawn: nat

    function View(): Table
      reads this
    {
      Table(rows, drawn)
    }

    constructor (history: seq<Row>, ids: Supply)
      ensures View() == Table(history, 0) && newId == ids
    {
      newId, rows, drawn := ids, history, 0;
    }

    method SelectOpen() returns (row: Option<Row>)
      ensures row == Latest(rows)
    {
      row := None;
      for i := 0 to |rows|
        invariant row == Latest(rows[..i])
      {
        assert rows[..i + 1][..i] == rows[..i];
        if rows[i].endedAt.None? && (row.None? || Before(rows[i], row.value)) {
          row := Some(rows[i]);
        }
      }
      assert rows[..|rows|] == rows;
    }

    method AssignConversationSession(a: Arrival, idleGapToNewSessionMs: real) returns (sessionId: Id)
      modifies this
      ensures (View(), sessionId) == Assign(old(View()), idleGapToNewSessionMs, newId, a)
    {
      hide Latest;
      var row := SelectOpen();
      if row.None? {
        sessionId := newId(drawn);
        drawn := drawn + 1;
        rows := Insert(rows, sessionId, a.at, a.clock);
        return;
      }
      sessionId := row.value.id;
      var gapMs := a.at - row.value.lastActivityAt;
      if gapMs >= idleGapToNewSessionMs {
        rows := Close(rows, sessionId, a.at);
        sessionId := newId(drawn);
        drawn := drawn + 1;
        rows := Insert(rows, sessionId, a.at, a.clock);
        return;
      }
      rows := Touch(rows, sessionId, a.at);
    }
  }

  // ----- the sessions themselves -----

  /** The number of the session of the k-th utterance: one more at every gap that reaches the limit. */
  function SessionNo(times: seq<real>, limit: real, k: nat): nat
    requires k < |times|
  {
    if k == 0 then 0
    else SessionNo(times, limit, k - 1) + if times[k] - times[k - 1] >= limit then 1 else 0
  }

  ghost predicate NoGap(times: seq<real>, limit: real, i: nat, j: nat)
    requires i <= j < |times|
  {
    forall k :: i <= k < j ==> times[k + 1] - times[k] < limit
  }

  /** Sessions are the maximal runs of consecutive gaps below the limit. */
  lemma {:induction false} SessionsAreMaximalRuns(times: seq<real>, limit: real, i: nat, j: nat)
    requires i <= j < |times|
    ensures SessionNo(times, limit, i) <= SessionNo(times, limit, j)
    ensures SessionNo(times, limit, i) == SessionNo(times, limit, j) <==> NoGap(times, limit, i, j)
    decreases j
  {
    if i < j {
      SessionsAreMaximalRuns(times, limit, i, j - 1);
      assert NoGap(times, limit, i, j) <==> NoGap(times, limit, i, j - 1) && times[j] - times[j - 1] < limit by {
        if NoGap(times, limit, i, j) {
          assert times[j - 1 + 1] - times[j - 1] < limit;
        }
      }
    }
  }

  lemma {:induction false} SessionNoPrefix(times: seq<real>, more: seq<real>, limit: real, k: nat)
    requires k < |times|
    ensures SessionNo(times + more, limit, k) == SessionNo(times, limit, k)
  {
    if k > 0 {
      SessionNoPrefix(times, more, limit, k - 1);
    }
  }

  lemma SessionNoSnoc(times: seq<real>, limit: real)
    requires times != []
    ensures var n := |times| - 1;
            SessionNo(times, limit, n)
            == if n == 0 then 0
               else SessionNo(times[..n], limit, n - 1) + if times[n] - times[n - 1] >= limit then 1 else 0
  {
    var n := |times| - 1;
    if n > 0 {
      assert times == times[..n] + [times[n]];
      SessionNoPrefix(times[..n], [times[n]], limit, n - 1);
    }
  }

  /** The machine numbers the sessions: the n-th session has the n-th id. */
  lemma {:induction false} MemoryNumbers(times: seq<real>, limit: real, ids: Supply)
    requires times != []
    ensures var no := SessionNo(times, limit, |times| - 1);
            && MemoryAfter(times, limit, ids) == Memory(Some(ids(no)), Some(times[|times| - 1]), no + 1)
            && MemoryAnswer(times, limit, ids).sessionId == ids(no)
            && (MemoryAnswer(times, limit, ids).startedNew <==>
                  |times| == 1 || times[|times| - 1] - times[|times| - 2] >= limit)
  {
    SessionNoSnoc(times, limit);
    var n := |times| - 1;
    if n > 0 {
      MemoryNumbers(times[..n], limit, ids);
    }
  }

  // ----- the table holds one row a session -----

  /** The rows of the sessions so far after one more utterance. */
  function AddTo(own: seq<Row>, limit: real, ids: Supply, a: Arrival): seq<Row> {
    var m := |own| - 1;
    if own == [] then [Row(ids(0), a.at, a.at, a.clock, None, None)]
    else if a.at - own[m].lastActivityAt >= limit then
      own[..m] + [own[m].(endedAt := Some(a.at), closeReason := Some("idle_gap"))]
      + [Row(ids(m + 1), a.at, a.at, a.clock, None, None)]
    else own[..m] + [own[m].(lastActivityAt := a.at)]
  }

  /** The rows the utterances should leave: one a session, all but the last closed when the next one began. */
  function SessionRows(arrivals: seq<Arrival>, limit: real, ids: Supply): seq<Row> {
    if arrivals == [] then []
    else AddTo(SessionRows(arrivals[..|arrivals| - 1], limit, ids), limit, ids, arrivals[|arrivals| - 1])
  }

  /** Closed rows of earlier times, whose ids the supply does not repeat. */
  ghost predicate ClosedHistory(history: seq<Row>, ids: Supply) {
    forall i :: 0 <= i < |history| ==> !Open(history[i]) && forall n :: ids(n) != history[i].id
  }

  ghost predicate OwnRows(own: seq<Row>, ids: Supply) {
    forall i :: 0 <= i < |own| ==> own[i].id == ids(i) && (Open(own[i]) <==> i == |own| - 1)
  }

  lemma {:induction false} SessionRowsOwn(arrivals: seq<Arrival>, limit: real, ids: Supply)
    ensures OwnRows(SessionRows(arrivals, limit, ids), ids)
    ensures arrivals != [] ==>
              var own := SessionRows(arrivals, limit, ids);
              own != [] && own[|own| - 1].lastActivityAt == arrivals[|arrivals| - 1].at
  {
    if arrivals != [] {
      var n := |arrivals| - 1;
      SessionRowsOwn(arrivals[..n], limit, ids);
      AddToOwn(SessionRows(arrivals[..n], limit, ids), limit, ids, arrivals[n]);
      hide AddTo, OwnRows;
    }
  }

  lemma AddToOwn(own: seq<Row>, limit: real, ids: Supply, a: Arrival)
    requires OwnRows(own, ids)
    ensures var next := AddTo(own, limit, ids, a);
            OwnRows(next, ids) && next != [] && next[|next| - 1].lastActivityAt == a.at
  {
  }

  /** The query finds the one open row. */
  lemma LatestIsLast(history: seq<Row>, own: seq<Row>, ids: Supply)
    requires ClosedHistory(history, ids) && OwnRows(own, ids) && own != []
    ensures Latest(history + own) == Some(own[|own| - 1])
  {
    hide Latest, Before;
    var rows, last := history + own, own[|own| - 1];
    assert rows[|rows| - 1] == last && Open(last);
    var found := Latest(rows);
    assert found.Some?;
    OneOpen(history, own, ids);
    var i :| 0 <= i < |rows| && rows[i] == found.value;
  }

  lemma OneOpen(history: seq<Row>, own: seq<Row>, ids: Supply)
    requires ClosedHistory(history, ids) && OwnRows(own, ids)
    ensures forall i :: 0 <= i < |history + own| && Open((history + own)[i]) ==> i == |history + own| - 1
  {
    var rows := history + own;
    assert forall k :: 0 <= k < |history| ==> rows[k] == history[k] && !Open(rows[k]);
    assert forall k :: 0 <= k < |own| ==> rows[|history| + k] == own[k];
    assert forall k :: |history| <= k < |rows| ==> rows[k] == own[k - |history|];
  }

  lemma NothingOpen(history: seq<Row>, ids: Supply)
    requires ClosedHistory(history, ids)
    ensures Latest(history) == None
  {
  }

  /** A command for the last id changes only the last row. */
  lemma OnlyLastMatches(history: seq<Row>, own: seq<Row>, ids: Supply, i: nat)
    requires Fresh(ids) && ClosedHistory(history, ids) && OwnRows(own, ids) && own != [] && i < |history + own|
    ensures (history + own)[i].id == own[|own| - 1].id <==> i == |history + own| - 1
  {
    hide Open;
    var last := |own| - 1;
    assert own[last].id == ids(last);
    if i >= |history| {
      assert (history + own)[i] == own[i - |history|];
      assert own[i - |history|].id == ids(i - |history|);
    } else {
      assert (history + own)[i] == history[i] && history[i].id != ids(last);
    }
  }

  lemma TouchLast(history: seq<Row>, own: seq<Row>, ids: Supply, at: real)
    requires Fresh(ids) && ClosedHistory(history, ids) && OwnRows(own, ids) && own != []
    ensures Touch(history + own, own[|own| - 1].id, at)
         == history + (own[..|own| - 1] + [own[|own| - 1].(lastActivityAt := at)])
  {
    hide ClosedHistory, OwnRows, Fresh;
    forall i: nat | i < |history + own|
      ensures (history + own)[i].id == own[|own| - 1].id <==> i == |history + own| - 1
    {
      OnlyLastMatches(history, own, ids, i);
    }
  }

  lemma CloseLast(history: seq<Row>, own: seq<Row>, ids: Supply, at: real)
    requires Fresh(ids) && ClosedHistory(history, ids) && OwnRows(own, ids) && own != []
    ensures Close(history + own, own[|own| - 1].id, at)
         == history + (own[..|own| - 1] + [own[|own| - 1].(endedAt := Some(at), closeReason := Some("idle_gap"))])
  {
    hide ClosedHistory, OwnRows, Fresh;
    forall i: nat | i < |history + own|
      ensures (history + own)[i].id == own[|own| - 1].id <==> i == |history + own| - 1
    {
      OnlyLastMatches(history, own, ids, i);
    }
  }

  ghost predicate Numbered(own: seq<Row>, ids: Supply) { forall i :: 0 <= i < |own| ==> own[i].id == ids(i) }

  /** A new id conflicts with no row. */
  lemma InsertAppends(history: seq<Row>, own: seq<Row>, ids: Supply, at: real, clock: real)
    requires Fresh(ids) && ClosedHistory(history, ids) && Numbered(own, ids)
    ensures Insert(history + own, ids(|own|), at, clock)
         == history + (own + [Row(ids(|own|), at, at, clock, None, None)])
  {
    hide Open;
    var rows := history + own;
    forall i | 0 <= i < |rows|
      ensures rows[i].id != ids(|own|)
    {
      assert i >= |history| ==> rows[i] == own[i - |history|] && own[i - |history|].id == ids(i - |history|);
    }
  }

  lemma {:induction false} TableHoldsSessions(history: seq<Row>, arrivals: seq<Arrival>, limit: real, ids: Supply)
    requires Fresh(ids) && ClosedHistory(history, ids)
    ensures var own := SessionRows(arrivals, limit, ids);
            TableAfter(history, arrivals, limit, ids) == Table(history + own, |own|)
    ensures arrivals != [] ==>
              TableAnswer(history, arrivals, limit, ids) == ids(|SessionRows(arrivals, limit, ids)| - 1)
  {
    if arrivals == [] {
      assert history + [] == history;
    } else {
      var n := |arrivals| - 1;
      TableHoldsSessions(history, arrivals[..n], limit, ids);
      SessionRowsOwn(arrivals[..n], limit, ids);
      AssignLast(history, SessionRows(arrivals[..n], limit, ids), limit, ids, arrivals[n]);
    }
  }

  /** One assignment seen on the table's own rows. */
  lemma AssignLast(history: seq<Row>, own: seq<Row>, limit: real, ids: Supply, a: Arrival)
    requires Fresh(ids) && ClosedHistory(history, ids) && OwnRows(own, ids)
    ensures var next := AddTo(own, limit, ids, a);
            Assign(Table(history + own, |own|), limit, ids, a) == (Table(history + next, |next|), ids(|next| - 1))
  {
    var m := |own| - 1;
    if own == [] {
      assert history + own == history;
      NothingOpen(history, ids);
      InsertAppends(history, own, ids, a.at, a.clock);
      assert own + [Row(ids(0), a.at, a.at, a.clock, None, None)] == [Row(ids(0), a.at, a.at, a.clock, None, None)];
    } else {
      LatestIsLast(history, own, ids);
      assert own[m].id == ids(m);
      var closed := own[..m] + [own[m].(endedAt := Some(a.at), closeReason := Some("idle_gap"))];
      assert Numbered(closed, ids);
      CloseLast(history, own, ids, a.at);
      TouchLast(history, own, ids, a.at);
      InsertAppends(history, closed, ids, a.at, a.clock);
      hide Latest, Close, Touch, Insert, ClosedHistory, OwnRows, Fresh, Numbered;
    }
  }

  // ----- both forms agree -----

  function Times(arrivals: seq<Arrival>): seq<real> {
    seq(|arrivals|, i requires 0 <= i < |arrivals| => arrivals[i].at)
  }

  lemma AddToLength(own: seq<Row>, limit: real, ids: Supply, a: Arrival)
    requires own != []
    ensures |AddTo(own, limit, ids, a)| == |own| + if a.at - own[|own| - 1].lastActivityAt >= limit then 1 else 0
  {
  }

  lemma SessionRowsSnoc(arrivals: seq<Arrival>, limit: real, ids: Supply)
    requires |arrivals| >= 2
    ensures var n := |arrivals| - 1;
            |SessionRows(arrivals, limit, ids)|
            == |SessionRows(arrivals[..n], limit, ids)| + if arrivals[n].at - arrivals[n - 1].at >= limit then 1 else 0
  {
    var n := |arrivals| - 1;
    var before := SessionRows(arrivals[..n], limit, ids);
    assert SessionRows(arrivals, limit, ids) == AddTo(before, limit, ids, arrivals[n]);
    hide SessionRows, AddTo, OwnRows;
    SessionRowsOwn(arrivals[..n], limit, ids);
    AddToLength(before, limit, ids, arrivals[n]);
  }

  lemma OneRow(a: Arrival, limit: real, ids: Supply)
    ensures |SessionRows([a], limit, ids)| == 1
  {
  }

  lemma {:induction false} RowsAreSessions(arrivals: seq<Arrival>, limit: real, ids: Supply)
    requires arrivals != []
    ensures |SessionRows(arrivals, limit, ids)| == SessionNo(Times(arrivals), limit, |arrivals| - 1) + 1
  {
    hide SessionNo, SessionRows;
    var n, times := |arrivals| - 1, Times(arrivals);
    SessionNoSnoc(times, limit);
    if n == 0 {
      OneRow(arrivals[0], limit, ids);
      assert arrivals == [arrivals[0]];
    } else {
      RowsAreSessions(arrivals[..n], limit, ids);
      SessionRowsSnoc(arrivals, limit, ids);
      assert times[..n] == Times(arrivals[..n]);
      assert times[n] == arrivals[n].at && times[n - 1] == arrivals[n - 1].at;
    }
  }

  /** The id each form gives the k-th utterance. */
  function MemoryId(times: seq<real>, limit: real, ids: Supply, k: nat): Id
    requires k < |times|
  {
    MemoryAnswer(times[..k + 1], limit, ids).sessionId
  }

  function TableId(history: seq<Row>, arrivals: seq<Arrival>, limit: real, ids: Supply, k: nat): Id
    requires k < |arrivals|
  {
    TableAnswer(history, arrivals[..k + 1], limit, ids)
  }

  lemma IdsNumberSessions(history: seq<Row>, arrivals: seq<Arrival>, limit: real, f: Supply, g: Supply, k: nat)
    requires Fresh(g) && ClosedHistory(history, g) && k < |arrivals|
    ensures var no := SessionNo(Times(arrivals), limit, k);
            MemoryId(Times(arrivals), limit, f, k) == f(no) && TableId(history, arrivals, limit, g, k) == g(no)
  {
    var prefix := arrivals[..k + 1];
    var times := Times(arrivals);
    assert times[..k + 1] == Times(prefix);
    MemoryNumbers(Times(prefix), limit, f);
    TableHoldsSessions(history, prefix, limit, g);
    RowsAreSessions(prefix, limit, g);
    hide SessionNo, MemoryAnswer, TableAnswer, MemoryAfter, TableAfter, SessionRows, Fresh, ClosedHistory;
    assert times == times[..k + 1] + times[k + 1..];
    SessionNoPrefix(times[..k + 1], times[k + 1..], limit, k);
  }

  /** Starting with no open session, the table splits any utterances into the same sessions as the machine in
      memory, whatever ids each draws: two utterances share a session exactly when no gap between them
      reaches the limit. */
  lemma BothFormsAgree(history: seq<Row>, arrivals: seq<Arrival>, limit: real, f: Supply, g: Supply, i: nat, j: nat)
    requires Fresh(f) && Fresh(g) && ClosedHistory(history, g) && i <= j < |arrivals|
    ensures var times := Times(arrivals);
            && (MemoryId(times, limit, f, i) == MemoryId(times, limit, f, j) <==> NoGap(times, limit, i, j))
            && (TableId(history, arrivals, limit, g, i) == TableId(history, arrivals, limit, g, j)
                <==> NoGap(times, limit, i, j))
  {
    var times := Times(arrivals);
    IdsNumberSessions(history, arrivals, limit, f, g, i);
    IdsNumberSessions(history, arrivals, limit, f, g, j);
    SessionsAreMaximalRuns(times, limit, i, j);
    hide SessionNo, MemoryId, TableId, NoGap, ClosedHistory;
  }

  /** At most one row is ever open, the last one, and it is the machine's session; no row of the history changes. */
  lemma AtMostOneOpen(history: seq<Row>, arrivals: seq<Arrival>, limit: real, f: Supply, g: Supply)
    requires Fresh(g) && ClosedHistory(history, g)
    ensures var rows := TableAfter(history, arrivals, limit, g).rows;
            && history <= rows
            && (forall i :: 0 <= i < |rows| && Open(rows[i]) ==> i == |rows| - 1 >= |history|)
            && (arrivals != [] ==>
                  var m := MemoryAfter(Times(arrivals), limit, f);
                  && |rows| > |history| && Open(rows[|rows| - 1])
                  && m.lastActivityAt == Some(rows[|rows| - 1].lastActivityAt)
                  && m.drawn == |rows| - |history|)
  {
    TableHoldsSessions(history, arrivals, limit, g);
    SessionRowsOwn(arrivals, limit, g);
    if arrivals != [] {
      MemoryNumbers(Times(arrivals), limit, f);
      RowsAreSessions(arrivals, limit, g);
    }
    hide SessionNo, MemoryAfter, MemoryAnswer, TableAfter, SessionRows, TableAnswer;
    var rows, own := TableAfter(history, arrivals, limit, g).rows, SessionRows(arrivals, limit, g);
    assert rows == history + own;
    forall i | 0 <= i < |rows| && Open(rows[i])
      ensures i == |rows| - 1 >= |history|
    {
      assert i >= |history| ==> rows[i] == own[i - |history|];
    }
  }
}
