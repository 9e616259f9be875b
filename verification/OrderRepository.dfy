/** The order repository: the one place that writes order rows. */
module OrderRepo {
  import opened Wrappers
  import opened OrderStatus
  import opened Orders
  import opened DecimalText
  import opened Trigger

  /** `updateMany` on one id: the row if it exists and matches. */
  function Updated(rows: map<OrderId, Row>, id: OrderId, w: Write): map<OrderId, Row> {
    if id in rows then rows[id := Apply(rows[id], w)] else rows
  }

  ghost predicate UniqueIds(rows: map<OrderId, Row>) {
    forall i, j :: i in rows && j in rows && rows[i].terms.executionId == rows[j].terms.executionId ==> i == j
  }

  /** The `where` clauses of the list queries. A null submission time compares less than nothing. */
  datatype Query =
    | ByStatus(status: Status)
    | StuckExecuting(olderThanMs: nat, now: int)
    | Triggerable(price: Decimal)

  predicate Selects(q: Query, r: Row) {
    match q
    case ByStatus(s) => r.status == s
    case StuckExecuting(olderThanMs, now) =>
      r.status == EXECUTING && r.submittedAt.Some? && r.submittedAt.value < now - olderThanMs
    case Triggerable(price) =>
      var trigger := r.terms.triggerPrice * Pow10(price.places);
      && r.status == PENDING
      && ((r.terms.side == SELL && trigger >= price.units * Pow10(18)) ||
          (r.terms.side == BUY && trigger <= price.units * Pow10(18)))
  }

  function Where(rows: map<OrderId, Row>, q: Query): set<OrderId> {
    set id | id in rows && Selects(q, rows[id])
  }

  /** What a list query sorts by, ascending. The update time that ByStatus sorts by is not a column of the model. */
  function SortKey(q: Query, r: Row): int {
    match q
    case ByStatus(_) => 0
    case StuckExecuting(_, _) => if r.submittedAt.Some? then r.submittedAt.value else 0
    case Triggerable(_) => r.terms.createdAt
  }

  ghost predicate InOrder(rows: map<OrderId, Row>, q: Query, ids: seq<OrderId>)
    requires forall i :: 0 <= i < |ids| ==> ids[i] in rows
  {
    forall i, j :: 0 <= i < j < |ids| ==> ids[i] != ids[j] && SortKey(q, rows[ids[i]]) <= SortKey(q, rows[ids[j]])
  }

  /**
   `ids` lists selected rows in the order of the query, none twice, and all of them
   unless there are more than the limit; then the ones left out come later.
   */
  ghost predicate Lists(rows: map<OrderId, Row>, q: Query, limit: nat, ids: seq<OrderId>) {
    && |ids| == (if |Where(rows, q)| <= limit then |Where(rows, q)| else limit)
    && (forall i :: 0 <= i < |ids| ==> ids[i] in rows && Selects(q, rows[ids[i]]))
    && InOrder(rows, q, ids)
    && (forall id, i :: id in rows && Selects(q, rows[id]) && id !in ids && 0 <= i < |ids| ==>
          SortKey(q, rows[ids[i]]) <= SortKey(q, rows[id]))
    && (|Where(rows, q)| <= limit ==> forall id :: id in rows && Selects(q, rows[id]) ==> id in ids)
  }

  /**
   The list is of EXECUTING orders submitted before `bound`, the oldest submission
   first, none twice, and of all of them unless the limit cuts off later ones.
   */
  ghost predicate OldestSubmittedBefore(rows: map<OrderId, Row>, bound: int, limit: nat, ids: seq<OrderId>) {
    && |ids| <= limit
    && (forall i :: 0 <= i < |ids| ==>
          && ids[i] in rows && rows[ids[i]].status == EXECUTING && rows[ids[i]].submittedAt.Some?
          && rows[ids[i]].submittedAt.value < bound)
    && (forall i, j :: 0 <= i < j < |ids| ==>
          ids[i] != ids[j] && rows[ids[i]].submittedAt.value <= rows[ids[j]].submittedAt.value)
    && (forall id :: id in rows && rows[id].status == EXECUTING && rows[id].submittedAt.Some?
                     && rows[id].submittedAt.value < bound && id !in ids ==>
          |ids| == limit && forall i :: 0 <= i < |ids| ==>
            rows[ids[i]].submittedAt.value <= rows[id].submittedAt.value)
  }

  lemma StuckAreListed(rows: map<OrderId, Row>, olderThanMs: nat, now: int, limit: nat, ids: seq<OrderId>)
    requires Lists(rows, StuckExecuting(olderThanMs, now), limit, ids)
    ensures OldestSubmittedBefore(rows, now - olderThanMs, limit, ids)
  {
    var q := StuckExecuting(olderThanMs, now);
    forall id | id in rows && rows[id].status == EXECUTING && rows[id].submittedAt.Some?
                && rows[id].submittedAt.value < now - olderThanMs && id !in ids
      ensures |ids| == limit
      ensures forall i :: 0 <= i < |ids| ==> rows[ids[i]].submittedAt.value <= rows[id].submittedAt.value
    {
      assert Selects(q, rows[id]);
      forall i | 0 <= i < |ids| ensures rows[ids[i]].submittedAt.value <= rows[id].submittedAt.value {
        assert SortKey(q, rows[ids[i]]) <= SortKey(q, rows[id]);
      }
    }
  }

  lemma ListsInOrder(rows: map<OrderId, Row>, q: Query, limit: nat, ids: seq<OrderId>)
    requires |ids| == if |Where(rows, q)| <= limit then |Where(rows, q)| else limit
    requires forall i :: 0 <= i < |ids| ==> ids[i] in rows && ids[i] in Where(rows, q)
    requires InOrder(rows, q, ids)
    requires forall id, i :: id in Where(rows, q) && id !in ids && 0 <= i < |ids| ==>
               SortKey(q, rows[ids[i]]) <= SortKey(q, rows[id])
    requires |Where(rows, q)| <= limit ==> forall id :: id in Where(rows, q) ==> id in ids
    ensures Lists(rows, q, limit, ids)
  {
    forall id | id in rows && Selects(q, rows[id]) ensures id in Where(rows, q) {
    }
  }

  predicate IsFirst(rows: map<OrderId, Row>, q: Query, s: set<OrderId>, id: OrderId)
    requires forall j :: j in s ==> j in rows
  {
    id in s && forall j :: j in s ==> SortKey(q, rows[id]) <= SortKey(q, rows[j])
  }

  lemma {:induction false} SomeIsFirst(rows: map<OrderId, Row>, q: Query, s: set<OrderId>)
    requires s != {} && forall j :: j in s ==> j in rows
    ensures exists id :: IsFirst(rows, q, s, id)
    decreases |s|
  {
    var id :| id in s;
    var rest := s - {id};
    if rest == {} {
      assert s == {id};
      assert IsFirst(rows, q, s, id);
    } else {
      SomeIsFirst(rows, q, rest);
      var least :| IsFirst(rows, q, rest, least);
      assert forall j :: j in s ==> j == id || j in rest;
      assert IsFirst(rows, q, s, if SortKey(q, rows[id]) <= SortKey(q, rows[least]) then id else least);
    }
  }

  /** `ids` are taken from the front of `matching`, and `rest` is what remains. */
  ghost predicate Taken(rows: map<OrderId, Row>, q: Query, matching: set<OrderId>, rest: set<OrderId>,
                        ids: seq<OrderId>)
  {
    && matching <= rows.Keys && rest <= matching && |ids| + |rest| == |matching|
    && (forall id :: id in matching <==> id in rest || id in ids)
    && (forall i :: 0 <= i < |ids| ==> ids[i] in matching && ids[i] !in rest)
    && InOrder(rows, q, ids)
    && (forall i, id :: 0 <= i < |ids| && id in rest ==> SortKey(q, rows[ids[i]]) <= SortKey(q, rows[id]))
  }

  lemma TakenOneMore(rows: map<OrderId, Row>, q: Query, matching: set<OrderId>, rest: set<OrderId>,
                     ids: seq<OrderId>, id: OrderId)
    requires Taken(rows, q, matching, rest, ids) && IsFirst(rows, q, rest, id)
    ensures Taken(rows, q, matching, rest - {id}, ids + [id])
  {
  }

  // ---- writes by many actors -----------------------------------------------------

  /** One write to one order, and who issued it. */
  datatype Event = Event(actor: nat, id: OrderId, write: Write)

  /** The orders after all writes, in the order in which the database applied them. */
  function Play(rows: map<OrderId, Row>, log: seq<Event>): (r: map<OrderId, Row>)
    ensures r.Keys == rows.Keys
  {
    if |log| == 0 then rows
    else
      var last := log[|log| - 1];
      Updated(Play(rows, log[..|log| - 1]), last.id, last.write)
  }

  lemma PlaySnoc(rows: map<OrderId, Row>, log: seq<Event>, e: Event)
    ensures Play(rows, log + [e]) == Updated(Play(rows, log), e.id, e.write)
  {
    assert (log + [e])[..|log|] == log;
  }

  function WritesTo(id: OrderId, log: seq<Event>): seq<Write> {
    if |log| == 0 then []
    else WritesTo(id, log[..|log| - 1]) + if log[|log| - 1].id == id then [log[|log| - 1].write] else []
  }

  /** Each row sees exactly the writes to it. */
  lemma {:induction false} PlayRow(rows: map<OrderId, Row>, log: seq<Event>, id: OrderId)
    ensures id in rows ==> Play(rows, log)[id] == ApplyAll(rows[id], WritesTo(id, log))
  {
    if |log| != 0 {
      var front, last := log[..|log| - 1], log[|log| - 1];
      PlayRow(rows, front, id);
      if last.id != id {
        assert WritesTo(id, log) == WritesTo(id, front);
      } else if id in rows {
        ApplyAllSnoc(rows[id], WritesTo(id, front), last.write);
      }
    }
  }

  lemma {:induction false} PlayConcat(rows: map<OrderId, Row>, log: seq<Event>, more: seq<Event>)
    ensures Play(rows, log + more) == Play(Play(rows, log), more)
    decreases |more|
  {
    if |more| == 0 {
      assert log + more == log;
    } else {
      var front := more[..|more| - 1];
      assert (log + more)[..|log + more| - 1] == log + front;
      PlayConcat(rows, log, front);
    }
  }

  /** The write takes effect on the status of a row. */
  predicate Takes(rows: map<OrderId, Row>, e: Event) {
    e.id in rows && Matches(rows[e.id], e.write) && !e.write.RecordTxHash?
  }

  /** The orders that writes of `actor` took effect on, in order. */
  function Effective(rows: map<OrderId, Row>, log: seq<Event>, actor: nat): seq<OrderId> {
    if |log| == 0 then []
    else
      var front, last := log[..|log| - 1], log[|log| - 1];
      Effective(rows, front, actor) + if last.actor == actor && Takes(Play(rows, front), last) then [last.id] else []
  }

  lemma {:induction false} EffectiveConcat(rows: map<OrderId, Row>, log: seq<Event>, more: seq<Event>, actor: nat)
    ensures Effective(rows, log + more, actor) == Effective(rows, log, actor) + Effective(Play(rows, log), more, actor)
    decreases |more|
  {
    if |more| == 0 {
      assert log + more == log;
    } else {
      var front := more[..|more| - 1];
      assert (log + more)[..|log + more| - 1] == log + front;
      PlayConcat(rows, log, front);
      EffectiveConcat(rows, log, front, actor);
    }
  }

  lemma VersionsGrow(rows: map<OrderId, Row>, log: seq<Event>, id: OrderId)
    requires id in rows
    ensures Play(rows, log)[id].version >= rows[id].version
  {
    PlayRow(rows, log, id);
    VersionCountsStatusWrites(rows[id], WritesTo(id, log));
  }

  /** A row on which a write took effect is not as it was. */
  lemma {:induction false} EffectiveMoves(rows: map<OrderId, Row>, log: seq<Event>, actor: nat, id: OrderId)
    requires id in Effective(rows, log, actor)
    ensures id in rows && Play(rows, log)[id].version > rows[id].version
  {
    var front := log[..|log| - 1];
    if id in Effective(rows, front, actor) {
      EffectiveMoves(rows, front, actor, id);
    } else {
      VersionsGrow(rows, front, id);
    }
  }

  lemma TracksMore(before: map<OrderId, Row>, log: seq<Event>, more: seq<Event>, actor: nat)
    ensures Play(before, log + more) == Play(Play(before, log), more)
    ensures Effective(before, log + more, actor)
         == Effective(before, log, actor) + Effective(Play(before, log), more, actor)
  {
    PlayConcat(before, log, more);
    EffectiveConcat(before, log, more, actor);
  }

  /** Others do something, or nothing at all. */
  ghost predicate OthersBy(others: nat -> seq<Event>, me: nat) { forall i :: ByOthers(others(i), me) }

  ghost predicate Quiet(others: nat -> seq<Event>) { forall i :: others(i) == [] }

  /** Nothing in `log` is by `actor`. */
  predicate ByOthers(log: seq<Event>, actor: nat) { forall i :: 0 <= i < |log| ==> log[i].actor != actor }

  lemma {:induction false} OthersHaveNoEffectOfMine(rows: map<OrderId, Row>, log: seq<Event>, actor: nat)
    requires ByOthers(log, actor)
    ensures Effective(rows, log, actor) == []
  {
    if |log| != 0 { OthersHaveNoEffectOfMine(rows, log[..|log| - 1], actor); }
  }

  /** Writes by others, and then one of mine. */
  lemma OthersThenMine(rows: map<OrderId, Row>, others: seq<Event>, e: Event)
    requires ByOthers(others, e.actor)
    ensures Play(rows, others + [e]) == Updated(Play(rows, others), e.id, e.write)
    ensures Effective(rows, others + [e], e.actor) == if Takes(Play(rows, others), e) then [e.id] else []
  {
    assert (others + [e])[..|others|] == others;
    OthersHaveNoEffectOfMine(rows, others, e.actor);
  }

  lemma PlayKeepsTerms(rows: map<OrderId, Row>, log: seq<Event>, id: OrderId)
    requires id in rows
    ensures Play(rows, log)[id].terms == rows[id].terms
  {
    PlayRow(rows, log, id);
    EvidenceStays(rows[id], WritesTo(id, log));
  }

  lemma PlayKeepsUniqueIds(rows: map<OrderId, Row>, log: seq<Event>)
    requires UniqueIds(rows)
    ensures UniqueIds(Play(rows, log))
  {
    forall id | id in rows ensures Play(rows, log)[id].terms == rows[id].terms {
      PlayKeepsTerms(rows, log, id);
    }
  }

  /**
   The settled row: the status, one version on, the time of settling, and the hash,
   block and output where they are given; where not, what was there stays.
   */
  predicate SettledAs(before: Row, after: Row, status: Status, hash: Option<Hash>, block: Option<nat>,
                    amountOut: Option<nat>, now: int)
  {
    && after.status == status && after.version == before.version + 1 && after.confirmedAt == Some(now)
    && after.txHash == (if hash.Some? then hash else before.txHash)
    && after.blockNumber == (if block.Some? then block else before.blockNumber)
    && after.amountOut == (if amountOut.Some? then amountOut else before.amountOut)
    && after.terms == before.terms && after.submittedAt == before.submittedAt
  }

  class OrderRepository {
    var rows: map<OrderId, Row>

    constructor ()
      ensures rows == map[]
    {
      rows := map[];
    }

    /** Refuses a duplicate order id or execution id, as the unique columns do. */
    method Create(id: OrderId, terms: Terms) returns (created: bool)
      requires UniqueIds(rows)
      modifies this
      ensures UniqueIds(rows)
      ensures created <==>
              id !in old(rows) && forall j :: j in old(rows) ==> old(rows)[j].terms.executionId != terms.executionId
      ensures rows == if created then old(rows)[id := NewRow(terms)] else old(rows)
    {
      created := id !in rows && forall j :: j in rows ==> rows[j].terms.executionId != terms.executionId;
      if created {
        rows := rows[id := NewRow(terms)];
      }
    }

    method FindById(id: OrderId) returns (r: Option<Row>)
      ensures r == if id in rows then Some(rows[id]) else None
    {
      r := if id in rows then Some(rows[id]) else None;
    }

    method FindByExecutionId(executionId: ExecutionId) returns (r: Option<OrderId>)
      ensures r.Some? ==> r.value in rows && rows[r.value].terms.executionId == executionId
      ensures r.None? ==> forall id :: id in rows ==> rows[id].terms.executionId != executionId
    {
      var found := set id | id in rows && rows[id].terms.executionId == executionId;
      if found == {} {
        r := None;
        assert forall id :: id in rows && rows[id].terms.executionId == executionId ==> id in found;
      } else {
        var id :| id in found;
        r := Some(id);
      }
    }

    method UpdateMany(id: OrderId, w: Write) returns (r: Option<Row>)
      modifies this
      ensures rows == Updated(old(rows), id, w)
      ensures r.Some? <==> id in old(rows) && Matches(old(rows)[id], w)
      ensures r.Some? ==> r.value == rows[id]
    {
      if id !in rows || !Matches(rows[id], w) { return None; }
      rows := rows[id := Apply(rows[id], w)];
      return Some(rows[id]);
    }

    /** Other actors write. */
    method Meanwhile(log: seq<Event>)
      modifies this
      ensures rows == Play(old(rows), log)
    {
      ghost var before := rows;
      var i := 0;
      while i < |log|
        invariant 0 <= i <= |log|
        invariant rows == Play(before, log[..i])
      {
        assert log[..i + 1][..i] == log[..i];
        var _ := UpdateMany(log[i].id, log[i].write);
        i := i + 1;
      }
      assert log[..|log|] == log;
    }

    /** `txHash` absent leaves the hash alone, null erases it. */
    method TransitionStatus(id: OrderId, expectedStatus: Status, expectedVersion: nat, nextStatus: Status,
                            txHash: Option<Option<Hash>>)
      returns (r: Option<Row>)
      modifies this
      ensures rows == Updated(old(rows), id, Transition(expectedStatus, expectedVersion, nextStatus, txHash))
      ensures r.Some? <==>
              id in old(rows) && old(rows)[id].status == expectedStatus && old(rows)[id].version == expectedVersion
      ensures r.Some? ==> r.value == rows[id]
      ensures r.Some? ==> r.value.txHash == if txHash.Some? then txHash.value else old(rows)[id].txHash
    {
      r := UpdateMany(id, Transition(expectedStatus, expectedVersion, nextStatus, txHash));
    }

    method RecordHash(id: OrderId, txHash: Hash, now: int) returns (r: Option<Row>)
      modifies this
      ensures rows == Updated(old(rows), id, RecordTxHash(txHash, now))
      ensures r.Some? <==> id in old(rows) && old(rows)[id].status == EXECUTING
      ensures r.Some? ==> rows[id] == old(rows)[id].(txHash := Some(txHash), submittedAt := Some(now))
    {
      r := UpdateMany(id, RecordTxHash(txHash, now));
    }

    method ForceExecutedFromReconciliation(id: OrderId, expectedStatus: Status, txHash: Option<Hash>,
                                           blockNumber: Option<nat>, amountOut: Option<nat>, now: int)
      returns (r: Option<Row>)
      modifies this
      ensures rows == Updated(old(rows), id, ForceExecuted(expectedStatus, txHash, blockNumber, amountOut, now))
      ensures r.Some? <==> id in old(rows) && old(rows)[id].status == expectedStatus
      ensures r.Some? ==> SettledAs(old(rows)[id], rows[id], EXECUTED, txHash, blockNumber, amountOut, now)
    {
      r := UpdateMany(id, ForceExecuted(expectedStatus, txHash, blockNumber, amountOut, now));
    }

    method MarkConfirmed(id: OrderId, txHash: Hash, blockNumber: nat, amountOut: Option<nat>, now: int)
      returns (r: Option<Row>)
      modifies this
      ensures rows == Updated(old(rows), id, Orders.MarkConfirmed(txHash, blockNumber, amountOut, now))
      ensures r.Some? <==> id in old(rows) && old(rows)[id].status == EXECUTING
      ensures r.Some? ==> SettledAs(old(rows)[id], rows[id], EXECUTED, Some(txHash), Some(blockNumber), amountOut, now)
    {
      r := UpdateMany(id, Orders.MarkConfirmed(txHash, blockNumber, amountOut, now));
    }

    method MarkFailed(id: OrderId, txHash: Option<Hash>, blockNumber: Option<nat>, now: int) returns (r: Option<Row>)
      modifies this
      ensures rows == Updated(old(rows), id, Orders.MarkFailed(txHash, blockNumber, now))
      ensures r.Some? <==> id in old(rows) && old(rows)[id].status == EXECUTING
      ensures r.Some? ==> SettledAs(old(rows)[id], rows[id], FAILED, txHash, blockNumber, None, now)
    {
      r := UpdateMany(id, Orders.MarkFailed(txHash, blockNumber, now));
    }

    method First(q: Query, s: set<OrderId>) returns (id: OrderId)
      requires s != {} && forall j :: j in s ==> j in rows
      ensures IsFirst(rows, q, s, id)
    {
      SomeIsFirst(rows, q, s);
      id :| id in s && IsFirst(rows, q, s, id);
    }

    /** The rows of a query, in its order, cut off at the limit. */
    method FindMany(q: Query, limit: nat) returns (ids: seq<OrderId>)
      ensures Lists(rows, q, limit, ids)
      ensures q.StuckExecuting? ==> OldestSubmittedBefore(rows, q.now - q.olderThanMs, limit, ids)
      ensures q.ByStatus? ==>
                && (forall id :: id in ids ==> id in rows && rows[id].status == q.status)
                && (|ids| < limit ==> forall id :: id in rows && rows[id].status == q.status ==> id in ids)
    {
      var matching := Where(rows, q);
      var rest := matching;
      ids := [];
      while rest != {} && |ids| < limit
        invariant Taken(rows, q, matching, rest, ids) && |ids| <= limit
        decreases |rest|
      {
        var id := First(q, rest);
        TakenOneMore(rows, q, matching, rest, ids, id);
        rest := rest - {id};
        ids := ids + [id];
      }
      ListsInOrder(rows, q, limit, ids);
      if q.StuckExecuting? { StuckAreListed(rows, q.olderThanMs, q.now, limit, ids); }
    }
  }
}
