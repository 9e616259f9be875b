/** The trigger engine, among other actors writing the same orders. */
module TriggerEngine {
  import opened Wrappers
  import opened OrderStatus
  import opened Orders
  import opened Trigger
  import opened OrderRepo
  import PriceService

  // ---- what several engines do together -----------------------------------------

  function Claim(engine: nat, id: OrderId, version: nat): Event {
    Event(engine, id, Transition(PENDING, version, TRIGGERED))
  }

  predicate IsClaim(w: Write) { w.Transition? && w.expectedStatus == PENDING && w.nextStatus == TRIGGERED }

  predicate Wins(rows: map<OrderId, Row>, e: Event) {
    IsClaim(e.write) && e.id in rows && Matches(rows[e.id], e.write)
  }

  /** The orders that `engine` moved from PENDING to TRIGGERED, in order. */
  function TriggeredBy(rows: map<OrderId, Row>, log: seq<Event>, engine: nat): seq<OrderId> {
    if |log| == 0 then []
    else
      var front, last := log[..|log| - 1], log[|log| - 1];
      TriggeredBy(rows, front, engine) + if last.actor == engine && Wins(Play(rows, front), last) then [last.id] else []
  }

  /** Nothing in the system puts an order back to PENDING. */
  predicate NeverBackToPending(log: seq<Event>) {
    forall i :: 0 <= i < |log| ==> !(log[i].write.Transition? && log[i].write.nextStatus == PENDING)
  }

  lemma {:induction false} TriggeredIsNotPending(rows: map<OrderId, Row>, log: seq<Event>, engine: nat, id: OrderId)
    requires NeverBackToPending(log) && id in TriggeredBy(rows, log, engine)
    ensures id in Play(rows, log) && Play(rows, log)[id].status != PENDING
  {
    var front, last := log[..|log| - 1], log[|log| - 1];
    if id in TriggeredBy(rows, front, engine) {
      TriggeredIsNotPending(rows, front, engine, id);
    }
  }

  /**
   Exactly-once triggering: however engines, users and everyone else interleave, no
   order is triggered by two engines, or twice by one.
   */
  lemma {:induction false} NoOrderTriggeredTwice(rows: map<OrderId, Row>, log: seq<Event>, a: nat, b: nat, i: nat,
                                                 j: nat)
    requires NeverBackToPending(log)
    requires i < |TriggeredBy(rows, log, a)| && j < |TriggeredBy(rows, log, b)|
    requires TriggeredBy(rows, log, a)[i] == TriggeredBy(rows, log, b)[j]
    ensures a == b && i == j
  {
    var front, last := log[..|log| - 1], log[|log| - 1];
    var id := TriggeredBy(rows, log, a)[i];
    var inA, inB := i < |TriggeredBy(rows, front, a)|, j < |TriggeredBy(rows, front, b)|;
    if inA { TriggeredIsNotPending(rows, front, a, id); }
    if inB { TriggeredIsNotPending(rows, front, b, id); }
    if inA && inB { NoOrderTriggeredTwice(rows, front, a, b, i, j); }
  }

  lemma {:induction false} OthersDoNotTriggerForMe(rows: map<OrderId, Row>, log: seq<Event>, others: seq<Event>,
                                                   me: nat)
    requires forall i :: 0 <= i < |others| ==> others[i].actor != me
    ensures TriggeredBy(rows, log + others, me) == TriggeredBy(rows, log, me)
    decreases |others|
  {
    if |others| == 0 {
      assert log + others == log;
    } else {
      var front := others[..|others| - 1];
      assert (log + others)[..|log + others| - 1] == log + front;
      OthersDoNotTriggerForMe(rows, log, front, me);
    }
  }

  lemma OneMoreClaim(rows: map<OrderId, Row>, log: seq<Event>, others: seq<Event>, e: Event)
    requires forall i :: 0 <= i < |others| ==> others[i].actor != e.actor
    ensures var now := Play(Play(rows, log), others);
      && Play(rows, log + others + [e]) == Updated(now, e.id, e.write)
      && TriggeredBy(rows, log + others + [e], e.actor)
         == TriggeredBy(rows, log, e.actor) + if Wins(now, e) then [e.id] else []
  {
    PlayConcat(rows, log, others);
    OthersDoNotTriggerForMe(rows, log, others, e.actor);
    var longer := log + others + [e];
    assert longer[..|longer| - 1] == log + others;
  }

  /** The query and the domain rule agree on every side, status, trigger and price. */
  lemma FilterAgrees(price: Decimal, r: Row)
    ensures Selects(Triggerable(price), r) <==>
            r.status == PENDING && IsTriggered(r.terms.side, r.terms.triggerPrice, price)
  {
  }

  /**
   The list is of PENDING orders that the price fires, the oldest order first, none
   twice, and of all of them unless the limit cuts off younger ones.
   */
  ghost predicate OldestFired(rows: map<OrderId, Row>, price: Decimal, limit: nat, ids: seq<OrderId>) {
    && |ids| <= limit
    && (forall i :: 0 <= i < |ids| ==> ids[i] in rows && Fired(rows[ids[i]], price))
    && (forall i, j :: 0 <= i < j < |ids| ==>
          ids[i] != ids[j] && rows[ids[i]].terms.createdAt <= rows[ids[j]].terms.createdAt)
    && (forall id :: id in rows && Fired(rows[id], price) && id !in ids ==>
          |ids| == limit && forall i :: 0 <= i < |ids| ==> rows[ids[i]].terms.createdAt <= rows[id].terms.createdAt)
  }

  predicate Fired(r: Row, price: Decimal) {
    r.status == PENDING && IsTriggered(r.terms.side, r.terms.triggerPrice, price)
  }

  /** What the query lists are the oldest orders that the domain rule fires. */
  lemma FiredAreListed(rows: map<OrderId, Row>, price: Decimal, limit: nat, ids: seq<OrderId>)
    requires Lists(rows, Triggerable(price), limit, ids)
    ensures OldestFired(rows, price, limit, ids)
  {
    var q := Triggerable(price);
    forall i | 0 <= i < |ids| ensures Fired(rows[ids[i]], price) { FilterAgrees(price, rows[ids[i]]); }
    forall id | id in rows && Fired(rows[id], price) && id !in ids
      ensures |ids| == limit
      ensures forall i :: 0 <= i < |ids| ==> rows[ids[i]].terms.createdAt <= rows[id].terms.createdAt
    {
      FilterAgrees(price, rows[id]);
      forall i | 0 <= i < |ids| ensures rows[ids[i]].terms.createdAt <= rows[id].terms.createdAt {
        assert SortKey(q, rows[ids[i]]) <= SortKey(q, rows[id]);
      }
    }
  }

  // ---- what a pass writes -----------------------------------------------------------

  predicate Distinct(ids: seq<OrderId>) { forall i, j :: 0 <= i < j < |ids| ==> ids[i] != ids[j] }

  /** PENDING orders as the query read them. */
  predicate Read(snapshot: map<OrderId, Row>, candidates: seq<OrderId>) {
    forall i :: 0 <= i < |candidates| ==> candidates[i] in snapshot && snapshot[candidates[i]].status == PENDING
  }

  /** The claim of candidate number `i`, prepared from the row as it was read. */
  function ClaimOf(me: nat, snapshot: map<OrderId, Row>, candidates: seq<OrderId>, i: nat): Event
    requires Read(snapshot, candidates) && i < |candidates|
  {
    Claim(me, candidates[i], snapshot[candidates[i]].version)
  }

  /** Everything written up to claim number `n - 1`: before each claim what the others write, and then the claim. */
  function PassLog(me: nat, snapshot: map<OrderId, Row>, candidates: seq<OrderId>, others: nat -> seq<Event>, n: nat)
    : seq<Event>
    requires Read(snapshot, candidates) && n <= |candidates|
  {
    if n == 0 then []
    else PassLog(me, snapshot, candidates, others, n - 1) + others(n - 1)
         + [ClaimOf(me, snapshot, candidates, n - 1)]
  }

  /** The orders after claim number `n - 1`. */
  function RowsAfter(me: nat, snapshot: map<OrderId, Row>, candidates: seq<OrderId>, others: nat -> seq<Event>, n: nat)
    : map<OrderId, Row>
    requires Read(snapshot, candidates) && n <= |candidates|
  {
    if n == 0 then snapshot
    else
      var e := ClaimOf(me, snapshot, candidates, n - 1);
      Updated(Play(RowsAfter(me, snapshot, candidates, others, n - 1), others(n - 1)), e.id, e.write)
  }

  lemma {:induction false} RowsAfterLog(me: nat, snapshot: map<OrderId, Row>, candidates: seq<OrderId>,
                                        others: nat -> seq<Event>, n: nat)
    requires Read(snapshot, candidates) && n <= |candidates|
    ensures RowsAfter(me, snapshot, candidates, others, n)
         == Play(snapshot, PassLog(me, snapshot, candidates, others, n))
  {
    if n != 0 {
      var i := n - 1;
      var log := PassLog(me, snapshot, candidates, others, i);
      RowsAfterLog(me, snapshot, candidates, others, i);
      PlayConcat(snapshot, log, others(i));
      PlaySnoc(snapshot, log + others(i), ClaimOf(me, snapshot, candidates, i));
    }
  }

  /** The orders as they would be before claim number `n` if only the others had written. */
  function TheirRows(snapshot: map<OrderId, Row>, others: nat -> seq<Event>, n: nat): (rows: map<OrderId, Row>)
    ensures forall id :: id in rows <==> id in snapshot
  {
    if n == 0 then snapshot else Play(TheirRows(snapshot, others, n - 1), others(n - 1))
  }

  /**
   Nobody else has written the status of the order of claim number `i` since it was
   read: what they wrote up to then would have left the row at the version that was read.
   */
  predicate LeftAlone(snapshot: map<OrderId, Row>, candidates: seq<OrderId>, others: nat -> seq<Event>, i: nat) {
    && i < |candidates| && candidates[i] in snapshot
    && TheirRows(snapshot, others, i + 1)[candidates[i]].version == snapshot[candidates[i]].version
  }

  /** What the others write to an order before claim number `n`. */
  function TheirWrites(id: OrderId, others: nat -> seq<Event>, n: nat): seq<Write> {
    if n == 0 then [] else TheirWrites(id, others, n - 1) + WritesTo(id, others(n - 1))
  }

  lemma {:induction false} TheirRow(snapshot: map<OrderId, Row>, others: nat -> seq<Event>, n: nat, id: OrderId)
    requires id in snapshot
    ensures TheirRows(snapshot, others, n)[id] == ApplyAll(snapshot[id], TheirWrites(id, others, n))
  {
    if n != 0 {
      TheirRow(snapshot, others, n - 1, id);
      PlayRow(TheirRows(snapshot, others, n - 1), others(n - 1), id);
      ApplyAllConcat(snapshot[id], TheirWrites(id, others, n - 1), WritesTo(id, others(n - 1)));
    }
  }

  /** None of the writes of the others to the order, up to its claim, wrote its status. */
  lemma {:induction false} LeftAloneExactly(snapshot: map<OrderId, Row>, candidates: seq<OrderId>,
                                            others: nat -> seq<Event>, i: nat)
    requires i < |candidates| && candidates[i] in snapshot
    ensures LeftAlone(snapshot, candidates, others, i) <==>
            StatusWrites(snapshot[candidates[i]], TheirWrites(candidates[i], others, i + 1)) == 0
  {
    TheirRow(snapshot, others, i + 1, candidates[i]);
    VersionCountsStatusWrites(snapshot[candidates[i]], TheirWrites(candidates[i], others, i + 1));
  }

  function Unraced(snapshot: map<OrderId, Row>, candidates: seq<OrderId>, others: nat -> seq<Event>): seq<bool> {
    seq(|candidates|, i requires 0 <= i => LeftAlone(snapshot, candidates, others, i))
  }

  lemma SameRow(a: map<OrderId, Row>, b: map<OrderId, Row>, log: seq<Event>, id: OrderId)
    requires id in a && id in b && a[id] == b[id]
    ensures Play(a, log)[id] == Play(b, log)[id]
  {
    PlayRow(a, log, id);
    PlayRow(b, log, id);
  }

  /** An order that the pass has not claimed yet has seen the writes of the others only. */
  lemma {:induction false} UnclaimedRow(me: nat, snapshot: map<OrderId, Row>, candidates: seq<OrderId>,
                                        others: nat -> seq<Event>, n: nat, id: OrderId)
    requires Read(snapshot, candidates) && n <= |candidates| && id in snapshot
    requires forall i :: 0 <= i < n ==> candidates[i] != id
    ensures var rows := RowsAfter(me, snapshot, candidates, others, n);
            id in rows && rows[id] == TheirRows(snapshot, others, n)[id]
  {
    if n != 0 {
      UnclaimedRow(me, snapshot, candidates, others, n - 1, id);
      SameRow(RowsAfter(me, snapshot, candidates, others, n - 1), TheirRows(snapshot, others, n - 1), others(n - 1),
              id);
    }
  }

  /** Writes of the others that keep the version of a row keep its status. */
  lemma {:induction false} SameVersionSameStatus(snapshot: map<OrderId, Row>, others: nat -> seq<Event>, n: nat,
                                                 id: OrderId)
    requires id in snapshot
    ensures var now := TheirRows(snapshot, others, n)[id];
      now.version >= snapshot[id].version && (now.version == snapshot[id].version ==> now.status == snapshot[id].status)
  {
    if n != 0 {
      var rows := TheirRows(snapshot, others, n - 1);
      SameVersionSameStatus(snapshot, others, n - 1, id);
      PlayRow(rows, others(n - 1), id);
      VersionCountsStatusWrites(rows[id], WritesTo(id, others(n - 1)));
    }
  }

  lemma ClaimWinsExactly(me: nat, snapshot: map<OrderId, Row>, candidates: seq<OrderId>, others: nat -> seq<Event>,
                         i: nat)
    requires Read(snapshot, candidates) && Distinct(candidates) && i < |candidates|
    ensures Wins(Play(RowsAfter(me, snapshot, candidates, others, i), others(i)), ClaimOf(me, snapshot, candidates, i))
            <==> LeftAlone(snapshot, candidates, others, i)
  {
    var id := candidates[i];
    var before, theirs := RowsAfter(me, snapshot, candidates, others, i), TheirRows(snapshot, others, i);
    UnclaimedRow(me, snapshot, candidates, others, i, id);
    SameRow(before, theirs, others(i), id);
    SameVersionSameStatus(snapshot, others, i + 1, id);
    WinsByVersion(Play(before, others(i)), id, me, snapshot[id], TheirRows(snapshot, others, i + 1)[id]);
  }

  lemma WinsByVersion(now: map<OrderId, Row>, id: OrderId, engine: nat, read: Row, found: Row)
    requires id in now && now[id] == found && read.status == PENDING
    requires found.version == read.version ==> found.status == read.status
    ensures Wins(now, Claim(engine, id, read.version)) <==> found.version == read.version
  {
  }

  /** `wins` says which claims of the pass win. */
  ghost predicate Decides(me: nat, snapshot: map<OrderId, Row>, candidates: seq<OrderId>, others: nat -> seq<Event>,
                          wins: seq<bool>)
    requires Read(snapshot, candidates)
  {
    |wins| == |candidates| && forall i {:trigger wins[i]} :: 0 <= i < |candidates| ==>
      (wins[i] <==> Wins(Play(RowsAfter(me, snapshot, candidates, others, i), others(i)),
                         ClaimOf(me, snapshot, candidates, i)))
  }

  /** A claim wins exactly if nobody else has written the status of its order since the query. */
  lemma UnracedDecides(me: nat, snapshot: map<OrderId, Row>, candidates: seq<OrderId>, others: nat -> seq<Event>)
    requires Read(snapshot, candidates) && Distinct(candidates)
    ensures Decides(me, snapshot, candidates, others, Unraced(snapshot, candidates, others))
  {
    forall i | 0 <= i < |candidates|
      ensures Unraced(snapshot, candidates, others)[i]
              <==> Wins(Play(RowsAfter(me, snapshot, candidates, others, i), others(i)),
                        ClaimOf(me, snapshot, candidates, i))
    {
      ClaimWinsExactly(me, snapshot, candidates, others, i);
    }
  }

  /** The winners among the first `n` candidates, in order. */
  function Won(candidates: seq<OrderId>, wins: seq<bool>, n: nat): seq<OrderId>
    requires n <= |candidates| == |wins|
  {
    if n == 0 then []
    else
      var won := Won(candidates, wins, n - 1);
      if wins[n - 1] then won + [candidates[n - 1]] else won
  }

  /** Of the claims of a pass exactly those win. */
  lemma {:induction false} PassTriggers(me: nat, snapshot: map<OrderId, Row>, candidates: seq<OrderId>,
                                        others: nat -> seq<Event>, wins: seq<bool>, n: nat)
    requires Read(snapshot, candidates) && n <= |candidates| && OthersBy(others, me)
    requires Decides(me, snapshot, candidates, others, wins)
    ensures TriggeredBy(snapshot, PassLog(me, snapshot, candidates, others, n), me) == Won(candidates, wins, n)
  {
    if n != 0 {
      var i := n - 1;
      PassTriggers(me, snapshot, candidates, others, wins, i);
      RowsAfterLog(me, snapshot, candidates, others, i);
      OneMoreClaim(snapshot, PassLog(me, snapshot, candidates, others, i), others(i),
                   ClaimOf(me, snapshot, candidates, i));
    }
  }

  /** The orders in `won` are those of the first `n` candidates whose claims win. */
  ghost predicate WinsAre(candidates: seq<OrderId>, wins: seq<bool>, n: nat, won: seq<OrderId>)
    requires n <= |candidates| == |wins|
  {
    && Distinct(won)
    && (forall id :: id in won ==> id in candidates[..n])
    && (forall i :: 0 <= i < n ==> (candidates[i] in won <==> wins[i]))
  }

  lemma WinsOneMore(candidates: seq<OrderId>, wins: seq<bool>, i: nat, won: seq<OrderId>)
    requires i < |candidates| == |wins| && Distinct(candidates) && WinsAre(candidates, wins, i, won)
    ensures WinsAre(candidates, wins, i + 1, if wins[i] then won + [candidates[i]] else won)
  {
    assert candidates[i] !in candidates[..i];
    assert candidates[..i + 1] == candidates[..i] + [candidates[i]];
  }

  lemma {:induction false} WonExactly(candidates: seq<OrderId>, wins: seq<bool>, n: nat)
    requires n <= |candidates| == |wins| && Distinct(candidates)
    ensures WinsAre(candidates, wins, n, Won(candidates, wins, n))
  {
    if n != 0 {
      WonExactly(candidates, wins, n - 1);
      WinsOneMore(candidates, wins, n - 1, Won(candidates, wins, n - 1));
    }
  }

  /** The row of an order that was claimed: TRIGGERED, one version on, and nothing else. */
  function AsTriggered(r: Row): Row { r.(status := TRIGGERED, version := r.version + 1) }

  /** The orders in `ids` are TRIGGERED, and no other row has changed. */
  ghost predicate JustTriggered(snapshot: map<OrderId, Row>, rows: map<OrderId, Row>, ids: seq<OrderId>) {
    && (forall id :: id in rows <==> id in snapshot)
    && (forall id :: id in rows ==> rows[id] == if id in ids then AsTriggered(snapshot[id]) else snapshot[id])
  }

  lemma ClaimTriggers(snapshot: map<OrderId, Row>, rows: map<OrderId, Row>, front: seq<OrderId>, me: nat, id: OrderId)
    requires JustTriggered(snapshot, rows, front)
    requires id in snapshot && snapshot[id].status == PENDING && id !in front
    ensures JustTriggered(snapshot, Updated(rows, id, Claim(me, id, snapshot[id].version).write), front + [id])
  {
    assert rows[id] == snapshot[id];
  }

  /** Without anyone else every claim changes its own order and nothing else. */
  lemma {:induction false} QuietRows(me: nat, snapshot: map<OrderId, Row>, candidates: seq<OrderId>,
                                     others: nat -> seq<Event>, n: nat)
    requires Read(snapshot, candidates) && Distinct(candidates) && n <= |candidates| && Quiet(others)
    ensures JustTriggered(snapshot, RowsAfter(me, snapshot, candidates, others, n), candidates[..n])
    ensures n < |candidates| ==>
              Wins(RowsAfter(me, snapshot, candidates, others, n), ClaimOf(me, snapshot, candidates, n))
  {
    if n != 0 {
      var i := n - 1;
      QuietRows(me, snapshot, candidates, others, i);
      assert others(i) == [];
      ClaimTriggers(snapshot, RowsAfter(me, snapshot, candidates, others, i), candidates[..i], me, candidates[i]);
      assert candidates[..n] == candidates[..i] + [candidates[i]];
    }
    if n < |candidates| { assert candidates[n] !in candidates[..n]; }
  }

  lemma {:induction false} AllWin(candidates: seq<OrderId>, wins: seq<bool>, n: nat)
    requires n <= |candidates| == |wins| && forall i :: 0 <= i < n ==> wins[i]
    ensures Won(candidates, wins, n) == candidates[..n]
  {
    if n != 0 { AllWin(candidates, wins, n - 1); }
  }

  lemma QuietWins(me: nat, snapshot: map<OrderId, Row>, candidates: seq<OrderId>, others: nat -> seq<Event>,
                  wins: seq<bool>, n: nat)
    requires Read(snapshot, candidates) && Distinct(candidates) && n <= |candidates| && Quiet(others)
    requires Decides(me, snapshot, candidates, others, wins)
    ensures Won(candidates, wins, n) == candidates[..n]
  {
    forall i | 0 <= i < n ensures wins[i] {
      QuietRows(me, snapshot, candidates, others, i);
      assert others(i) == [];
    }
    AllWin(candidates, wins, n);
  }

  // ---- one engine -----------------------------------------------------------------

  datatype TriggerRunResult = TriggerRunResult(price: string, candidates: nat, triggered: seq<OrderId>, skipped: nat,
                                               handoffFailures: seq<OrderId>)

  datatype RunError = UntrustedPrice(reason: PriceService.PriceError) | QueryFailed | ClaimFailed

  /** A database call of the pass that rejects: the query, or claim number `i`, which may have landed all the same. */
  datatype Fault = NoFault | QueryRejects | ClaimRejects(i: nat, landed: bool)

  /** The orders in `triggered` are in the pipeline, or among the failures. */
  ghost predicate HandedOff(queue: set<OrderId>, was: set<OrderId>, triggered: seq<OrderId>, failures: seq<OrderId>,
                            handoffFails: set<OrderId>)
  {
    && (forall id :: id in failures <==> id in triggered && id in handoffFails)
    && (forall id :: id in queue <==> id in was || (id in triggered && id !in handoffFails))
  }

  lemma HandedOffOneMore(queue: set<OrderId>, was: set<OrderId>, triggered: seq<OrderId>, failures: seq<OrderId>,
                         handoffFails: set<OrderId>, id: OrderId)
    requires HandedOff(queue, was, triggered, failures, handoffFails)
    ensures HandedOff(if id in handoffFails then queue else queue + {id}, was, triggered + [id],
                      if id in handoffFails then failures + [id] else failures, handoffFails)
  {
  }

  /** How many of `n` claims the pass hears the result of. */
  function Heard(fault: Fault, n: nat): nat { if fault.ClaimRejects? && fault.i < n then fault.i else n }

  /** How many of `n` claims reach the database. */
  function Landed(fault: Fault, n: nat): nat {
    if fault.ClaimRejects? && fault.i < n then if fault.landed then fault.i + 1 else fault.i else n
  }

  /** The order of a claim that won although its call rejected. */
  function Unheard(candidates: seq<OrderId>, wins: seq<bool>, fault: Fault): seq<OrderId>
    requires |wins| == |candidates|
  {
    if fault.ClaimRejects? && fault.landed && fault.i < |candidates| && wins[fault.i]
    then [candidates[fault.i]] else []
  }

  /** The orders after a pass: after the last claim it hears of and, if the next one rejects, what came before that. */
  function FinalRows(me: nat, snapshot: map<OrderId, Row>, candidates: seq<OrderId>, fault: Fault,
                     others: nat -> seq<Event>): map<OrderId, Row>
    requires Read(snapshot, candidates)
  {
    var rows := RowsAfter(me, snapshot, candidates, others, Landed(fault, |candidates|));
    if fault.ClaimRejects? && fault.i < |candidates| && !fault.landed then Play(rows, others(fault.i)) else rows
  }

  /** Everything written in a pass. */
  function FinalLog(me: nat, snapshot: map<OrderId, Row>, candidates: seq<OrderId>, fault: Fault,
                    others: nat -> seq<Event>): seq<Event>
    requires Read(snapshot, candidates)
  {
    var log := PassLog(me, snapshot, candidates, others, Landed(fault, |candidates|));
    if fault.ClaimRejects? && fault.i < |candidates| && !fault.landed then log + others(fault.i) else log
  }

  /** `log` is what was written, and `mine` are the orders that engine `me` triggered by it. */
  ghost predicate Logged(me: nat, snapshot: map<OrderId, Row>, rows: map<OrderId, Row>, log: seq<Event>,
                         mine: seq<OrderId>)
  {
    rows == Play(snapshot, log) && TriggeredBy(snapshot, log, me) == mine
  }

  lemma ClaimsLogged(me: nat, snapshot: map<OrderId, Row>, candidates: seq<OrderId>, others: nat -> seq<Event>,
                     wins: seq<bool>, n: nat)
    requires Read(snapshot, candidates) && n <= |candidates| && OthersBy(others, me)
    requires Decides(me, snapshot, candidates, others, wins)
    ensures Logged(me, snapshot, RowsAfter(me, snapshot, candidates, others, n),
                   PassLog(me, snapshot, candidates, others, n), Won(candidates, wins, n))
  {
    RowsAfterLog(me, snapshot, candidates, others, n);
    PassTriggers(me, snapshot, candidates, others, wins, n);
  }

  lemma OthersLogged(me: nat, snapshot: map<OrderId, Row>, rows: map<OrderId, Row>, log: seq<Event>,
                     mine: seq<OrderId>, others: seq<Event>)
    requires Logged(me, snapshot, rows, log, mine) && ByOthers(others, me)
    ensures Logged(me, snapshot, Play(rows, others), log + others, mine)
  {
    PlayConcat(snapshot, log, others);
    OthersDoNotTriggerForMe(snapshot, log, others, me);
  }

  /** Those that the pass hears of and the one it does not. */
  lemma {:induction false} HeardAndUnheard(candidates: seq<OrderId>, wins: seq<bool>, fault: Fault)
    requires |wins| == |candidates|
    ensures Won(candidates, wins, Heard(fault, |candidates|)) + Unheard(candidates, wins, fault)
         == Won(candidates, wins, Landed(fault, |candidates|))
  {
    var heard := Won(candidates, wins, Heard(fault, |candidates|));
    if !(fault.ClaimRejects? && fault.i < |candidates| && fault.landed && wins[fault.i]) {
      assert heard + [] == heard;
    }
  }

  lemma PassLogged(me: nat, snapshot: map<OrderId, Row>, candidates: seq<OrderId>, fault: Fault,
                   others: nat -> seq<Event>, wins: seq<bool>)
    requires Read(snapshot, candidates) && OthersBy(others, me)
    requires Decides(me, snapshot, candidates, others, wins)
    ensures Logged(me, snapshot, FinalRows(me, snapshot, candidates, fault, others),
                   FinalLog(me, snapshot, candidates, fault, others),
                   Won(candidates, wins, Heard(fault, |candidates|)) + Unheard(candidates, wins, fault))
  {
    var n := Landed(fault, |candidates|);
    HeardAndUnheard(candidates, wins, fault);
    ClaimsLogged(me, snapshot, candidates, others, wins, n);
    if fault.ClaimRejects? && fault.i < |candidates| && !fault.landed {
      OthersLogged(me, snapshot, RowsAfter(me, snapshot, candidates, others, n),
                   PassLog(me, snapshot, candidates, others, n), Won(candidates, wins, n), others(fault.i));
    }
  }

  /** Without anyone else the claims that landed have changed their own orders and nothing else. */
  lemma QuietFinalRows(me: nat, snapshot: map<OrderId, Row>, candidates: seq<OrderId>, fault: Fault,
                       others: nat -> seq<Event>)
    requires Read(snapshot, candidates) && Distinct(candidates) && Quiet(others)
    ensures JustTriggered(snapshot, FinalRows(me, snapshot, candidates, fault, others),
                          candidates[..Landed(fault, |candidates|)])
  {
    QuietRows(me, snapshot, candidates, others, Landed(fault, |candidates|));
    assert others(Heard(fault, |candidates|)) == [];
  }

  lemma QuietFinalWins(me: nat, snapshot: map<OrderId, Row>, candidates: seq<OrderId>, fault: Fault,
                       others: nat -> seq<Event>, wins: seq<bool>)
    requires Read(snapshot, candidates) && Distinct(candidates) && Quiet(others)
    requires Decides(me, snapshot, candidates, others, wins)
    ensures Won(candidates, wins, Heard(fault, |candidates|)) == candidates[..Heard(fault, |candidates|)]
    ensures Won(candidates, wins, Heard(fault, |candidates|)) + Unheard(candidates, wins, fault)
         == candidates[..Landed(fault, |candidates|)]
  {
    HeardAndUnheard(candidates, wins, fault);
    QuietWins(me, snapshot, candidates, others, wins, Heard(fault, |candidates|));
    QuietWins(me, snapshot, candidates, others, wins, Landed(fault, |candidates|));
  }

  class TriggerEngine {
    const me: nat
    const orders: OrderRepository
    const batchSize: nat
    // the execution pipeline
    var queue: set<OrderId>

    constructor (me: nat, orders: OrderRepository, batchSize: nat)
      ensures this.me == me && this.orders == orders && this.batchSize == batchSize && queue == {}
    {
      this.me, this.orders, this.batchSize, queue := me, orders, batchSize, {};
    }

    /**
     Hand the order to the pipeline. After a failed handoff it stays TRIGGERED; no sweep
     looks for such orders.
     */
    method HandOff(id: OrderId, fails: bool) returns (ok: bool)
      modifies this`queue
      ensures ok == !fails && queue == if ok then old(queue) + {id} else old(queue)
    {
      if fails { return false; }
      queue := queue + {id};
      return true;
    }

    /** PENDING to TRIGGERED, if after the writes of `others` the row is still as it was read. */
    method ClaimOrder(id: OrderId, version: nat, others: seq<Event>) returns (claimed: bool)
      modifies orders
      ensures var rows := Play(old(orders.rows), others); var e := Claim(me, id, version);
        orders.rows == Updated(rows, id, e.write) && (claimed <==> Wins(rows, e))
    {
      orders.Meanwhile(others);
      var updated := orders.TransitionStatus(id, PENDING, version, TRIGGERED, None);
      return updated.Some?;
    }

    /** Make claim number `i` of the pass. */
    method ClaimNext(snapshot: map<OrderId, Row>, candidates: seq<OrderId>, i: nat, others: nat -> seq<Event>,
                     ghost wins: seq<bool>)
      returns (claimed: bool)
      requires Read(snapshot, candidates) && i < |candidates|
      requires Decides(me, snapshot, candidates, others, wins)
      requires orders.rows == RowsAfter(me, snapshot, candidates, others, i)
      modifies orders
      ensures orders.rows == RowsAfter(me, snapshot, candidates, others, i + 1)
      ensures claimed <==> wins[i]
    {
      claimed := ClaimOrder(candidates[i], snapshot[candidates[i]].version, others(i));
    }

    /** Check a candidate again, claim it, and hand it to the pipeline if the claim wins. */
    method ClaimAndHandOff(snapshot: map<OrderId, Row>, candidates: seq<OrderId>, price: Decimal, i: nat,
                           others: nat -> seq<Event>, handoffFails: set<OrderId>, ghost wins: seq<bool>,
                           ghost was: set<OrderId>, triggered: seq<OrderId>, failures: seq<OrderId>)
      returns (nowTriggered: seq<OrderId>, nowFailures: seq<OrderId>)
      requires Read(snapshot, candidates) && i < |candidates| && Fired(snapshot[candidates[i]], price)
      requires Decides(me, snapshot, candidates, others, wins)
      requires orders.rows == RowsAfter(me, snapshot, candidates, others, i)
      requires triggered == Won(candidates, wins, i)
      requires HandedOff(queue, was, triggered, failures, handoffFails)
      modifies orders, this`queue
      ensures orders.rows == RowsAfter(me, snapshot, candidates, others, i + 1)
      ensures nowTriggered == Won(candidates, wins, i + 1)
      ensures |nowTriggered| == if wins[i] then |triggered| + 1 else |triggered|
      ensures HandedOff(queue, was, nowTriggered, nowFailures, handoffFails)
    {
      var id := candidates[i];
      if !IsTriggered(snapshot[id].terms.side, snapshot[id].terms.triggerPrice, price) {
        // the query never returns such an order
        assert false;
      }
      HandedOffOneMore(queue, was, triggered, failures, handoffFails, id);
      nowTriggered, nowFailures := triggered, failures;
      var claimed := ClaimNext(snapshot, candidates, i, others, wins);
      if claimed {
        nowTriggered := triggered + [id];
        var ok := HandOff(id, id in handoffFails);
        if !ok { nowFailures := failures + [id]; }
      }
    }

    /** A claim whose call rejects may have landed all the same; nobody hears of it then, or hands it off. */
    method ClaimRejected(snapshot: map<OrderId, Row>, candidates: seq<OrderId>, fault: Fault,
                         others: nat -> seq<Event>, ghost wins: seq<bool>)
      requires Read(snapshot, candidates) && fault.ClaimRejects? && fault.i < |candidates|
      requires Decides(me, snapshot, candidates, others, wins)
      requires orders.rows == RowsAfter(me, snapshot, candidates, others, fault.i)
      modifies orders
      ensures orders.rows == FinalRows(me, snapshot, candidates, fault, others)
    {
      if fault.landed {
        var _ := ClaimNext(snapshot, candidates, fault.i, others, wins);
      } else {
        orders.Meanwhile(others(fault.i));
      }
    }

    /**
     Claim the candidates one at a time, and hand each claimed one to the pipeline. If a
     claim rejects, the pass ends there.
     */
    method ClaimAll(snapshot: map<OrderId, Row>, candidates: seq<OrderId>, price: Decimal, fault: Fault,
                    others: nat -> seq<Event>, handoffFails: set<OrderId>, ghost wins: seq<bool>)
      returns (done: bool, triggered: seq<OrderId>, skipped: nat, failures: seq<OrderId>)
      requires orders.rows == snapshot && Read(snapshot, candidates)
      requires forall i :: 0 <= i < |candidates| ==> Fired(snapshot[candidates[i]], price)
      requires Decides(me, snapshot, candidates, others, wins)
      modifies orders, this`queue
      ensures orders.rows == FinalRows(me, snapshot, candidates, fault, others)
      ensures triggered == Won(candidates, wins, Heard(fault, |candidates|))
      ensures done <==> !(fault.ClaimRejects? && fault.i < |candidates|)
      ensures Heard(fault, |candidates|) == |triggered| + skipped
      ensures HandedOff(queue, old(queue), triggered, failures, handoffFails)
    {
      triggered, skipped, failures := [], 0, [];
      var i := 0;
      while i < |candidates| && !(fault.ClaimRejects? && fault.i == i)
        invariant 0 <= i <= Heard(fault, |candidates|)
        invariant orders.rows == RowsAfter(me, snapshot, candidates, others, i)
        invariant triggered == Won(candidates, wins, i)
        invariant i == |triggered| + skipped
        invariant HandedOff(queue, old(queue), triggered, failures, handoffFails)
      {
        var before := |triggered|;
        triggered, failures := ClaimAndHandOff(snapshot, candidates, price, i, others, handoffFails, wins, old(queue),
                                               triggered, failures);
        if |triggered| == before { skipped := skipped + 1; }
        i := i + 1;
      }
      done := i == |candidates|;
      if !done { ClaimRejected(snapshot, candidates, fault, others, wins); }
    }

    /**
     One pass. `others(i)` is what other actors write before claim number `i`, and
     `log` comes back as everything written in the meantime, in order. If a claim
     rejects, the pass throws and its result is lost, but not what it did: what it had
     claimed stays TRIGGERED and handed off, and so does `lost`, the order of that claim
     if it landed, except that nobody hands that one off.
     */
    method Run(opt: PriceService.Options, now: int, primary: PriceService.Answer,
               crossCheck: Option<PriceService.Answer>, fault: Fault, others: nat -> seq<Event>,
               handoffFails: set<OrderId>)
      returns (r: Result<TriggerRunResult, RunError>, ghost log: seq<Event>, ghost candidates: seq<OrderId>,
               ghost triggered: seq<OrderId>, ghost lost: seq<OrderId>)
      requires OthersBy(others, me)
      modifies orders, this`queue
      // the pass as everyone else sees it
      ensures orders.rows == Play(old(orders.rows), log)
      ensures TriggeredBy(old(orders.rows), log, me) == triggered + lost
      // what it looks at
      ensures var asked := PriceService.GetValidatedPrice(opt, now, primary, crossCheck).Success?
                           && ExactOf(primary.quote.price).Some? && !fault.QueryRejects?;
              && (asked ==>
                    && OldestFired(old(orders.rows), ExactOf(primary.quote.price).value, batchSize, candidates)
                    && (r.Success? <==> !(fault.ClaimRejects? && fault.i < |candidates|))
                    && (r.Failure? ==> r.error.ClaimFailed?))
              && (!asked ==> r.Failure? && !r.error.ClaimFailed? && log == [] && candidates == [])
      // what becomes of it
      ensures var wins := Unraced(old(orders.rows), candidates, others);
        && WinsAre(candidates, wins, Heard(fault, |candidates|), triggered)
        && lost == Unheard(candidates, wins, fault)
      ensures Quiet(others) ==>
        && triggered == candidates[..Heard(fault, |candidates|)]
        && JustTriggered(old(orders.rows), orders.rows, triggered + lost)
      ensures forall id :: id in queue <==> id in old(queue) || (id in triggered && id !in handoffFails)
      // what it reports
      ensures r.Success? ==>
                && r.value.price == primary.quote.price
                && r.value.triggered == triggered && r.value.candidates == |candidates|
                && r.value.candidates == |triggered| + r.value.skipped
                && forall id :: id in r.value.handoffFailures <==> id in triggered && id in handoffFails
    {
      log, candidates, triggered, lost := [], [], [], [];
      var validated := PriceService.GetValidatedPrice(opt, now, primary, crossCheck);
      if validated.Failure? { return Failure(UntrustedPrice(validated.error)), [], [], [], []; }
      var quote := validated.value;
      var price := ExactOf(quote.price);
      if price.None? || fault.QueryRejects? { return Failure(QueryFailed), [], [], [], []; }

      var snapshot := orders.rows;
      var found := orders.FindMany(Triggerable(price.value), batchSize);
      FiredAreListed(snapshot, price.value, batchSize, found);
      UnracedDecides(me, snapshot, found, others);
      ghost var wins := Unraced(snapshot, found, others);
      var done, claimed, skipped, failures :=
        ClaimAll(snapshot, found, price.value, fault, others, handoffFails, wins);

      candidates, triggered, lost := found, claimed, Unheard(found, wins, fault);
      log := FinalLog(me, snapshot, found, fault, others);
      PassLogged(me, snapshot, found, fault, others, wins);
      WonExactly(found, wins, Heard(fault, |found|));
      if Quiet(others) {
        QuietFinalRows(me, snapshot, found, fault, others);
        QuietFinalWins(me, snapshot, found, fault, others, wins);
      }
      if !done { return Failure(ClaimFailed), log, candidates, triggered, lost; }
      r := Success(TriggerRunResult(quote.price, |found|, claimed, skipped, failures));
    }
  }
}
