/**
 Order rows and the guarded writes of the order repository. A write is data: the
 `where` clause is `Matches`, the update is `Apply`.
 */
module Orders {
  import opened Wrappers
  import opened OrderStatus

  type OrderId = nat
  type ExecutionId = nat
  type Hash = nat

  datatype Side = SELL | BUY

  /** Fixed at creation. `triggerPrice` counts units of 10^-18, the scale of the column. */
  datatype Terms = Terms(executionId: ExecutionId, side: Side, triggerPrice: nat, createdAt: int)

  datatype Row = Row(terms: Terms, status: Status, version: nat, txHash: Option<Hash>, submittedAt: Option<int>,
                     blockNumber: Option<nat>, amountOut: Option<nat>, confirmedAt: Option<int>)

  function NewRow(terms: Terms): Row { Row(terms, PENDING, 0, None, None, None, None, None) }

  /**
   `hashField` of a transition is the optional, nullable `txHash`: absent (None), null
   (Some(None)), or a hash. No caller of the protocol passes one.
   */
  datatype Write =
    | Transition(expectedStatus: Status, expectedVersion: nat, nextStatus: Status,
                 hashField: Option<Option<Hash>> := None)
    | RecordTxHash(hash: Hash, at: int)
    | MarkConfirmed(hash: Hash, block: nat, amountOut: Option<nat>, at: int)
    | MarkFailed(txHash: Option<Hash>, blockNumber: Option<nat>, at: int)
    | ForceExecuted(expectedStatus: Status, txHash: Option<Hash>, blockNumber: Option<nat>, amountOut: Option<nat>,
                    at: int)

  predicate Matches(r: Row, w: Write) {
    match w
    case Transition(s, v, _, _) => r.status == s && r.version == v
    case RecordTxHash(_, _) => r.status == EXECUTING
    case MarkConfirmed(_, _, _, _) => r.status == EXECUTING
    case MarkFailed(_, _, _) => r.status == EXECUTING
    case ForceExecuted(s, _, _, _, _) => r.status == s
  }

  /** A field that the update mentions only when it has a value. */
  function Or<T>(given: Option<T>, kept: Option<T>): Option<T> {
    if given.Some? then given else kept
  }

  function Apply(r: Row, w: Write): Row {
    if !Matches(r, w) then r
    else match w
      case Transition(_, _, next, hash) =>
        r.(status := next, version := r.version + 1, txHash := if hash.Some? then hash.value else r.txHash)
      case RecordTxHash(hash, at) => r.(txHash := Some(hash), submittedAt := Some(at))
      case MarkConfirmed(hash, block, out, at) =>
        r.(status := EXECUTED, version := r.version + 1, txHash := Some(hash), blockNumber := Some(block),
           amountOut := Or(out, r.amountOut), confirmedAt := Some(at))
      case MarkFailed(hash, block, at) =>
        r.(status := FAILED, version := r.version + 1, txHash := Or(hash, r.txHash),
           blockNumber := Or(block, r.blockNumber), confirmedAt := Some(at))
      case ForceExecuted(_, hash, block, out, at) =>
        r.(status := EXECUTED, version := r.version + 1, txHash := Or(hash, r.txHash),
           blockNumber := Or(block, r.blockNumber), amountOut := Or(out, r.amountOut), confirmedAt := Some(at))
  }

  /** Writes by whichever actors, in the order in which the database applies them. */
  function ApplyAll(r: Row, ws: seq<Write>): Row
    decreases |ws|
  {
    if |ws| == 0 then r else ApplyAll(Apply(r, ws[0]), ws[1..])
  }

  lemma {:induction false} ApplyAllSnoc(r: Row, ws: seq<Write>, w: Write)
    ensures ApplyAll(r, ws + [w]) == Apply(ApplyAll(r, ws), w)
    decreases |ws|
  {
    if |ws| == 0 {
      assert ws + [w] == [w] && [w][1..] == [];
    } else {
      assert (ws + [w])[1..] == ws[1..] + [w];
      ApplyAllSnoc(Apply(r, ws[0]), ws[1..], w);
    }
  }

  lemma {:induction false} ApplyAllConcat(r: Row, ws: seq<Write>, more: seq<Write>)
    ensures ApplyAll(r, ws + more) == ApplyAll(ApplyAll(r, ws), more)
    decreases |ws|
  {
    if |ws| == 0 {
      assert ws + more == more;
    } else {
      assert (ws + more)[1..] == ws[1..] + more;
      ApplyAllConcat(Apply(r, ws[0]), ws[1..], more);
    }
  }

  /** How many of `ws` change the status column. */
  function StatusWrites(r: Row, ws: seq<Write>): nat
    decreases |ws|
  {
    if |ws| == 0 then 0
    else (if Matches(r, ws[0]) && !ws[0].RecordTxHash? then 1 else 0) + StatusWrites(Apply(r, ws[0]), ws[1..])
  }

  /** The version column counts status writes. */
  lemma {:induction false} VersionCountsStatusWrites(r: Row, ws: seq<Write>)
    ensures ApplyAll(r, ws).version == r.version + StatusWrites(r, ws)
    ensures StatusWrites(r, ws) == 0 ==> ApplyAll(r, ws).status == r.status
    decreases |ws|
  {
    if |ws| != 0 {
      VersionCountsStatusWrites(Apply(r, ws[0]), ws[1..]);
    }
  }

  /**
   No ABA: a transition prepared from a snapshot succeeds after any writes of any
   actors exactly when none of them changed the status, so a success means the
   row's status was never touched since the snapshot was read.
   */
  lemma TransitionMeansUntouched(snapshot: Row, ws: seq<Write>, next: Status, hash: Option<Option<Hash>>)
    ensures Matches(ApplyAll(snapshot, ws), Transition(snapshot.status, snapshot.version, next, hash))
            <==> StatusWrites(snapshot, ws) == 0
  {
    VersionCountsStatusWrites(snapshot, ws);
  }

  /** Without another claim, an EXECUTING row is still EXECUTING exactly if its status was never written. */
  lemma {:induction false} StaysExecutingExactly(r: Row, ws: seq<Write>)
    requires forall w :: w in ws ==> !(w.Transition? && w.nextStatus == EXECUTING)
    ensures ApplyAll(r, ws).status == EXECUTING <==> r.status == EXECUTING && StatusWrites(r, ws) == 0
    decreases |ws|
  {
    if |ws| != 0 {
      assert ws[0] in ws && forall w :: w in ws[1..] ==> w in ws;
      StaysExecutingExactly(Apply(r, ws[0]), ws[1..]);
    }
  }

  /** The transitions among `ws` that were prepared from version `v` and won. */
  function Winners(r: Row, ws: seq<Write>, v: nat): nat
    decreases |ws|
  {
    if |ws| == 0 then 0
    else (if ws[0].Transition? && ws[0].expectedVersion == v && Matches(r, ws[0]) then 1 else 0)
         + Winners(Apply(r, ws[0]), ws[1..], v)
  }

  /** At most one transition prepared from one version ever wins, among any writes. */
  lemma {:induction false} AtMostOneWinner(r: Row, ws: seq<Write>, v: nat)
    ensures Winners(r, ws, v) <= 1
    ensures r.version > v ==> Winners(r, ws, v) == 0
    decreases |ws|
  {
    if |ws| != 0 {
      AtMostOneWinner(Apply(r, ws[0]), ws[1..], v);
    }
  }

  /** Among racers on one snapshot the first wins and everyone else stands down. */
  lemma RacersHaveOneWinner(r: Row, ws: seq<Write>)
    requires |ws| > 0
    requires forall i :: 0 <= i < |ws| ==>
               ws[i].Transition? && ws[i].expectedStatus == r.status && ws[i].expectedVersion == r.version
    ensures Winners(r, ws, r.version) == 1
    ensures ApplyAll(r, ws) == Apply(r, ws[0])
  {
    AtMostOneWinner(Apply(r, ws[0]), ws[1..], r.version);
    var won := Apply(r, ws[0]);
    assert forall i :: 0 <= i < |ws[1..]| ==> ws[1..][i] == ws[i + 1];
    NoneMatches(won, ws[1..]);
  }

  lemma {:induction false} NoneMatches(r: Row, ws: seq<Write>)
    requires forall i :: 0 <= i < |ws| ==> ws[i].Transition? && ws[i].expectedVersion != r.version
    ensures ApplyAll(r, ws) == r
    decreases |ws|
  {
    if |ws| != 0 {
      assert forall i :: 0 <= i < |ws[1..]| ==> ws[1..][i] == ws[i + 1];
      NoneMatches(r, ws[1..]);
    }
  }

  // ---- what becomes of the evidence ------------------------------------------------

  predicate PassesNull(w: Write) { w.Transition? && w.hashField == Some(None) }

  predicate PassesHash(w: Write) {
    match w
    case Transition(_, _, _, hash) => hash.Some? && hash.value.Some?
    case RecordTxHash(_, _) => true
    case MarkConfirmed(_, _, _, _) => true
    case MarkFailed(hash, _, _) => hash.Some?
    case ForceExecuted(_, hash, _, _, _) => hash.Some?
  }

  /** Write number `i` takes effect. */
  predicate TakesEffect(r: Row, ws: seq<Write>, i: int) {
    0 <= i < |ws| && Matches(ApplyAll(r, ws[..i]), ws[i])
  }

  predicate Erases(r: Row, ws: seq<Write>, i: int) { TakesEffect(r, ws, i) && PassesNull(ws[i]) }

  predicate Sets(r: Row, ws: seq<Write>, i: int) { TakesEffect(r, ws, i) && PassesHash(ws[i]) }

  /** A submission time, once on the row, is there for good, and so is a hash if no transition passes null. */
  lemma {:induction false} EvidenceStays(r: Row, ws: seq<Write>)
    ensures r.submittedAt.Some? ==> ApplyAll(r, ws).submittedAt.Some?
    ensures r.txHash.Some? && (forall w :: w in ws ==> !PassesNull(w)) ==> ApplyAll(r, ws).txHash.Some?
    ensures ApplyAll(r, ws).terms == r.terms
    decreases |ws|
  {
    if |ws| != 0 {
      assert ws[0] in ws && forall w :: w in ws[1..] ==> w in ws;
      EvidenceStays(Apply(r, ws[0]), ws[1..]);
    }
  }

  /**
   Exactly when a hash survives: every write that takes effect and passes null for
   it is followed by one that takes effect and sets it again.
   */
  lemma {:induction false} HashSurvivesExactly(r: Row, ws: seq<Write>)
    requires r.txHash.Some?
    ensures ApplyAll(r, ws).txHash.Some? <==> forall i :: Erases(r, ws, i) ==> exists j :: i < j && Sets(r, ws, j)
    decreases |ws|
  {
    if |ws| != 0 {
      var n := |ws| - 1;
      var front, last := ws[..n], ws[n];
      assert ws == front + [last];
      ApplyAllSnoc(r, front, last);
      HashSurvivesExactly(r, front);
      forall i | 0 <= i < n ensures TakesEffect(r, ws, i) <==> TakesEffect(r, front, i) {
        assert ws[..i] == front[..i];
      }
      if Sets(r, ws, n) {
        forall i | Erases(r, ws, i) ensures exists j :: i < j && Sets(r, ws, j) { assert i < n; }
      } else if Erases(r, ws, n) {
        assert forall j :: n < j ==> !Sets(r, ws, j);
      } else {
        SameErasures(r, front, ws);
      }
    }
  }

  /** One more write that neither sets nor erases the hash changes nothing about the condition. */
  lemma SameErasures(r: Row, front: seq<Write>, ws: seq<Write>)
    requires |ws| == |front| + 1 && front <= ws
    requires forall i :: 0 <= i < |front| ==> (TakesEffect(r, ws, i) <==> TakesEffect(r, front, i))
    requires !Sets(r, ws, |front|) && !Erases(r, ws, |front|)
    ensures (forall i :: Erases(r, ws, i) ==> exists j :: i < j && Sets(r, ws, j)) <==>
            (forall i :: Erases(r, front, i) ==> exists j :: i < j && Sets(r, front, j))
  {
    assert forall i :: Erases(r, ws, i) <==> Erases(r, front, i);
    assert forall i :: Sets(r, ws, i) <==> Sets(r, front, i);
  }

  /** A transition that passes null is such a write: the hash of any row can be erased. */
  lemma NullErases(r: Row, next: Status)
    ensures var ws := [Transition(r.status, r.version, next, Some(None))];
            Erases(r, ws, 0) && ApplyAll(r, ws).txHash == None
  {
    var w := Transition(r.status, r.version, next, Some(None));
    assert [w][..0] == [];
    ApplyAllSnoc(r, [], w);
    assert [] + [w] == [w];
  }
}
