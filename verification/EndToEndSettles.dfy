/**
 An order can settle: whenever the vault takes the swap that the quotes lead to, the
 actors of the protocol, each doing its step, carry a new order all the way to EXECUTED.
 */
module EndToEndSettles {
  import opened Wrappers
  import opened OrderStatus
  import opened Orders
  import opened TransactionMonitor
  import opened Protocol
  import opened UniswapAdapter
  import opened EndToEnd
  import V = Vault
  import VaultInvariants

  /** What the outside contributes: the quotes, the hash, the block, and what goes on inside the router call. */
  datatype Plan = Plan(tiers: seq<Option<DexQuote>>, hash: Hash, timestamp: nat, sender: V.Address,
                       inner: seq<V.Action>, amountOut: nat, block: nat)

  function VaultAtEnd(cfg: Config, d: Deal, now: nat, vault: V.State, p: Plan): V.State
    requires Params(cfg, d, Built(p.tiers, now)).Success?
  {
    Executed(vault, p.sender, Params(cfg, d, Built(p.tiers, now)).value, p.timestamp, p.inner, p.amountOut)
  }

  /** The parameters can be built, the block is no earlier than the clocks allow, and the vault takes the swap. */
  ghost predicate Works(cfg: Config, d: Deal, now: nat, vault: V.State, p: Plan) {
    && Buildable(cfg, d, Built(p.tiers, now)) && 1000 * p.timestamp > now - cfg.skewMs
    && (forall i :: 0 <= i < |p.inner| ==> !p.inner[i].SwapReturns? && !p.inner[i].CallReverts?)
    && var after := VaultAtEnd(cfg, d, now, vault, p);
       after.call == V.Idle && after != vault
  }

  lemma {:induction false} AdvanceSnoc(cfg: Config, d: Deal, s: System, es: seq<Happening>, e: Happening)
    ensures AdvanceAll(cfg, d, s, es + [e]) == Advance(cfg, d, AdvanceAll(cfg, d, s, es), e)
    decreases |es|
  {
    if |es| == 0 {
      assert es + [e] == [e] && [e][1..] == [];
    } else {
      assert (es + [e])[1..] == es[1..] + [e];
      AdvanceSnoc(cfg, d, Advance(cfg, d, s, es[0]), es[1..], e);
    }
  }

  lemma Then(cfg: Config, d: Deal, s: System, es: seq<Happening>, t: System, e: Happening, u: System)
    returns (longer: seq<Happening>)
    requires AdvanceAll(cfg, d, s, es) == t && Advance(cfg, d, t, e) == u
    ensures AdvanceAll(cfg, d, s, longer) == u
  {
    AdvanceSnoc(cfg, d, s, es, e);
    longer := es + [e];
  }

  /** One step of the protocol that neither builds, nor signs, nor mines. */
  lemma Act(cfg: Config, d: Deal, s: System, es: seq<Happening>, t: System, a: Action, w: World)
    returns (longer: seq<Happening>)
    requires !a.ExecBuilds? && !a.ExecSigns? && !a.Mine?
    requires AdvanceAll(cfg, d, s, es) == t && Step(cfg, t.world, a) == w
    ensures AdvanceAll(cfg, d, s, longer) == t.(world := w)
  {
    AdvanceSnoc(cfg, d, s, es, Happens(a));
    longer := es + [Happens(a)];
  }

  // ---- before the signature -----------------------------------------------------

  function Unsigned(terms: Terms, now: nat, status: Status, version: nat, ops: map<nat, Op>, handedOff: bool,
                    claims: nat): World {
    World(now, NewRow(terms).(status := status, version := version), Chain(map[], {}, map[], false, 0), ops, false,
          handedOff, History(if status == PENDING then 0 else 1, claims, 0, false, false))
  }

  lemma EngineSteps(cfg: Config, terms: Terms, now: nat)
    ensures Step(cfg, Start(terms, now), EngineReads(0))
         == Unsigned(terms, now, PENDING, 0, map[0 := EngineRead(0)], false, 0)
    ensures Step(cfg, Unsigned(terms, now, PENDING, 0, map[0 := EngineRead(0)], false, 0), EngineClaims(0))
         == Unsigned(terms, now, TRIGGERED, 1, map[0 := EngineWon], false, 0)
  {
  }

  lemma HandOffStep(cfg: Config, terms: Terms, now: nat)
    ensures Step(cfg, Unsigned(terms, now, TRIGGERED, 1, map[0 := EngineWon], false, 0), EngineEnqueues(0))
         == Unsigned(terms, now, TRIGGERED, 1, map[], true, 0)
  {
  }

  lemma ToTriggered(cfg: Config, d: Deal, terms: Terms, now: nat, vault: V.State) returns (es: seq<Happening>)
    ensures AdvanceAll(cfg, d, Launch(terms, now, vault), es)
         == System(Unsigned(terms, now, TRIGGERED, 1, map[], true, 0), vault, map[], map[])
  {
    var s := Launch(terms, now, vault);
    var read := Unsigned(terms, now, PENDING, 0, map[0 := EngineRead(0)], false, 0);
    var won := Unsigned(terms, now, TRIGGERED, 1, map[0 := EngineWon], false, 0);
    EngineSteps(cfg, terms, now);
    HandOffStep(cfg, terms, now);
    es := Act(cfg, d, s, [], s, EngineReads(0), read);
    es := Act(cfg, d, s, es, s.(world := read), EngineClaims(0), won);
    es := Act(cfg, d, s, es, s.(world := won), EngineEnqueues(0), Unsigned(terms, now, TRIGGERED, 1, map[], true, 0));
  }

  /** The executor has picked the order up; `op` is what it knows. */
  function Picked(terms: Terms, now: nat, op: Op): World { Unsigned(terms, now, TRIGGERED, 1, map[0 := op], true, 0) }

  lemma PickSteps(cfg: Config, terms: Terms, now: nat)
    ensures Step(cfg, Unsigned(terms, now, TRIGGERED, 1, map[], true, 0), ExecReads(0))
         == Picked(terms, now, ExecRead(1))
    ensures Step(cfg, Picked(terms, now, ExecRead(1)), ExecProbes(0)) == Picked(terms, now, ExecFresh(1))
  {
  }

  lemma BuildStep(cfg: Config, terms: Terms, now: nat)
    ensures Step(cfg, Picked(terms, now, ExecFresh(1)), ExecBuilds(0))
         == Picked(terms, now, ExecBuilt(1, now / 1000 + cfg.windowSec))
  {
  }

  lemma ToPicked(cfg: Config, d: Deal, terms: Terms, now: nat, vault: V.State) returns (es: seq<Happening>)
    ensures AdvanceAll(cfg, d, Launch(terms, now, vault), es)
         == System(Picked(terms, now, ExecFresh(1)), vault, map[], map[])
  {
    var s := Launch(terms, now, vault);
    var triggered := Unsigned(terms, now, TRIGGERED, 1, map[], true, 0);
    PickSteps(cfg, terms, now);
    es := ToTriggered(cfg, d, terms, now, vault);
    es := Act(cfg, d, s, es, s.(world := triggered), ExecReads(0), Picked(terms, now, ExecRead(1)));
    es := Act(cfg, d, s, es, s.(world := Picked(terms, now, ExecRead(1))), ExecProbes(0),
              Picked(terms, now, ExecFresh(1)));
  }

  lemma ToQuoted(cfg: Config, d: Deal, terms: Terms, now: nat, vault: V.State, tiers: seq<Option<DexQuote>>)
    returns (es: seq<Happening>)
    requires Buildable(cfg, d, Built(tiers, now))
    ensures AdvanceAll(cfg, d, Launch(terms, now, vault), es)
         == System(Picked(terms, now, ExecBuilt(1, now / 1000 + cfg.windowSec)), vault, map[0 := Built(tiers, now)],
                   map[])
  {
    var s := Launch(terms, now, vault);
    BuildStep(cfg, terms, now);
    es := ToPicked(cfg, d, terms, now, vault);
    es := Then(cfg, d, s, es, s.(world := Picked(terms, now, ExecFresh(1))), Quoted(0, tiers),
               System(Picked(terms, now, ExecBuilt(1, now / 1000 + cfg.windowSec)), vault, map[0 := Built(tiers, now)],
                      map[]));
  }

  // ---- signed ---------------------------------------------------------------------

  /** Claimed, with the parameters built. */
  function Claimed(cfg: Config, terms: Terms, now: nat): World {
    Unsigned(terms, now, EXECUTING, 2, map[0 := ExecClaimed(now / 1000 + cfg.windowSec)], true, 1)
  }

  /** Signed; then recorded, then sent, then known to the monitor. */
  function Signed(cfg: Config, terms: Terms, now: nat, h: Hash, recorded: bool, sent: bool, knows: bool,
                  ops: map<nat, Op>): World {
    World(now, Row(terms, EXECUTING, 2, if recorded then Some(h) else None, if recorded then Some(now) else None, None,
                   None, None),
          Chain(map[h := Tx(cfg.executionId, now / 1000 + cfg.windowSec)], if sent then {h} else {}, map[], false, 0),
          ops, knows, true, History(1, 1, 1, false, false))
  }

  lemma ClaimAndSign(cfg: Config, terms: Terms, now: nat, h: Hash)
    ensures Step(cfg, Picked(terms, now, ExecBuilt(1, now / 1000 + cfg.windowSec)), ExecClaims(0))
         == Claimed(cfg, terms, now)
    ensures Step(cfg, Claimed(cfg, terms, now), ExecSigns(0, h))
         == Signed(cfg, terms, now, h, false, false, false, map[0 := ExecSigned(h)])
    ensures Protocol.Signs(Claimed(cfg, terms, now), ExecSigns(0, h))
  {
  }

  lemma RecordStep(cfg: Config, terms: Terms, now: nat, h: Hash)
    ensures Step(cfg, Signed(cfg, terms, now, h, false, false, false, map[0 := ExecSigned(h)]), ExecRecords(0))
         == Signed(cfg, terms, now, h, true, false, false, map[0 := ExecRecorded(h)])
  {
  }

  lemma SendSteps(cfg: Config, terms: Terms, now: nat, h: Hash)
    ensures Step(cfg, Signed(cfg, terms, now, h, true, false, false, map[0 := ExecRecorded(h)]), ExecBroadcasts(0))
         == Signed(cfg, terms, now, h, true, true, false, map[0 := ExecSent(h)])
    ensures Step(cfg, Signed(cfg, terms, now, h, true, true, false, map[0 := ExecSent(h)]), ExecEnqueues(0))
         == Signed(cfg, terms, now, h, true, true, true, map[])
  {
  }

  /** The system around it: what execution 0 has built is what the signed transaction calls the vault with. */
  function Around(w: World, vault: V.State, p: Plan, now: nat): System {
    System(w, vault, map[0 := Built(p.tiers, now)], map[p.hash := Built(p.tiers, now)])
  }

  lemma ToSigned(cfg: Config, d: Deal, terms: Terms, now: nat, vault: V.State, p: Plan) returns (es: seq<Happening>)
    requires Buildable(cfg, d, Built(p.tiers, now))
    ensures AdvanceAll(cfg, d, Launch(terms, now, vault), es)
         == Around(Signed(cfg, terms, now, p.hash, false, false, false, map[0 := ExecSigned(p.hash)]), vault, p, now)
  {
    var s := Launch(terms, now, vault);
    var built := System(Picked(terms, now, ExecBuilt(1, now / 1000 + cfg.windowSec)), vault,
                        map[0 := Built(p.tiers, now)], map[]);
    ClaimAndSign(cfg, terms, now, p.hash);
    es := ToQuoted(cfg, d, terms, now, vault, p.tiers);
    es := Act(cfg, d, s, es, built, ExecClaims(0), Claimed(cfg, terms, now));
    es := Then(cfg, d, s, es, built.(world := Claimed(cfg, terms, now)), Happens(ExecSigns(0, p.hash)),
               Around(Signed(cfg, terms, now, p.hash, false, false, false, map[0 := ExecSigned(p.hash)]), vault, p,
                      now));
  }

  lemma ToSent(cfg: Config, d: Deal, terms: Terms, now: nat, vault: V.State, p: Plan) returns (es: seq<Happening>)
    requires Buildable(cfg, d, Built(p.tiers, now))
    ensures AdvanceAll(cfg, d, Launch(terms, now, vault), es)
         == Around(Signed(cfg, terms, now, p.hash, true, true, true, map[]), vault, p, now)
  {
    var s, h := Launch(terms, now, vault), p.hash;
    var signed := Signed(cfg, terms, now, h, false, false, false, map[0 := ExecSigned(h)]);
    var recorded := Signed(cfg, terms, now, h, true, false, false, map[0 := ExecRecorded(h)]);
    var sent := Signed(cfg, terms, now, h, true, true, false, map[0 := ExecSent(h)]);
    RecordStep(cfg, terms, now, h);
    SendSteps(cfg, terms, now, h);
    es := ToSigned(cfg, d, terms, now, vault, p);
    es := Act(cfg, d, s, es, Around(signed, vault, p, now), ExecRecords(0), recorded);
    es := Act(cfg, d, s, es, Around(recorded, vault, p, now), ExecBroadcasts(0), sent);
    es := Act(cfg, d, s, es, Around(sent, vault, p, now), ExecEnqueues(0),
              Signed(cfg, terms, now, h, true, true, true, map[]));
  }

  // ---- mined ----------------------------------------------------------------------

  function Mined(cfg: Config, terms: Terms, now: nat, h: Hash, ops: map<nat, Op>): World {
    Signed(cfg, terms, now, h, true, true, true, ops)
    .(chain := Chain(map[h := Tx(cfg.executionId, now / 1000 + cfg.windowSec)], {h}, map[h := true], true, 1))
  }

  lemma MineStep(cfg: Config, terms: Terms, now: nat, h: Hash, timestamp: nat)
    requires timestamp <= now / 1000 + cfg.windowSec && 1000 * timestamp > now - cfg.skewMs
    ensures Step(cfg, Signed(cfg, terms, now, h, true, true, true, map[]), Mine(h, timestamp, true))
         == Mined(cfg, terms, now, h, map[])
  {
  }

  lemma ToMined(cfg: Config, d: Deal, terms: Terms, now: nat, vault: V.State, p: Plan) returns (es: seq<Happening>)
    requires Works(cfg, d, now, vault, p) && vault.call == V.Idle
    ensures AdvanceAll(cfg, d, Launch(terms, now, vault), es)
         == Around(Mined(cfg, terms, now, p.hash, map[]), VaultAtEnd(cfg, d, now, vault, p), p, now)
  {
    var b := Built(p.tiers, now);
    var e := SwapMined(p.hash, p.timestamp, p.sender, p.inner, p.amountOut, false);
    var sent := Around(Signed(cfg, terms, now, p.hash, true, true, true, map[]), vault, p, now);
    ParamsCarry(cfg, d, b);
    MiningIsTheVaults(vault, p.sender, Params(cfg, d, b).value, p.timestamp, p.inner, p.amountOut);
    MineStep(cfg, terms, now, p.hash, p.timestamp);
    assert CanBeMined(cfg, d, sent, e);
    es := ToSent(cfg, d, terms, now, vault, p);
    es := Then(cfg, d, Launch(terms, now, vault), es, sent, e,
               Around(Mined(cfg, terms, now, p.hash, map[]), VaultAtEnd(cfg, d, now, vault, p), p, now));
  }

  // ---- settled --------------------------------------------------------------------

  function Confirmed(cfg: Config, terms: Terms, now: nat, p: Plan): World {
    Mined(cfg, terms, now, p.hash, map[])
    .(row := Row(terms, EXECUTED, 3, Some(p.hash), Some(now), Some(p.block), Some(p.amountOut), Some(now)))
  }

  function Verdict(p: Plan): Op { MonVerdict(SUCCESS(p.hash, p.block, Some(p.amountOut))) }

  lemma AskStep(cfg: Config, terms: Terms, now: nat, p: Plan)
    ensures Step(cfg, Mined(cfg, terms, now, p.hash, map[]), MonReads(0))
         == Mined(cfg, terms, now, p.hash, map[0 := MonRead(p.hash, now)])
  {
  }

  lemma ReceiptStep(cfg: Config, terms: Terms, now: nat, p: Plan)
    ensures Step(cfg, Mined(cfg, terms, now, p.hash, map[0 := MonRead(p.hash, now)]),
                 MonReceipt(0, ReceiptSuccess(p.block, Some(p.amountOut))))
         == Mined(cfg, terms, now, p.hash, map[0 := Verdict(p)])
  {
  }

  lemma ConfirmStep(cfg: Config, terms: Terms, now: nat, p: Plan)
    ensures Step(cfg, Mined(cfg, terms, now, p.hash, map[0 := Verdict(p)]), MonApplies(0))
         == Confirmed(cfg, terms, now, p)
  {
  }

  /**
   Whenever the vault takes the swap that the quotes lead to, there is a way for the
   order from PENDING to EXECUTED: every actor does its steps once and nothing stands in
   the way. The row then carries the hash, the block and the amount, the vault is as
   the swap leaves it, and its log has the one swap of the order, as it was dealt.
   */
  lemma OrderCanSettle(cfg: Config, d: Deal, terms: Terms, now: nat, vault: V.State, p: Plan)
    returns (es: seq<Happening>, i: int)
    requires VaultInvariants.Invariant(vault) && vault.call == V.Idle && cfg.executionId !in vault.books.executedIds
    requires Works(cfg, d, now, vault, p)
    ensures var s := AdvanceAll(cfg, d, Launch(terms, now, vault), es);
      && s.world.row == Row(terms, EXECUTED, 3, Some(p.hash), Some(now), Some(p.block), Some(p.amountOut), Some(now))
      && s.vault == VaultAtEnd(cfg, d, now, vault, p)
      && OnlySwap(s.vault.books.events, i, cfg.executionId)
      && Delivered(d, p.tiers, s.vault.books.events[i])
  {
    var s, h := Launch(terms, now, vault), p.hash;
    var after := VaultAtEnd(cfg, d, now, vault, p);
    AskStep(cfg, terms, now, p);
    ReceiptStep(cfg, terms, now, p);
    ConfirmStep(cfg, terms, now, p);
    es := ToMined(cfg, d, terms, now, vault, p);
    es := Act(cfg, d, s, es, Around(Mined(cfg, terms, now, h, map[]), after, p, now), MonReads(0),
              Mined(cfg, terms, now, h, map[0 := MonRead(h, now)]));
    es := Act(cfg, d, s, es, Around(Mined(cfg, terms, now, h, map[0 := MonRead(h, now)]), after, p, now),
              MonReceipt(0, ReceiptSuccess(p.block, Some(p.amountOut))),
              Mined(cfg, terms, now, h, map[0 := Verdict(p)]));
    es := Act(cfg, d, s, es, Around(Mined(cfg, terms, now, h, map[0 := Verdict(p)]), after, p, now), MonApplies(0),
              Confirmed(cfg, terms, now, p));
    ExecutedMeansSettled(cfg, d, terms, now, vault, es);
    var key: Hash;
    i, key :| OnlySwap(after.books.events, i, cfg.executionId) && key in AdvanceAll(cfg, d, s, es).calls
             && Delivered(d, AdvanceAll(cfg, d, s, es).calls[key].tiers, after.books.events[i]);
  }
}
