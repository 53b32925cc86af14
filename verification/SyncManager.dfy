/** The two sync managers of BRSyncManager.c. Each section the source runs under its lock is
    one step; callbacks from the client or the peer manager arrive in any order between steps. */
module SyncManager {
  import opened SyncTrace

  type Address = nat

  // ---- Client mode ----

  const START_BLOCK_OFFSET: nat := 144  // one day of blocks

  /** The scan in progress; a wiped record has request id 0. Heights are half open. */
  datatype Scan = Scan(
    requestId: nat, external: Address, internal: Address, known: set<Address>, beg: nat, end: nat, isFullScan: bool)

  const WIPED := Scan(0, 0, 0, {}, 0, 0, false)

  /** What the wallet says about its addresses: all of them, in current and legacy form, and the
      first unused ones of either chain. */
  datatype Wallet = Wallet(all: seq<Address>, external: Address, internal: Address)

  /** A call to the client for the transactions of some addresses in a range of blocks. */
  datatype Request = Request(rid: nat, addresses: set<Address>, beg: nat, end: nat)

  datatype Range = Range(beg: nat, end: nat)

  datatype State = State(
    initHeight: nat, syncedHeight: nat, networkHeight: nat, isConnected: bool, rids: nat, scan: Scan,
    events: seq<Event>, requests: seq<Request>, completed: seq<Range>)

  datatype SyncDepth =
    | FromLastConfirmedSend(height: nat)  // 0 when there is none
    | FromLastTrustedBlock(checkpoint: nat)  // 0 when there is none
    | FromCreation

  function SyncDepthHeight(depth: SyncDepth): nat {
    match depth
    case FromLastConfirmedSend(height) => height
    case FromLastTrustedBlock(checkpoint) => checkpoint
    case FromCreation => 0
  }

  datatype Step =
    | Connect
    | Disconnect
    | ScanToDepth(depth: SyncDepth)
    | GenerateRid  // a block number request or a submission
    | AnnounceBlockNumber(height: nat)
    | UpdateTransactions(wallet: Wallet)
    | AnnounceTransactionsDone(rid: nat, success: bool, wallet: Wallet)

  function Max(a: nat, b: nat): nat { if a >= b then a else b }

  function Min(a: nat, b: nat): nat { if a <= b then a else b }

  function Elements(s: seq<Address>): set<Address> { set a | a in s }

  lemma {:induction false} ElementsAppend(s: seq<Address>, a: Address)
    ensures Elements(s + [a]) == Elements(s) + {a}
  {
  }

  function StopEvent(scan: Scan): seq<Event> { if scan.isFullScan then [SyncStopped] else [] }

  /** The scan that starts when heights are as given. */
  function StartScan(synced: nat, network: nat, rid: nat, w: Wallet): Scan {
    var end := Max(synced, network) + 1;
    var beg := Min(synced, if end >= START_BLOCK_OFFSET then end - START_BLOCK_OFFSET else 0);
    Scan(rid, w.external, w.internal, Elements(w.all), beg, end, end - beg > START_BLOCK_OFFSET)
  }

  /** The addresses discovered since the scan last asked. */
  function NewAddresses(scan: Scan, w: Wallet): set<Address> {
    if w.external != scan.external || w.internal != scan.internal then Elements(w.all) - scan.known else {}
  }

  function AdvancedScan(scan: Scan, w: Wallet): Scan {
    if w.external != scan.external || w.internal != scan.internal then
      scan.(external := w.external, internal := w.internal, known := scan.known + Elements(w.all))
    else scan
  }

  /** The last height of the scanned range, in unsigned 64-bit arithmetic. */
  function SyncedTo(scan: Scan): nat {
    if scan.end == 0 then 0xFFFF_FFFF_FFFF_FFFF else scan.end - 1
  }

  function Apply(s: State, step: Step): State {
    match step
    case Connect =>
      if s.isConnected then s else s.(isConnected := true, events := s.events + [Connected])
    case Disconnect =>
      if !s.isConnected then s
      else s.(isConnected := false, scan := WIPED, events := s.events + StopEvent(s.scan) + [Disconnected])
    case ScanToDepth(depth) =>
      if !s.isConnected then s
      else s.(scan := WIPED,
              syncedHeight := Max(s.initHeight, Min(SyncDepthHeight(depth), s.syncedHeight)),
              events := s.events + StopEvent(s.scan) + [Disconnected, Connected])
    case GenerateRid =>
      if s.isConnected then s.(rids := s.rids + 1) else s
    case AnnounceBlockNumber(height) =>
      if height > s.networkHeight && s.isConnected then
        s.(networkHeight := height, events := s.events + [BlockHeightUpdated(height)])
      else s
    case UpdateTransactions(w) =>
      if s.scan.requestId != 0 || !s.isConnected then s
      else
        var scan := StartScan(s.syncedHeight, s.networkHeight, s.rids + 1, w);
        s.(rids := s.rids + 1, scan := scan,
           events := s.events + (if scan.isFullScan then [SyncStarted] else []),
           requests := s.requests + [Request(scan.requestId, scan.known, scan.beg, scan.end)])
    case AnnounceTransactionsDone(rid, success, w) =>
      if rid != s.scan.requestId || !s.isConnected then s
      else if !success then
        s.(isConnected := false, scan := WIPED, events := s.events + StopEvent(s.scan) + [Disconnected])
      else if NewAddresses(s.scan, w) != {} then
        s.(scan := AdvancedScan(s.scan, w),
           requests := s.requests + [Request(rid, NewAddresses(s.scan, w), s.scan.beg, s.scan.end)])
      else
        s.(syncedHeight := SyncedTo(s.scan), scan := WIPED, events := s.events + StopEvent(s.scan),
           completed := s.completed + [Range(s.scan.beg, s.scan.end)])
  }

  /** The client answers requests it was sent, and those have positive identifiers. */
  predicate Legal(step: Step) {
    step.AnnounceTransactionsDone? ==> step.rid > 0
  }

  /** The height lies in a range that was scanned to its end. */
  ghost predicate Scanned(completed: seq<Range>, h: nat) {
    exists i :: 0 <= i < |completed| && completed[i].beg <= h < completed[i].end
  }

  ghost predicate HeightsOk(s: State) {
    && s.initHeight <= s.syncedHeight <= s.networkHeight
    && (forall h :: s.initHeight <= h < s.syncedHeight ==> Scanned(s.completed, h))
    && (s.scan.requestId != 0 ==>
          s.isConnected && s.scan.beg <= s.syncedHeight < s.scan.end <= s.networkHeight + 1)
    && (s.scan.requestId == 0 ==> s.scan == WIPED)
  }

  /** The phase the event trace is in is the state of the manager. */
  ghost predicate TraceOk(s: State) {
    PhaseOf(s.events) == if !s.isConnected then Idle else if s.scan.isFullScan then Syncing else Online
  }

  /** The union of the batches sent out under a request id. */
  function Asked(requests: seq<Request>, rid: nat): set<Address> {
    if requests == [] then {}
    else
      var r := requests[|requests| - 1];
      Asked(requests[..|requests| - 1], rid) + (if r.rid == rid then r.addresses else {})
  }

  /** Batches of one scan are disjoint and together are the addresses the scan knows. */
  ghost predicate BatchesOk(s: State) {
    && (forall i, j :: 0 <= i < j < |s.requests| && s.requests[i].rid == s.requests[j].rid ==>
          s.requests[i].addresses !! s.requests[j].addresses)
    && (forall i :: 0 <= i < |s.requests| ==> 0 < s.requests[i].rid <= s.rids)
    && s.scan.requestId <= s.rids
    && (s.scan.requestId != 0 ==> Asked(s.requests, s.scan.requestId) == s.scan.known)
  }

  ghost predicate Inv(s: State) {
    HeightsOk(s) && TraceOk(s) && BatchesOk(s)
  }

  function Initial(checkpointHeight: nat, blockHeight: nat): State {
    State(Min(checkpointHeight, blockHeight), Min(checkpointHeight, blockHeight), Max(checkpointHeight, blockHeight),
          false, 0, WIPED, [], [], [])
  }

  function Run(s: State, steps: seq<Step>): State {
    if steps == [] then s else Apply(Run(s, steps[..|steps| - 1]), steps[|steps| - 1])
  }

  lemma {:induction false} AskedMembers(requests: seq<Request>, rid: nat)
    ensures forall a :: a in Asked(requests, rid) <==>
              exists i :: 0 <= i < |requests| && requests[i].rid == rid && a in requests[i].addresses
  {
    if requests != [] {
      var n := |requests| - 1;
      AskedMembers(requests[..n], rid);
      forall a
        ensures a in Asked(requests, rid) <==>
                exists i :: 0 <= i < |requests| && requests[i].rid == rid && a in requests[i].addresses
      {
        if i :| 0 <= i < |requests| && requests[i].rid == rid && a in requests[i].addresses {
          if i < n {
            assert requests[..n][i] == requests[i];
          }
        }
      }
    }
  }

  lemma {:induction false} HeightsKept(s: State, step: Step)
    requires HeightsOk(s) && Legal(step)
    ensures HeightsOk(Apply(s, step)) && Apply(s, step).networkHeight >= s.networkHeight
  {
    var t := Apply(s, step);
    forall h | t.initHeight <= h < t.syncedHeight
      ensures Scanned(t.completed, h)
    {
      if h < s.syncedHeight {
        assert Scanned(s.completed, h);
        var i :| 0 <= i < |s.completed| && s.completed[i].beg <= h < s.completed[i].end;
        assert t.completed[i] == s.completed[i];
      } else {
        assert t.completed[|s.completed|] == Range(s.scan.beg, s.scan.end);
      }
    }
  }

  lemma {:induction false} PhaseAfter1(es: seq<Event>, a: Event)
    ensures PhaseOf(es + [a]) == Next(PhaseOf(es), a)
  {
    assert (es + [a])[..|es|] == es;
  }

  /** A sync that is going on is stopped first. */
  lemma {:induction false} PhaseAfterStop(es: seq<Event>, scan: Scan)
    requires PhaseOf(es) == if scan.isFullScan then Syncing else Online
    ensures PhaseOf(es + StopEvent(scan)) == Online
  {
    if scan.isFullScan { PhaseAfter1(es, SyncStopped); } else { assert es + [] == es; }
  }

  /** The record of the scan fits the connection. */
  ghost predicate ScanFits(s: State) {
    (s.scan.requestId == 0 ==> s.scan == WIPED) && (s.scan.requestId != 0 ==> s.isConnected)
  }

  lemma {:induction false} TraceKeptByConnection(s: State, step: Step)
    requires TraceOk(s) && ScanFits(s) && (step.Connect? || step.Disconnect? || step.GenerateRid?)
    ensures TraceOk(Apply(s, step))
  {
    if s.isConnected { PhaseAfterStop(s.events, s.scan); }
    PhaseAfter1(s.events, Connected);
    PhaseAfter1(s.events + StopEvent(s.scan), Disconnected);
  }

  lemma {:induction false} TraceKeptByScan(s: State, depth: SyncDepth)
    requires TraceOk(s) && ScanFits(s)
    ensures TraceOk(Apply(s, ScanToDepth(depth)))
  {
    if s.isConnected {
      var stopped := s.events + StopEvent(s.scan);
      PhaseAfterStop(s.events, s.scan);
      PhaseAfter1(stopped, Disconnected);
      PhaseAfter1(stopped + [Disconnected], Connected);
      assert stopped + [Disconnected, Connected] == stopped + [Disconnected] + [Connected];
    }
  }

  lemma {:induction false} TraceKeptByUpdate(s: State, w: Wallet)
    requires TraceOk(s) && ScanFits(s)
    ensures TraceOk(Apply(s, UpdateTransactions(w)))
  {
    PhaseAfter1(s.events, SyncStarted);
    assert s.events + [] == s.events;
  }

  lemma {:induction false} TraceKeptByDone(s: State, rid: nat, success: bool, w: Wallet)
    requires TraceOk(s) && ScanFits(s) && rid > 0
    ensures TraceOk(Apply(s, AnnounceTransactionsDone(rid, success, w)))
  {
    if s.isConnected {
      PhaseAfterStop(s.events, s.scan);
      PhaseAfter1(s.events + StopEvent(s.scan), Disconnected);
    }
  }

  lemma {:induction false} TraceKept(s: State, step: Step)
    requires TraceOk(s) && Legal(step) && ScanFits(s)
    ensures TraceOk(Apply(s, step))
  {
    match step
    case ScanToDepth(depth) => TraceKeptByScan(s, depth);
    case AnnounceBlockNumber(height) => PhaseAfter1(s.events, BlockHeightUpdated(height));
    case UpdateTransactions(w) => TraceKeptByUpdate(s, w);
    case AnnounceTransactionsDone(rid, success, w) => TraceKeptByDone(s, rid, success, w);
    case _ => TraceKeptByConnection(s, step);
  }

  lemma {:induction false} BatchesKept(s: State, step: Step)
    requires BatchesOk(s) && Legal(step)
    ensures BatchesOk(Apply(s, step))
  {
    var t := Apply(s, step);
    if |t.requests| > |s.requests| {
      var r := t.requests[|s.requests|];
      assert t.requests == s.requests + [r];
      assert t.requests[..|t.requests| - 1] == s.requests;
      AskedMembers(s.requests, r.rid);
    }
  }

  /** In every run of a client sync manager, whatever the order of its callbacks: the heights
      stay ordered, every height up to the synced height lies in a range scanned to its end,
      the trace fits the state, and each scan asks for each address it knows exactly once. */
  lemma {:induction false} ClientRunsKeepInv(checkpointHeight: nat, blockHeight: nat, steps: seq<Step>)
    requires forall step :: step in steps ==> Legal(step)
    ensures Inv(Run(Initial(checkpointHeight, blockHeight), steps))
  {
    if steps != [] {
      var s := Run(Initial(checkpointHeight, blockHeight), steps[..|steps| - 1]);
      var step := steps[|steps| - 1];
      ClientRunsKeepInv(checkpointHeight, blockHeight, steps[..|steps| - 1]);
      assert step in steps;
      HeightsKept(s, step);
      TraceKept(s, step);
      BatchesKept(s, step);
    }
  }

  // ---- What the answers of the client do ----

  /** The first unused addresses are the same, or all addresses were asked for. */
  predicate NothingNew(scan: Scan, w: Wallet) {
    || (w.external == scan.external && w.internal == scan.internal)
    || forall a :: a in w.all ==> a in scan.known
  }

  /** The answer with number `j` of a run ended a scan of the range: it reported success, under
      the request id of the scan that was going on, and no address was left to ask for. */
  ghost predicate EndedScan(s0: State, steps: seq<Step>, j: nat, r: Range) {
    && j < |steps| && steps[j].AnnounceTransactionsDone? && steps[j].success
    && var s := Run(s0, steps[..j]);
      && s.isConnected && s.scan.requestId == steps[j].rid && r == Range(s.scan.beg, s.scan.end)
      && NothingNew(s.scan, steps[j].wallet)
  }

  /** A range counts as completed only by a successful answer that ended its scan. */
  lemma {:induction false} CompletedWereAnswered(s0: State, steps: seq<Step>, i: nat) returns (j: nat)
    requires s0.completed == [] && i < |Run(s0, steps).completed|
    ensures EndedScan(s0, steps, j, Run(s0, steps).completed[i])
  {
    var n := |steps| - 1;
    var before := Run(s0, steps[..n]);
    if i < |before.completed| {
      j := CompletedWereAnswered(s0, steps[..n], i);
      assert steps[..n][..j] == steps[..j];
      CompletedOnlyGrows(before, steps[n]);
    } else {
      j := n;
      LastCompleted(before, steps[n]);
    }
  }

  lemma {:induction false} CompletedOnlyGrows(s: State, step: Step)
    ensures s.completed <= Apply(s, step).completed && |Apply(s, step).completed| <= |s.completed| + 1
  {
  }

  lemma {:induction false} LastCompleted(s: State, step: Step)
    ensures Apply(s, step).completed != s.completed ==>
              && step.AnnounceTransactionsDone? && step.success && s.isConnected && s.scan.requestId == step.rid
              && Apply(s, step).completed == s.completed + [Range(s.scan.beg, s.scan.end)]
              && NothingNew(s.scan, step.wallet)
  {
    if step.AnnounceTransactionsDone? && NewAddresses(s.scan, step.wallet) == {} {
      assert forall a :: a in step.wallet.all ==> a in Elements(step.wallet.all);
      assert forall a :: a in Elements(step.wallet.all) && a !in s.scan.known ==> a in Elements(step.wallet.all) - s.scan.known;
    }
  }

  /** In every run each height from the initial one up to the synced one lies in a range for
      which the client reported success. */
  lemma {:induction false} SyncedMeansAnswered(checkpointHeight: nat, blockHeight: nat, steps: seq<Step>, h: nat) returns (j: nat, r: Range)
    requires forall step :: step in steps ==> Legal(step)
    requires var s := Run(Initial(checkpointHeight, blockHeight), steps); s.initHeight <= h < s.syncedHeight
    ensures EndedScan(Initial(checkpointHeight, blockHeight), steps, j, r) && r.beg <= h < r.end
  {
    var s0 := Initial(checkpointHeight, blockHeight);
    ClientRunsKeepInv(checkpointHeight, blockHeight, steps);
    var s := Run(s0, steps);
    assert Scanned(s.completed, h);
    var i :| 0 <= i < |s.completed| && s.completed[i].beg <= h < s.completed[i].end;
    j := CompletedWereAnswered(s0, steps, i);
    r := s.completed[i];
  }

  /** An answer to the scan that is going on ends the connection if it reports failure, asks for
      the new addresses if there are any, and otherwise ends the scan at its last height. */
  lemma {:induction false} AnswersDo(s: State, success: bool, w: Wallet)
    requires HeightsOk(s) && s.scan.requestId != 0
    ensures var t := Apply(s, AnnounceTransactionsDone(s.scan.requestId, success, w));
            && (!success ==> !t.isConnected && t.syncedHeight == s.syncedHeight && t.completed == s.completed
                             && t.requests == s.requests && t.scan.requestId == 0)
            && (success && t.requests == s.requests ==> t.isConnected && t.syncedHeight == s.scan.end - 1 && t.scan.requestId == 0)
            && (success && t.requests != s.requests ==>
                  var r := t.requests[|s.requests|];
                  && t.requests == s.requests + [r] && t.isConnected && t.syncedHeight == s.syncedHeight
                  && r.rid == s.scan.requestId && r.beg == s.scan.beg && r.end == s.scan.end
                  && r.addresses != {} && r.addresses == t.scan.known - s.scan.known)
            && (success && !NothingNew(s.scan, w) ==> t.requests != s.requests)
  {
    if a :| a in w.all && a !in s.scan.known {
      assert a in Elements(w.all) - s.scan.known;
    }
    assert forall a :: a in AdvancedScan(s.scan, w).known <==>
      a in s.scan.known || ((w.external != s.scan.external || w.internal != s.scan.internal) && a in Elements(w.all));
  }

  /** An answer under another request id, or without a connection, does nothing. */
  lemma {:induction false} OtherAnswersDoNothing(s: State, rid: nat, success: bool, w: Wallet)
    requires !s.isConnected || rid != s.scan.requestId
    ensures Apply(s, AnnounceTransactionsDone(rid, success, w)) == s
  {
  }

  /** With a connection and no scan going on, an update asks for all addresses of the wallet, from
      the synced height up to the highest one known, and at least for a day of blocks. */
  lemma {:induction false} UpdatesAsk(s: State, w: Wallet)
    requires HeightsOk(s) && s.isConnected && s.scan.requestId == 0
    ensures var t := Apply(s, UpdateTransactions(w));
            && |t.requests| == |s.requests| + 1 && t.requests[..|s.requests|] == s.requests
            && var r := t.requests[|s.requests|];
              && r.rid == t.scan.requestId == t.rids == s.rids + 1 && (forall a :: a in r.addresses <==> a in w.all)
              && r.beg <= s.syncedHeight && r.end == s.networkHeight + 1
              && (r.beg == 0 || r.end - r.beg >= 144) && (r.beg == s.syncedHeight || r.end - r.beg <= 144)
              && t.events == s.events + if r.end - r.beg > 144 then [SyncStarted] else []
  {
  }

  /** After a rescan the next update asks from the wanted depth or below it, down to the initial
      height. */
  lemma {:induction false} RescansAskFromDepth(s: State, depth: SyncDepth, w: Wallet)
    requires HeightsOk(s) && s.isConnected
    ensures var t := Apply(s, ScanToDepth(depth));
            && t.isConnected && t.initHeight <= t.syncedHeight <= s.syncedHeight
            && t.syncedHeight <= Max(s.initHeight, SyncDepthHeight(depth))
            && (t.syncedHeight < s.syncedHeight ==> t.syncedHeight == Max(s.initHeight, SyncDepthHeight(depth)))
            && var u := Apply(t, UpdateTransactions(w));
              && |u.requests| == |s.requests| + 1
              && u.requests[|s.requests|].beg <= Max(s.initHeight, SyncDepthHeight(depth))
              && u.requests[|s.requests|].end == s.networkHeight + 1
    ensures depth.FromCreation? ==> Apply(s, ScanToDepth(depth)).syncedHeight == s.initHeight
  {
    HeightsKept(s, ScanToDepth(depth));
    UpdatesAsk(Apply(s, ScanToDepth(depth)), w);
  }

  /** A manager starts with nothing synced beyond the lower of the two heights it is given, and
      knows of the higher one. */
  lemma {:induction false} StartIs(checkpointHeight: nat, blockHeight: nat)
    ensures var s := Initial(checkpointHeight, blockHeight);
            && s.initHeight == s.syncedHeight && !s.isConnected && s.scan.requestId == 0
            && {s.initHeight, s.networkHeight} == {checkpointHeight, blockHeight} && s.initHeight <= s.networkHeight
            && s.events == [] && s.requests == [] && s.completed == []
  {
  }

  /** The connection is what the last of connecting, disconnecting and a failed answer made it. */
  lemma {:induction false} ConnectionIs(s: State, step: Step)
    requires HeightsOk(s)
    ensures Apply(s, step).isConnected <==>
              || step.Connect?
              || (s.isConnected && !step.Disconnect?
                  && !(step.AnnounceTransactionsDone? && !step.success && step.rid == s.scan.requestId))
    ensures step.AnnounceBlockNumber? && s.isConnected ==>
              Apply(s, step).networkHeight == Max(s.networkHeight, step.height)
    ensures !s.isConnected && !step.Connect? ==> Apply(s, step) == s
  {
  }

  /** The network height never falls in the course of a run. */
  lemma {:induction false} NetworkHeightOnlyGrows(checkpointHeight: nat, blockHeight: nat, steps: seq<Step>, i: nat)
    requires i <= |steps| && forall step :: step in steps ==> Legal(step)
    ensures Run(Initial(checkpointHeight, blockHeight), steps[..i]).networkHeight
         <= Run(Initial(checkpointHeight, blockHeight), steps).networkHeight
    decreases |steps| - i
  {
    if i == |steps| {
      assert steps[..i] == steps;
    } else {
      assert steps[..i + 1][..i] == steps[..i];
      assert forall step :: step in steps[..i] ==> step in steps;
      ClientRunsKeepInv(checkpointHeight, blockHeight, steps[..i]);
      HeightsKept(Run(Initial(checkpointHeight, blockHeight), steps[..i]), steps[i]);
      NetworkHeightOnlyGrows(checkpointHeight, blockHeight, steps, i + 1);
    }
  }

  /** In every run the trace without height updates is a prefix of connections with completed
      syncs in them, and all adjacent events are valid pairs. */
  lemma {:induction false} ClientTraces(checkpointHeight: nat, blockHeight: nat, steps: seq<Step>) returns (ns: seq<nat>)
    requires forall step :: step in steps ==> Legal(step)
    ensures var es := Run(Initial(checkpointHeight, blockHeight), steps).events;
            && WithoutHeights(es) + Ending(PhaseOf(es)) == Sessions(ns)
            && forall i :: 0 <= i < |es| ==> IsValidPair(([Created] + es)[i], es[i])
  {
    ClientRunsKeepInv(checkpointHeight, blockHeight, steps);
    var es := Run(Initial(checkpointHeight, blockHeight), steps).events;
    WithoutHeightsKeepsPhase(es);
    ns := UnbrokenIsSessions(WithoutHeights(es));
    UnbrokenPairsAreValid(es);
  }

  /** The state a manager is in after some steps. */
  ghost predicate Reached(start: State, run: seq<Step>, s: State) {
    && (exists checkpointHeight: nat, blockHeight: nat :: start == Initial(checkpointHeight, blockHeight))
    && s == Run(start, run) && forall step :: step in run ==> Legal(step)
  }

  lemma {:induction false} ReachedOn(start: State, run: seq<Step>, s: State, step: Step)
    ensures Reached(start, run, s) && Legal(step) ==> Reached(start, run + [step], Apply(s, step))
  {
    assert (run + [step])[..|run|] == run;
  }

  /** Whatever was called on a client sync manager, in whatever order, the invariant holds. */
  lemma {:induction false} ClientManagerKeepsInv(m: ClientSyncManager)
    requires m.Valid()
    ensures Inv(m.View())
  {
    hide Inv;
    var checkpointHeight: nat, blockHeight: nat :| m.start == Initial(checkpointHeight, blockHeight);
    ClientRunsKeepInv(checkpointHeight, blockHeight, m.run);
  }

  /** The client sync manager. */
  class ClientSyncManager {
    const initBlockHeight: nat
    var syncedBlockHeight: nat
    var networkBlockHeight: nat
    var isConnected: bool
    var requestIdGenerator: nat
    var scanState: Scan
    var events: seq<Event>  // what the event callback was told
    var requests: seq<Request>  // what the client was asked
    ghost var completed: seq<Range>
    ghost const start: State
    ghost var run: seq<Step>  // the steps so far

    /** The manager is where its steps lead from the beginning. */
    ghost predicate Valid()
      reads this
    {
      Reached(start, run, View())
    }

    ghost function View(): State
      reads this
    {
      State(initBlockHeight, syncedBlockHeight, networkBlockHeight, isConnected, requestIdGenerator, scanState,
            events, requests, completed)
    }

    constructor (checkpointHeight: nat, blockHeight: nat)
      ensures View() == Initial(checkpointHeight, blockHeight) && run == [] && Valid()
    {
      start, run := Initial(checkpointHeight, blockHeight), [];
      initBlockHeight := Min(checkpointHeight, blockHeight);
      networkBlockHeight := Max(checkpointHeight, blockHeight);
      syncedBlockHeight := Min(checkpointHeight, blockHeight);
      isConnected, requestIdGenerator, scanState := false, 0, WIPED;
      events, requests, completed := [], [], [];
    }

    method ConnectLocked()
      modifies this
      ensures View() == Apply(old(View()), Connect)
      ensures run == old(run) + [Connect] && (old(Valid()) ==> Valid())
    {
      hide Reached;
      ReachedOn(start, run, View(), Connect);
      var needEvent := false;
      if !isConnected {
        isConnected := true;
        needEvent := true;
      }
      if needEvent { events := events + [Connected]; }
      run := run + [Connect];
    }

    method DisconnectLocked()
      modifies this
      ensures View() == Apply(old(View()), Disconnect)
      ensures run == old(run) + [Disconnect] && (old(Valid()) ==> Valid())
    {
      hide Reached;
      ReachedOn(start, run, View(), Disconnect);
      var needConnectionEvent, needSyncEvent := false, false;
      if isConnected {
        isConnected := false;
        needConnectionEvent := true;
        needSyncEvent := scanState.isFullScan;
        scanState := WIPED;
      }
      if needSyncEvent { events := events + [SyncStopped]; }
      if needConnectionEvent { events := events + [Disconnected]; }
      run := run + [Disconnect];
    }

    method ScanToDepthLocked(depth: SyncDepth)
      modifies this
      ensures View() == Apply(old(View()), ScanToDepth(depth))
      ensures run == old(run) + [ScanToDepth(depth)] && (old(Valid()) ==> Valid())
    {
      hide Reached;
      ReachedOn(start, run, View(), ScanToDepth(depth));
      var needConnectionEvent, needSyncEvent := false, false;
      if isConnected {
        needConnectionEvent := true;
        needSyncEvent := scanState.isFullScan;
        scanState := WIPED;
        syncedBlockHeight := Max(initBlockHeight, Min(SyncDepthHeight(depth), syncedBlockHeight));
      }
      if needSyncEvent { events := events + [SyncStopped]; }
      if needConnectionEvent {
        events := events + [Disconnected];
        events := events + [Connected];
      }
      run := run + [ScanToDepth(depth)];
    }

    /** The locked section of a submission or of a request for the block number. */
    method GenerateRidLocked() returns (rid: nat)
      modifies this
      ensures View() == Apply(old(View()), GenerateRid)
      ensures isConnected ==> rid == requestIdGenerator
      ensures run == old(run) + [GenerateRid] && (old(Valid()) ==> Valid())
    {
      hide Reached;
      ReachedOn(start, run, View(), GenerateRid);
      rid := 0;
      if isConnected {
        requestIdGenerator := requestIdGenerator + 1;
        rid := requestIdGenerator;
      }
      run := run + [GenerateRid];
    }

    method AnnounceGetBlockNumber(height: nat)
      modifies this
      ensures View() == Apply(old(View()), AnnounceBlockNumber(height))
      ensures run == old(run) + [AnnounceBlockNumber(height)] && (old(Valid()) ==> Valid())
    {
      hide Reached;
      ReachedOn(start, run, View(), AnnounceBlockNumber(height));
      var needEvent := false;
      if height > networkBlockHeight && isConnected {
        networkBlockHeight := height;
        needEvent := true;
      }
      if needEvent { events := events + [BlockHeightUpdated(height)]; }
      run := run + [AnnounceBlockNumber(height)];
    }

    method UpdateTransactionsLocked(wallet: Wallet)
      modifies this
      ensures View() == Apply(old(View()), UpdateTransactions(wallet))
      ensures run == old(run) + [UpdateTransactions(wallet)] && (old(Valid()) ==> Valid())
    {
      hide Reached;
      ReachedOn(start, run, View(), UpdateTransactions(wallet));
      if scanState.requestId == 0 && isConnected {
        requestIdGenerator := requestIdGenerator + 1;
        var known := FillAddressSet(wallet.all);
        var end := Max(syncedBlockHeight, networkBlockHeight) + 1;
        var beg := Min(syncedBlockHeight, if end >= START_BLOCK_OFFSET then end - START_BLOCK_OFFSET else 0);
        scanState := Scan(requestIdGenerator, wallet.external, wallet.internal, known, beg, end,
                          end - beg > START_BLOCK_OFFSET);
        if scanState.isFullScan { events := events + [SyncStarted]; }
        requests := requests + [Request(scanState.requestId, scanState.known, scanState.beg, scanState.end)];
      }
      run := run + [UpdateTransactions(wallet)];
    }

    method AnnounceGetTransactionsDone(rid: nat, success: bool, wallet: Wallet)
      modifies this
      ensures View() == Apply(old(View()), AnnounceTransactionsDone(rid, success, wallet))
      ensures run == old(run) + [AnnounceTransactionsDone(rid, success, wallet)] && (old(Valid()) && Legal(AnnounceTransactionsDone(rid, success, wallet)) ==> Valid())
    {
      hide Reached;
      ReachedOn(start, run, View(), AnnounceTransactionsDone(rid, success, wallet));
      if rid == scanState.requestId && isConnected {
        if success {
          var addresses: seq<Address> := [];
          if wallet.external != scanState.external || wallet.internal != scanState.internal {
            var known;
            known, addresses := UpdateAddressSet(scanState.known, wallet.all);
            scanState := scanState.(external := wallet.external, internal := wallet.internal, known := known);
          }
          if |addresses| > 0 {
            assert addresses[0] in Elements(addresses);
            requests := requests + [Request(rid, Elements(addresses), scanState.beg, scanState.end)];
          } else {
            assert Elements(addresses) == {};
            syncedBlockHeight := SyncedTo(scanState);
            if scanState.isFullScan { events := events + [SyncStopped]; }
            completed := completed + [Range(scanState.beg, scanState.end)];
            scanState := WIPED;
          }
        } else {
          isConnected := false;
          if scanState.isFullScan { events := events + [SyncStopped]; }
          events := events + [Disconnected];
          scanState := WIPED;
        }
      }
      run := run + [AnnounceTransactionsDone(rid, success, wallet)];
    }

    method FillAddressSet(listed: seq<Address>) returns (addresses: set<Address>)
      ensures addresses == Elements(listed)
    {
      addresses := {};
      var i := 0;
      while i < |listed|
        invariant 0 <= i <= |listed| && addresses == Elements(listed[..i])
      {
        assert listed[..i + 1] == listed[..i] + [listed[i]];
        if listed[i] !in addresses { addresses := addresses + {listed[i]}; }
        i := i + 1;
      }
      assert listed[..i] == listed;
    }

    /** Adds the wallet's addresses to the set and returns those that were new. */
    method UpdateAddressSet(known: set<Address>, listed: seq<Address>) returns (addresses: set<Address>, added: seq<Address>)
      ensures addresses == known + Elements(listed)
      ensures Elements(added) == Elements(listed) - known
      ensures forall i, j :: 0 <= i < j < |added| ==> added[i] != added[j]
    {
      addresses, added := known, [];
      var i := 0;
      while i < |listed|
        invariant 0 <= i <= |listed| && addresses == known + Elements(listed[..i])
        invariant Elements(added) == Elements(listed[..i]) - known
        invariant forall j, k :: 0 <= j < k < |added| ==> added[j] != added[k]
      {
        assert listed[..i + 1] == listed[..i] + [listed[i]];
        ElementsAppend(listed[..i], listed[i]);
        if listed[i] !in addresses {
          ElementsAppend(added, listed[i]);
          assert listed[i] !in Elements(added);
          addresses := addresses + {listed[i]};
          added := added + [listed[i]];
        }
        i := i + 1;
      }
      assert listed[..i] == listed;
    }
  }

  // ---- Peer to peer mode ----

  datatype PeerState = PeerState(isConnected: bool, isFullScan: bool, networkHeight: nat, events: seq<Event>)

  /** The callbacks of the peer manager, with the connection status it reports. */
  datatype PeerStep =
    | PeerSyncStarted
    | PeerSyncStopped(connected: bool)
    | PeerTickTock(connected: bool, progress: bool)  // whether progress is strictly between 0 and 100 percent
    | PeerTxStatusUpdate(height: nat)

  function PeerApply(s: PeerState, step: PeerStep): PeerState {
    match step
    case PeerSyncStarted =>
      PeerState(true, true, s.networkHeight,
        s.events + (if s.isFullScan then [SyncStopped] else []) + (if s.isConnected then [] else [Connected])
        + [SyncStarted])
    case PeerSyncStopped(connected) =>
      PeerState(connected, false, s.networkHeight,
        s.events + (if s.isFullScan then [SyncStopped] else [])
        + (if !connected && s.isConnected then [Disconnected] else []))
    case PeerTickTock(connected, progress) =>
      var gone := s.isConnected && !connected;
      PeerState(s.isConnected && !gone, s.isFullScan && !gone, s.networkHeight,
        s.events + (if s.isConnected && s.isFullScan && progress then [SyncProgress] else [])
        + (if s.isFullScan && gone then [SyncStopped] else []) + (if gone then [Disconnected] else []))
    case PeerTxStatusUpdate(height) =>
      s.(networkHeight := Max(height, s.networkHeight),
         events := s.events + (if height > s.networkHeight then [BlockHeightUpdated(height)] else []))
  }

  function PeerRun(s: PeerState, steps: seq<PeerStep>): PeerState {
    if steps == [] then s else PeerApply(PeerRun(s, steps[..|steps| - 1]), steps[|steps| - 1])
  }

  /** Whether a sync is going on after the events, or None if they are out of order: syncs that
      overlap, stops without a start, or progress outside a sync. */
  datatype SyncPhase = Off | On | OutOfOrder

  function NextSync(p: SyncPhase, e: Event): SyncPhase {
    match e
    case SyncStarted => if p == Off then On else OutOfOrder
    case SyncStopped => if p == On then Off else OutOfOrder
    case SyncProgress => if p == On then On else OutOfOrder
    case _ => p
  }

  function SyncPhaseOf(es: seq<Event>): SyncPhase {
    if es == [] then Off else NextSync(SyncPhaseOf(es[..|es| - 1]), es[|es| - 1])
  }

  lemma {:induction false} SyncPhaseAppend(es: seq<Event>, e: Event)
    ensures SyncPhaseOf(es + [e]) == NextSync(SyncPhaseOf(es), e)
  {
    assert (es + [e])[..|es|] == es;
  }

  function MaybeNextSync(p: SyncPhase, add: bool, e: Event): SyncPhase {
    if add then NextSync(p, e) else p
  }

  lemma {:induction false} SyncPhaseMaybe(es: seq<Event>, add: bool, e: Event)
    ensures SyncPhaseOf(es + (if add then [e] else [])) == MaybeNextSync(SyncPhaseOf(es), add, e)
  {
    if add { SyncPhaseAppend(es, e); } else { assert es + [] == es; }
  }

  lemma {:induction false} PeerStepKeepsOrder(s: PeerState, step: PeerStep)
    requires SyncPhaseOf(s.events) == if s.isFullScan then On else Off
    ensures var t := PeerApply(s, step); SyncPhaseOf(t.events) == if t.isFullScan then On else Off
    ensures PeerApply(s, step).networkHeight >= s.networkHeight
  {
    match step
    case PeerSyncStarted =>
      var es := s.events + (if s.isFullScan then [SyncStopped] else []);
      SyncPhaseMaybe(s.events, s.isFullScan, SyncStopped);
      SyncPhaseMaybe(es, !s.isConnected, Connected);
      SyncPhaseAppend(es + (if s.isConnected then [] else [Connected]), SyncStarted);
    case PeerSyncStopped(connected) =>
      SyncPhaseMaybe(s.events, s.isFullScan, SyncStopped);
      SyncPhaseMaybe(s.events + (if s.isFullScan then [SyncStopped] else []), !connected && s.isConnected, Disconnected);
    case PeerTickTock(connected, progress) =>
      var gone := s.isConnected && !connected;
      var inform := s.isConnected && s.isFullScan && progress;
      var es := s.events + (if inform then [SyncProgress] else []);
      SyncPhaseMaybe(s.events, inform, SyncProgress);
      SyncPhaseMaybe(es, s.isFullScan && gone, SyncStopped);
      SyncPhaseMaybe(es + (if s.isFullScan && gone then [SyncStopped] else []), gone, Disconnected);
    case PeerTxStatusUpdate(height) =>
      SyncPhaseMaybe(s.events, height > s.networkHeight, BlockHeightUpdated(height));
  }

  /** For any order of callbacks, syncs start and stop in strict alternation and progress is
      only announced in between. */
  lemma {:induction false} PeerRunsAlternate(s: PeerState, steps: seq<PeerStep>)
    requires SyncPhaseOf(s.events) == if s.isFullScan then On else Off
    ensures var t := PeerRun(s, steps); SyncPhaseOf(t.events) == if t.isFullScan then On else Off
    ensures PeerRun(s, steps).networkHeight >= s.networkHeight
  {
    if steps != [] {
      PeerRunsAlternate(s, steps[..|steps| - 1]);
      PeerStepKeepsOrder(PeerRun(s, steps[..|steps| - 1]), steps[|steps| - 1]);
    }
  }

  /** What the alternation means for any two events of a trace. */
  lemma {:induction false} AlternationMeans(es: seq<Event>, i: nat, j: nat)
    requires SyncPhaseOf(es) != OutOfOrder && i < j < |es|
    requires es[i] == es[j] && (es[i] == SyncStarted || es[i] == SyncStopped)
    ensures exists k :: i < k < j && es[k] == if es[i] == SyncStarted then SyncStopped else SyncStarted
  {
    PrefixInOrder(es, j);
    PrefixInOrder(es, j + 1);
    PrefixInOrder(es, i + 1);
    assert es[..j + 1][..j] == es[..j] && es[..i + 1][..i] == es[..i];
    FindSwitch(es, i, j);
  }

  lemma {:induction false} PrefixInOrder(es: seq<Event>, n: nat)
    requires SyncPhaseOf(es) != OutOfOrder && n <= |es|
    ensures SyncPhaseOf(es[..n]) != OutOfOrder
    decreases |es|
  {
    if n < |es| {
      PrefixInOrder(es[..|es| - 1], n);
      assert es[..|es| - 1][..n] == es[..n];
    } else {
      assert es[..n] == es;
    }
  }

  /** The phase cannot change back without the other event. */
  lemma {:induction false} FindSwitch(es: seq<Event>, i: nat, j: nat)
    requires i < j <= |es| && (es[i] == SyncStarted || es[i] == SyncStopped)
    requires SyncPhaseOf(es[..i + 1]) == if es[i] == SyncStarted then On else Off
    requires SyncPhaseOf(es[..j]) == if es[i] == SyncStarted then Off else On
    ensures exists k :: i < k < j && es[k] == if es[i] == SyncStarted then SyncStopped else SyncStarted
    decreases j
  {
    assert es[..j][..j - 1] == es[..j - 1];
    if j > i + 1 && es[j - 1] != SyncStarted && es[j - 1] != SyncStopped {
      FindSwitch(es, i, j - 1);
    }
  }

  /** When a full scan goes on, and when its progress is announced. */
  lemma {:induction false} PeerScanIs(s: PeerState, step: PeerStep)
    ensures PeerApply(s, step).isFullScan <==>
              || step.PeerSyncStarted?
              || (s.isFullScan && !step.PeerSyncStopped?
                  && !(step.PeerTickTock? && s.isConnected && !step.connected))
    ensures step.PeerTickTock? && step.connected ==>
              PeerApply(s, step).events == s.events + if s.isConnected && s.isFullScan && step.progress then [SyncProgress] else []
    ensures step.PeerTxStatusUpdate? ==> PeerApply(s, step).networkHeight == Max(s.networkHeight, step.height)
  {
  }

  // ---- Announced connections ----

  /** Whether the announced connection stands after the events, or Unpaired if a connection
      is announced twice or a loss without one. */
  datatype Link = Down | Up | Unpaired

  function NextLink(l: Link, e: Event): Link {
    match e
    case Connected => if l == Down then Up else Unpaired
    case Disconnected => if l == Up then Down else Unpaired
    case _ => l
  }

  function LinkOf(es: seq<Event>): Link {
    if es == [] then Down else NextLink(LinkOf(es[..|es| - 1]), es[|es| - 1])
  }

  lemma {:induction false} LinkMaybe(es: seq<Event>, add: bool, e: Event)
    ensures LinkOf(es + (if add then [e] else [])) == if add then NextLink(LinkOf(es), e) else LinkOf(es)
  {
    if add { assert (es + [e])[..|es|] == es; } else { assert es + [] == es; }
  }

  /** The end of a sync finds the peers connected though no connection was noticed. */
  predicate GainsSilently(s: PeerState, step: PeerStep) {
    step == PeerSyncStopped(true) && !s.isConnected
  }

  predicate ReportsLoss(step: PeerStep) {
    (step.PeerSyncStopped? || step.PeerTickTock?) && !step.connected
  }

  /** What a step adds to the announced connections. */
  lemma {:induction false} LinkAfter(s: PeerState, step: PeerStep)
    ensures LinkOf(PeerApply(s, step).events) ==
              if step.PeerSyncStarted? && !s.isConnected then NextLink(LinkOf(s.events), Connected)
              else if ReportsLoss(step) && s.isConnected then NextLink(LinkOf(s.events), Disconnected)
              else LinkOf(s.events)
    ensures PeerApply(s, step).isConnected <==>
              if step.PeerSyncStarted? || GainsSilently(s, step) then true
              else if ReportsLoss(step) then false
              else s.isConnected
  {
    match step
    case PeerSyncStarted =>
      var es := s.events + (if s.isFullScan then [SyncStopped] else []);
      LinkMaybe(s.events, s.isFullScan, SyncStopped);
      LinkMaybe(es, !s.isConnected, Connected);
      LinkMaybe(es + (if s.isConnected then [] else [Connected]), true, SyncStarted);
    case PeerSyncStopped(connected) =>
      LinkMaybe(s.events, s.isFullScan, SyncStopped);
      LinkMaybe(s.events + (if s.isFullScan then [SyncStopped] else []), !connected && s.isConnected, Disconnected);
    case PeerTickTock(connected, progress) =>
      var gone := s.isConnected && !connected;
      var inform := s.isConnected && s.isFullScan && progress;
      var es := s.events + (if inform then [SyncProgress] else []);
      LinkMaybe(s.events, inform, SyncProgress);
      LinkMaybe(es, s.isFullScan && gone, SyncStopped);
      LinkMaybe(es + (if s.isFullScan && gone then [SyncStopped] else []), gone, Disconnected);
    case PeerTxStatusUpdate(height) =>
      LinkMaybe(s.events, height > s.networkHeight, BlockHeightUpdated(height));
  }

  /** Somewhere in the run a connection is gained silently. */
  ghost predicate SomeGain(s: PeerState, steps: seq<PeerStep>) {
    exists i :: 0 <= i < |steps| && GainsSilently(PeerRun(s, steps[..i]), steps[i])
  }

  /** And later a loss is reported. */
  ghost predicate GainThenLoss(s: PeerState, steps: seq<PeerStep>) {
    exists i, j :: 0 <= i < j < |steps| && GainsSilently(PeerRun(s, steps[..i]), steps[i]) && ReportsLoss(steps[j])
  }

  /** Both, after one more step. */
  lemma {:induction false} GainsGrow(s: PeerState, before: seq<PeerStep>, step: PeerStep)
    ensures SomeGain(s, before + [step]) <==> SomeGain(s, before) || GainsSilently(PeerRun(s, before), step)
    ensures GainThenLoss(s, before + [step]) <==> GainThenLoss(s, before) || (SomeGain(s, before) && ReportsLoss(step))
  {
    hide PeerRun;
    hide PeerApply;
    var steps := before + [step];
    assert forall i :: 0 <= i < |steps| ==> steps[..i] == before[..i];
    assert before[..|before|] == before;
    if SomeGain(s, before) {
      var i :| 0 <= i < |before| && GainsSilently(PeerRun(s, before[..i]), before[i]);
      assert GainsSilently(PeerRun(s, steps[..i]), steps[i]);
      assert steps[|before|] == step;
    }
    if GainThenLoss(s, before) {
      var i, j :| 0 <= i < j < |before| && GainsSilently(PeerRun(s, before[..i]), before[i]) && ReportsLoss(before[j]);
      assert GainsSilently(PeerRun(s, steps[..i]), steps[i]) && ReportsLoss(steps[j]);
    }
    if GainsSilently(PeerRun(s, before), step) {
      assert GainsSilently(PeerRun(s, steps[..|before|]), steps[|before|]);
    }
  }

  /** Connections and their losses are announced in pairs exactly unless a connection is gained
      silently and its loss is reported later. Without a silent gain the announced connection is
      the actual one. */
  lemma {:induction false} ConnectionsPairedExactly(s: PeerState, steps: seq<PeerStep>)
    requires LinkOf(s.events) == if s.isConnected then Up else Down
    ensures var t := PeerRun(s, steps);
            && (LinkOf(t.events) == Unpaired <==> GainThenLoss(s, steps))
            && (!SomeGain(s, steps) ==> LinkOf(t.events) == if t.isConnected then Up else Down)
            && (SomeGain(s, steps) && !GainThenLoss(s, steps) ==> LinkOf(t.events) == Down && t.isConnected)
  {
    if steps != [] {
      var before, step := steps[..|steps| - 1], steps[|steps| - 1];
      assert steps == before + [step];
      ConnectionsPairedExactly(s, before);
      GainsGrow(s, before, step);
      LinkAfter(PeerRun(s, before), step);
      hide SomeGain;
      hide GainThenLoss;
      hide PeerApply;
    }
  }

  /** After a silent gain the announcements can always still get out of step. */
  lemma {:induction false} SilentGainCanBreak(s: PeerState, steps: seq<PeerStep>)
    requires LinkOf(s.events) == if s.isConnected then Up else Down
    requires SomeGain(s, steps)
    ensures LinkOf(PeerRun(s, steps + [PeerTickTock(false, false)]).events) == Unpaired
  {
    GainsGrow(s, steps, PeerTickTock(false, false));
    ConnectionsPairedExactly(s, steps + [PeerTickTock(false, false)]);
  }

  /** A run that is not paired. */
  lemma {:induction false} ConnectionsMayGoUnannounced()
    ensures PeerRun(PeerState(false, false, 0, []), [PeerSyncStopped(true), PeerTickTock(false, false)]).events
         == [Disconnected]
  {
    var start := PeerState(false, false, 0, []);
    var steps := [PeerSyncStopped(true), PeerTickTock(false, false)];
    assert steps[..1] == [PeerSyncStopped(true)] && steps[..1][..0] == [];
    assert PeerRun(start, steps[..1]) == PeerState(true, false, 0, []);
  }

  ghost predicate PeerReached(start: PeerState, run: seq<PeerStep>, s: PeerState) {
    (exists height: nat :: start == PeerState(false, false, height, [])) && s == PeerRun(start, run)
  }

  lemma {:induction false} PeerReachedOn(start: PeerState, run: seq<PeerStep>, s: PeerState, step: PeerStep)
    ensures PeerReached(start, run, s) ==> PeerReached(start, run + [step], PeerApply(s, step))
  {
    assert (run + [step])[..|run|] == run;
  }

  /** Whatever callbacks a peer sync manager got: syncs alternate, and connections are announced
      in pairs exactly unless one is gained silently and lost later. */
  lemma {:induction false} PeerManagerAlternates(m: PeerSyncManager)
    requires m.Valid()
    ensures SyncPhaseOf(m.events) == if m.isFullScan then On else Off
    ensures LinkOf(m.events) == Unpaired <==> GainThenLoss(m.start, m.run)
  {
    PeerRunsAlternate(m.start, m.run);
    ConnectionsPairedExactly(m.start, m.run);
  }

  /** The peer to peer sync manager. */
  class PeerSyncManager {
    var networkBlockHeight: nat
    var isConnected: bool
    var isFullScan: bool
    var events: seq<Event>
    ghost const start: PeerState
    ghost var run: seq<PeerStep>  // the callbacks so far

    ghost predicate Valid()
      reads this
    {
      PeerReached(start, run, View())
    }

    ghost function View(): PeerState
      reads this
    {
      PeerState(isConnected, isFullScan, networkBlockHeight, events)
    }

    constructor (checkpointHeight: nat, blockHeight: nat)
      ensures View() == PeerState(false, false, Max(checkpointHeight, blockHeight), []) && run == [] && Valid()
    {
      start, run := PeerState(false, false, Max(checkpointHeight, blockHeight), []), [];
      networkBlockHeight := Max(checkpointHeight, blockHeight);
      isConnected, isFullScan, events := false, false, [];
    }

    method SyncStartedCallback()
      modifies this
      ensures View() == PeerApply(old(View()), PeerSyncStarted)
      ensures run == old(run) + [PeerSyncStarted] && (old(Valid()) ==> Valid())
    {
      hide PeerReached;
      PeerReachedOn(start, run, View(), PeerSyncStarted);
      var needConnectionEvent := !isConnected;
      var needSyncStoppedEvent := isFullScan;
      isConnected := if needConnectionEvent then true else isConnected;
      isFullScan := true;
      if needSyncStoppedEvent { events := events + [SyncStopped]; }
      if needConnectionEvent { events := events + [Connected]; }
      events := events + [SyncStarted];
      run := run + [PeerSyncStarted];
    }

    method SyncStoppedCallback(connected: bool)
      modifies this
      ensures View() == PeerApply(old(View()), PeerSyncStopped(connected))
      ensures run == old(run) + [PeerSyncStopped(connected)] && (old(Valid()) ==> Valid())
    {
      hide PeerReached;
      PeerReachedOn(start, run, View(), PeerSyncStopped(connected));
      var needSyncStoppedEvent := isFullScan;
      var needDisconnectionEvent := !connected && isConnected;
      isConnected := if needDisconnectionEvent then false else connected;
      isFullScan := if needSyncStoppedEvent then false else isFullScan;
      if needSyncStoppedEvent { events := events + [SyncStopped]; }
      if needDisconnectionEvent { events := events + [Disconnected]; }
      run := run + [PeerSyncStopped(connected)];
    }

    method TickTock(connected: bool, progress: bool)
      modifies this
      ensures View() == PeerApply(old(View()), PeerTickTock(connected, progress))
      ensures run == old(run) + [PeerTickTock(connected, progress)] && (old(Valid()) ==> Valid())
    {
      hide PeerReached;
      PeerReachedOn(start, run, View(), PeerTickTock(connected, progress));
      var needDisconnectionEvent := isConnected && !connected;
      var needSyncStoppedEvent := isFullScan && needDisconnectionEvent;
      var needSyncProgressEvent := isConnected && isFullScan && progress;
      isConnected := if needDisconnectionEvent then false else isConnected;
      isFullScan := if needSyncStoppedEvent then false else isFullScan;
      if needSyncProgressEvent { events := events + [SyncProgress]; }
      if needSyncStoppedEvent { events := events + [SyncStopped]; }
      if needDisconnectionEvent { events := events + [Disconnected]; }
      run := run + [PeerTickTock(connected, progress)];
    }

    method TxStatusUpdate(height: nat)
      modifies this
      ensures View() == PeerApply(old(View()), PeerTxStatusUpdate(height))
      ensures run == old(run) + [PeerTxStatusUpdate(height)] && (old(Valid()) ==> Valid())
    {
      hide PeerReached;
      PeerReachedOn(start, run, View(), PeerTxStatusUpdate(height));
      var needBlockHeightEvent := height > networkBlockHeight;
      networkBlockHeight := Max(height, networkBlockHeight);
      if needBlockHeightEvent { events := events + [BlockHeightUpdated(height)]; }
      run := run + [PeerTxStatusUpdate(height)];
    }
  }
}
