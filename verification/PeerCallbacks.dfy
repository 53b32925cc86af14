/**
 * The completion callbacks of a peer: pings and the mempool request, the pongs
 * that answer them, the hand-off of the mempool callback to a ping, and the
 * drain when the connection ends. Each step is one uninterrupted piece of the
 * source; callbacks are names.
 */
module PeerCallbacks {
  import opened Wrappers

  type Callback = nat

  datatype Phase = Connected | Draining | Ended

  datatype Call = Call(callback: Callback, success: bool)

  /**
   * `pongs` is the queue of callbacks that wait for a pong, missing ones
   * included; `timed` that a time is set at which to stop waiting for the mempool.
   */
  datatype State = State(phase: Phase, pongs: seq<Option<Callback>>, mempool: Option<Callback>, sentMempool: bool, timed: bool)

  datatype Step =
    | SendPing(cb: Option<Callback>)
    | SendMempool(cb: Option<Callback>)
    | SendFilterload
    | AcceptInv(hasTx: bool)          // an inventory that is accepted
    | MempoolTimeout                  // the time to stop waiting has come
    | AcceptPong(genuine: bool)       // a pong, of the right length and with the right nonce or not
    | Disconnect                      // the read loop has ended
    | DrainOne                        // one turn of the drain
    | Finish                          // the queue is empty: the mempool callback is next
    | Connect

  function WaitForPong(s: State, cb: Option<Callback>): State {
    s.(pongs := s.pongs + [cb])
  }

  /** The mempool callback becomes the callback of a ping. */
  function HandOff(s: State): State {
    WaitForPong(s, s.mempool).(mempool := None, timed := false)
  }

  predicate Enabled(s: State, step: Step) {
    match step
    case SendPing(_) => true
    case SendMempool(_) => true
    case SendFilterload => true
    case AcceptInv(_) => s.phase.Connected?
    case MempoolTimeout => s.phase.Connected? && s.timed
    case AcceptPong(_) => s.phase.Connected?
    case Disconnect => s.phase.Connected?
    case DrainOne => s.phase.Draining? && s.pongs != []
    case Finish => s.phase.Draining? && s.pongs == []
    case Connect => s.phase.Ended?
  }

  function Next(s: State, step: Step): State {
    match step
    case SendPing(cb) => WaitForPong(s, cb)
    case SendMempool(cb) =>
      if !s.sentMempool && s.mempool.None? then
        s.(sentMempool := true, mempool := cb, timed := s.timed || cb.Some?)
      else s.(sentMempool := true)
    case SendFilterload => s.(sentMempool := false)
    case AcceptInv(hasTx) => if hasTx && s.mempool.Some? then HandOff(s) else s
    case MempoolTimeout => HandOff(s)
    case AcceptPong(genuine) => if genuine && s.pongs != [] then s.(pongs := s.pongs[1..]) else s
    case Disconnect => s.(phase := Draining)
    case DrainOne => if s.pongs != [] then s.(pongs := s.pongs[1..]) else s
    case Finish => s.(phase := Ended, mempool := None)
    case Connect => s.(phase := Connected)
  }

  function Called(cb: Option<Callback>, success: bool): seq<Call> {
    match cb case Some(c) => [Call(c, success)] case None => []
  }

  /** The callbacks a step invokes. */
  function Calls(s: State, step: Step): seq<Call> {
    match step
    case SendMempool(cb) => if !s.sentMempool && s.mempool.None? then [] else Called(cb, false)
    case AcceptPong(genuine) => if genuine && s.pongs != [] then Called(s.pongs[0], true) else []
    case DrainOne => if s.pongs != [] then Called(s.pongs[0], false) else []
    case Finish => Called(s.mempool, false)
    case _ => []
  }

  // --------------------------------------------------------------- whole runs

  predicate IsRun(s: State, run: seq<Step>) {
    |run| == 0 || (IsRun(s, run[..|run| - 1]) && Enabled(After(s, run[..|run| - 1]), run[|run| - 1]))
  }

  function After(s: State, run: seq<Step>): State {
    if |run| == 0 then s else Next(After(s, run[..|run| - 1]), run[|run| - 1])
  }

  function AllCalls(s: State, run: seq<Step>): seq<Call> {
    if |run| == 0 then []
    else AllCalls(s, run[..|run| - 1]) + Calls(After(s, run[..|run| - 1]), run[|run| - 1])
  }

  const START: State := State(Connected, [], None, false, false)

  function Named(cb: Option<Callback>): multiset<Callback> {
    match cb case Some(c) => multiset{c} case None => multiset{}
  }

  function Waiting(pongs: seq<Option<Callback>>): multiset<Callback> {
    if |pongs| == 0 then multiset{} else Waiting(pongs[..|pongs| - 1]) + Named(pongs[|pongs| - 1])
  }

  /** The callbacks that were given to a step. */
  function GivenBy(step: Step): multiset<Callback> {
    match step
    case SendPing(cb) => Named(cb)
    case SendMempool(cb) => Named(cb)
    case _ => multiset{}
  }

  function Given(run: seq<Step>): multiset<Callback> {
    if |run| == 0 then multiset{} else Given(run[..|run| - 1]) + GivenBy(run[|run| - 1])
  }

  function Invoked(calls: seq<Call>): multiset<Callback> {
    if |calls| == 0 then multiset{} else Invoked(calls[..|calls| - 1]) + multiset{calls[|calls| - 1].callback}
  }

  lemma {:induction false} InvokedJoin(a: seq<Call>, b: seq<Call>)
    ensures Invoked(a + b) == Invoked(a) + Invoked(b)
    decreases |b|
  {
    if |b| == 0 {
      assert a + b == a;
    } else {
      assert (a + b)[..|a + b| - 1] == a + b[..|b| - 1];
      InvokedJoin(a, b[..|b| - 1]);
    }
  }

  lemma {:induction false} InvokedOne(cb: Option<Callback>, success: bool)
    ensures Invoked(Called(cb, success)) == Named(cb)
  {
    if cb.Some? {
      assert Called(cb, success)[..0] == [];
    }
  }

  lemma {:induction false} WaitingGrows(pongs: seq<Option<Callback>>, cb: Option<Callback>)
    ensures Waiting(pongs + [cb]) == Waiting(pongs) + Named(cb)
  {
    assert (pongs + [cb])[..|pongs|] == pongs;
  }

  lemma {:induction false} WaitingShrinks(pongs: seq<Option<Callback>>)
    requires |pongs| > 0
    ensures Waiting(pongs) == Named(pongs[0]) + Waiting(pongs[1..])
    decreases |pongs|
  {
    hide Named;
    var n := |pongs| - 1;
    if n > 0 {
      WaitingShrinks(pongs[..n]);
      assert pongs[..n][1..] == pongs[1..][..n - 1] && pongs[1..][n - 1] == pongs[n];
    } else {
      assert pongs[..0] == [] && pongs[1..] == [];
    }
  }

  /** What a callback owes: it waits in the queue or as the mempool callback. */
  function Owed(s: State): multiset<Callback> {
    Waiting(s.pongs) + Named(s.mempool)
  }

  lemma {:induction false} PushConserves(s: State, cb: Option<Callback>)
    ensures Owed(WaitForPong(s, cb)) == Owed(s) + Named(cb)
  {
    WaitingGrows(s.pongs, cb);
  }

  lemma {:induction false} HandOffConserves(s: State)
    ensures Owed(HandOff(s)) == Owed(s)
  {
    WaitingGrows(s.pongs, s.mempool);
  }

  lemma {:induction false} PopConserves(s: State, success: bool)
    requires s.pongs != []
    ensures Owed(s) == Owed(s.(pongs := s.pongs[1..])) + Invoked(Called(s.pongs[0], success))
  {
    WaitingShrinks(s.pongs);
    InvokedOne(s.pongs[0], success);
  }

  /** One step neither loses nor doubles a callback. */
  lemma {:induction false} StepConserves(s: State, step: Step)
    requires Enabled(s, step)
    ensures Owed(s) + GivenBy(step) == Owed(Next(s, step)) + Invoked(Calls(s, step))
  {
    hide Waiting;
    hide Invoked;
    hide WaitForPong;
    NoneInvoked();
    match step
    case SendPing(cb) => PushConserves(s, cb);
    case SendMempool(cb) => InvokedOne(cb, false);
    case SendFilterload =>
    case AcceptInv(_) => HandOffConserves(s);
    case MempoolTimeout => HandOffConserves(s);
    case AcceptPong(_) => if s.pongs != [] { PopConserves(s, true); }
    case Disconnect =>
    case DrainOne => PopConserves(s, false);
    case Finish => InvokedOne(s.mempool, false);
    case Connect =>
  }

  lemma {:induction false} NoneInvoked()
    ensures Invoked([]) == multiset{}
  {
  }

  lemma {:induction false} RunParts(s: State, run: seq<Step>, step: Step)
    requires IsRun(s, run + [step])
    ensures IsRun(s, run) && Enabled(After(s, run), step)
    ensures After(s, run + [step]) == Next(After(s, run), step)
    ensures AllCalls(s, run + [step]) == AllCalls(s, run) + Calls(After(s, run), step)
    ensures Given(run + [step]) == Given(run) + GivenBy(step)
  {
    hide Next;
    hide Calls;
    hide GivenBy;
    assert (run + [step])[..|run|] == run;
  }

  lemma {:induction false} Sums(a: multiset<Callback>, b: multiset<Callback>, c: multiset<Callback>, d: multiset<Callback>,
                                e: multiset<Callback>, f: multiset<Callback>)
    requires a == b + c && b + d == e + f
    ensures a + d == e + (c + f)
  {
    forall x
      ensures (a + d)[x] == (e + (c + f))[x]
    {
      assert a[x] == (b + c)[x] && (b + d)[x] == (e + f)[x];
    }
  }

  /** At every point of every run, each given callback was invoked once or still waits once. */
  lemma {:induction false} RunConserves(run: seq<Step>)
    requires IsRun(START, run)
    ensures Given(run) == Owed(After(START, run)) + Invoked(AllCalls(START, run))
    decreases |run|
  {
    hide *;
    if |run| > 0 {
      var before, step := run[..|run| - 1], run[|run| - 1];
      assert run == before + [step];
      RunParts(START, before, step);
      RunConserves(before);
      var s := After(START, before);
      StepConserves(s, step);
      InvokedJoin(AllCalls(START, before), Calls(s, step));
      Sums(Given(before), Owed(s), Invoked(AllCalls(START, before)), GivenBy(step),
           Owed(Next(s, step)), Invoked(Calls(s, step)));
    } else {
      NothingOwed(run);
    }
  }

  lemma {:induction false} NothingOwed(run: seq<Step>)
    requires |run| == 0
    ensures Given(run) == Owed(After(START, run)) + Invoked(AllCalls(START, run))
  {
  }

  /** When a connection has ended, every callback given so far was invoked exactly once. */
  lemma {:induction false} ExactlyOnce(run: seq<Step>)
    requires IsRun(START, run) && |run| > 0 && run[|run| - 1].Finish?
    ensures Given(run) == Invoked(AllCalls(START, run))
    ensures After(START, run).pongs == [] && After(START, run).mempool.None?
  {
    RunConserves(run);
  }

  // ------------------------------------------------------------ first in, first out

  /** What a step puts at the end of the queue. */
  function Pushed(s: State, step: Step): seq<Option<Callback>> {
    match step
    case SendPing(cb) => [cb]
    case AcceptInv(hasTx) => if hasTx && s.mempool.Some? then [s.mempool] else []
    case MempoolTimeout => [s.mempool]
    case _ => []
  }

  function AllPushed(s: State, run: seq<Step>): seq<Option<Callback>> {
    if |run| == 0 then []
    else AllPushed(s, run[..|run| - 1]) + Pushed(After(s, run[..|run| - 1]), run[|run| - 1])
  }

  /** How many callbacks, missing ones included, a step takes from the front of the queue. */
  function Popped(s: State, step: Step): nat {
    if s.pongs == [] then 0
    else match step
      case AcceptPong(genuine) => if genuine then 1 else 0
      case DrainOne => 1
      case _ => 0
  }

  function AllPopped(s: State, run: seq<Step>): nat {
    if |run| == 0 then 0
    else AllPopped(s, run[..|run| - 1]) + Popped(After(s, run[..|run| - 1]), run[|run| - 1])
  }

  lemma {:induction false} QueueStep(s: State, step: Step)
    requires Enabled(s, step)
    ensures Popped(s, step) <= |s.pongs|
    ensures Next(s, step).pongs == s.pongs[Popped(s, step)..] + Pushed(s, step)
  {
  }

  lemma {:induction false} TailMoves<T>(all: seq<T>, n: nat, p: nat, more: seq<T>)
    requires n + p <= |all|
    ensures (all + more)[n + p..] == all[n..][p..] + more
  {
  }

  /** The queue is what was pushed and not yet popped, in order. */
  lemma {:induction false} QueueIsTail(run: seq<Step>)
    requires IsRun(START, run)
    ensures AllPopped(START, run) <= |AllPushed(START, run)|
    ensures After(START, run).pongs == AllPushed(START, run)[AllPopped(START, run)..]
    decreases |run|
  {
    hide Next;
    hide Enabled;
    hide Pushed;
    hide Popped;
    if |run| > 0 {
      var before, step := run[..|run| - 1], run[|run| - 1];
      QueueIsTail(before);
      var s := After(START, before);
      var pushed, n := AllPushed(START, before), AllPopped(START, before);
      QueueStep(s, step);
      TailMoves(pushed, n, Popped(s, step), Pushed(s, step));
    }
  }

  /**
   * The n-th pong that is accepted completes the n-th ping that was sent, be it
   * a ping of the caller or one that took over a mempool callback: with success
   * on a pong, without in the drain.
   */
  lemma {:induction false} PongsInOrder(run: seq<Step>, step: Step)
    requires IsRun(START, run + [step])
    requires var s := After(START, run); s.pongs != [] && (step.DrainOne? || step == AcceptPong(true))
    ensures var n := AllPopped(START, run);
      && n < |AllPushed(START, run)|
      && Calls(After(START, run), step) == Called(AllPushed(START, run)[n], step.AcceptPong?)
      && AllPopped(START, run + [step]) == n + 1
  {
    assert (run + [step])[..|run|] == run;
    QueueIsTail(run);
  }

  // --------------------------------------------------- the mempool request

  /** Since the last time a filter was loaded, the mempool was asked for. */
  predicate AskedSinceFilter(run: seq<Step>) {
    |run| > 0 && (run[|run| - 1].SendMempool? || (!run[|run| - 1].SendFilterload? && AskedSinceFilter(run[..|run| - 1])))
  }

  lemma {:induction false} SentIsAsked(run: seq<Step>)
    ensures After(START, run).sentMempool <==> AskedSinceFilter(run)
  {
    if |run| > 0 {
      SentIsAsked(run[..|run| - 1]);
    }
  }

  /** A request for the mempool is accepted exactly if none was made since the last filter and no
      callback of one waits; otherwise its callback fails at once. */
  lemma {:induction false} MempoolIsAskedOnce(run: seq<Step>, cb: Option<Callback>)
    ensures var s, step := After(START, run), Step.SendMempool(cb);
      if !AskedSinceFilter(run) && s.mempool.None?
      then Next(s, step).mempool == cb && Calls(s, step) == []
      else Next(s, step).mempool == s.mempool && Calls(s, step) == if cb.Some? then [Call(cb.value, false)] else []
  {
    SentIsAsked(run);
    hide After;
    hide AskedSinceFilter;
  }

  /** As long as a callback waits for the mempool a time is set at which that ends; then, or at the
      first inventory, it goes behind the pings that wait, and the time is cleared. */
  lemma {:induction false} MempoolWaitsInTime(run: seq<Step>)
    requires IsRun(START, run)
    ensures var s := After(START, run);
      && (s.mempool.Some? ==> s.timed)
      && (forall step :: (step == MempoolTimeout || (step == AcceptInv(true) && s.mempool.Some?)) ==>
            Next(s, step).pongs == s.pongs + [s.mempool] && Next(s, step).mempool.None? && !Next(s, step).timed)
      && Next(s, AcceptInv(false)) == s && (s.mempool.None? ==> Next(s, AcceptInv(true)) == s)
  {
    if |run| > 0 {
      MempoolWaitsInTime(run[..|run| - 1]);
    }
  }

  /** A callback is told success exactly for its pong. */
  lemma {:induction false} SuccessIsAPong(s: State, step: Step)
    ensures forall c :: c in Calls(s, step) ==> (c.success <==> step.AcceptPong?)
    ensures step == AcceptPong(true) && s.pongs != [] && s.pongs[0].Some? ==> Calls(s, step) == [Call(s.pongs[0].value, true)]
    ensures step == AcceptPong(false) ==> Calls(s, step) == [] && Next(s, step) == s
  {
  }

  // ------------------------------------------------------------ the procedures

  /** The state and the invoked callbacks after a run from the beginning. */
  ghost predicate Reached(run: seq<Step>, s: State, calls: seq<Call>) {
    IsRun(START, run) && s == After(START, run) && calls == AllCalls(START, run)
  }

  lemma {:induction false} ReachedOn(run: seq<Step>, s: State, calls: seq<Call>, step: Step)
    ensures Reached(run, s, calls) && Enabled(s, step) ==> Reached(run + [step], Next(s, step), calls + Calls(s, step))
    ensures Calls(s, step) == [] ==> calls + Calls(s, step) == calls
  {
    hide Next;
    hide Calls;
    hide Enabled;
    if Reached(run, s, calls) && Enabled(s, step) {
      RunGrows(START, run, step);
    }
  }

  lemma {:induction false} RunContinues(run: seq<Step>, s: State, calls: seq<Call>, more: seq<Step>)
    requires IsRun(s, more)
    ensures Reached(run, s, calls) ==> Reached(run + more, After(s, more), calls + AllCalls(s, more))
    decreases |more|
  {
    if more == [] {
      assert run + more == run && calls + AllCalls(s, more) == calls;
    } else {
      var before, step := more[..|more| - 1], more[|more| - 1];
      assert more == before + [step] && run + more == run + before + [step];
      RunContinues(run, s, calls, before);
      ReachedOn(run + before, After(s, before), calls + AllCalls(s, before), step);
      assert calls + AllCalls(s, before) + Calls(After(s, before), step) == calls + AllCalls(s, more);
    }
  }

  /** Whatever was called on a peer, each callback given was invoked once or still waits; when
      its connection has ended, all were. */
  lemma {:induction false} PeerKeepsCallbacks(p: Peer)
    requires p.Valid()
    ensures Given(p.run) == Owed(p.View()) + Invoked(p.calls)
    ensures |p.run| > 0 && p.run[|p.run| - 1].Finish? ==> Given(p.run) == Invoked(p.calls)
  {
    RunConserves(p.run);
    if |p.run| > 0 && p.run[|p.run| - 1].Finish? {
      ExactlyOnce(p.run);
    }
  }

  class Peer {
    var phase: Phase
    var pongCallback: seq<Option<Callback>>
    var mempoolCallback: Option<Callback>
    var sentMempool: bool
    var timed: bool
    var calls: seq<Call>  // the callbacks invoked so far
    ghost var run: seq<Step>  // the steps so far

    /** The peer is where its steps lead from the beginning, and invoked what they invoke. */
    ghost predicate Valid()
      reads this
    {
      Reached(run, View(), calls)
    }

    function View(): State
      reads this
    {
      State(phase, pongCallback, mempoolCallback, sentMempool, timed)
    }

    constructor ()
      ensures View() == START && calls == [] && run == [] && Valid()
    {
      run := [];
      phase, pongCallback, mempoolCallback, sentMempool, timed, calls := Connected, [], None, false, false, [];
    }

    method Invoke(cb: Option<Callback>, success: bool)
      modifies this`calls
      ensures calls == old(calls) + Called(cb, success)
    {
      if cb.Some? {
        calls := calls + [Call(cb.value, success)];
      }
    }

    /** The callback of a ping waits for the pong. */
    method PushPing(cb: Option<Callback>)
      modifies this`pongCallback
      ensures View() == WaitForPong(old(View()), cb)
    {
      pongCallback := pongCallback + [cb];
    }

    /** BRPeerSendPing */
    method SendPing(cb: Option<Callback>)
      modifies this`pongCallback, this`run
      ensures View() == Next(old(View()), Step.SendPing(cb))
      ensures run == old(run) + [Step.SendPing(cb)] && (old(Valid() && Enabled(View(), Step.SendPing(cb))) ==> Valid())
    {
      hide Reached;
      ReachedOn(run, View(), calls, Step.SendPing(cb));
      PushPing(cb);
      run := run + [Step.SendPing(cb)];
    }

    /** BRPeerSendMempool */
    method SendMempool(cb: Option<Callback>)
      modifies this`sentMempool, this`mempoolCallback, this`timed, this`calls, this`run
      ensures View() == Next(old(View()), Step.SendMempool(cb))
      ensures calls == old(calls) + Calls(old(View()), Step.SendMempool(cb))
      ensures run == old(run) + [Step.SendMempool(cb)] && (old(Valid() && Enabled(View(), Step.SendMempool(cb))) ==> Valid())
    {
      hide Reached;
      ReachedOn(run, View(), calls, Step.SendMempool(cb));
      var sent := sentMempool;
      sentMempool := true;
      if !sent && mempoolCallback.None? {
        if cb.Some? {
          timed := true;
          mempoolCallback := cb;
        }
      } else {
        Invoke(cb, false);
      }
      run := run + [Step.SendMempool(cb)];
    }

    /** The hand-off of the mempool callback, on a first inventory or when its time has come. */
    method HandOffMempool()
      modifies this`pongCallback, this`mempoolCallback, this`timed
      ensures View() == HandOff(old(View()))
    {
      PushPing(mempoolCallback);
      mempoolCallback := None;
      timed := false;
    }

    /** The time to stop waiting for the mempool has come. */
    method TimeMempoolOut()
      modifies this`pongCallback, this`mempoolCallback, this`timed, this`run
      ensures View() == Next(old(View()), MempoolTimeout)
      ensures run == old(run) + [MempoolTimeout] && (old(Valid() && Enabled(View(), MempoolTimeout)) ==> Valid())
    {
      hide Reached;
      ReachedOn(run, View(), calls, MempoolTimeout);
      HandOffMempool();
      run := run + [MempoolTimeout];
    }

    /** BRPeerSendFilterload: the mempool may be asked for again. */
    method SendFilterload()
      modifies this`sentMempool, this`run
      ensures View() == Next(old(View()), Step.SendFilterload)
      ensures run == old(run) + [Step.SendFilterload] && (old(Valid() && Enabled(View(), Step.SendFilterload)) ==> Valid())
    {
      hide Reached;
      ReachedOn(run, View(), calls, Step.SendFilterload);
      sentMempool := false;
      run := run + [Step.SendFilterload];
    }

    /** A connection after one that ended. */
    method Reconnect()
      modifies this`phase, this`run
      ensures View() == Next(old(View()), Connect)
      ensures run == old(run) + [Connect] && (old(Valid() && Enabled(View(), Connect)) ==> Valid())
    {
      hide Reached;
      ReachedOn(run, View(), calls, Connect);
      phase := Connected;
      run := run + [Connect];
    }

    method AcceptInv(hasTx: bool)
      modifies this`pongCallback, this`mempoolCallback, this`timed, this`run
      ensures View() == Next(old(View()), Step.AcceptInv(hasTx))
      ensures run == old(run) + [Step.AcceptInv(hasTx)] && (old(Valid() && Enabled(View(), Step.AcceptInv(hasTx))) ==> Valid())
    {
      hide Reached;
      ReachedOn(run, View(), calls, Step.AcceptInv(hasTx));
      if hasTx && mempoolCallback.Some? {
        HandOffMempool();
      }
      run := run + [Step.AcceptInv(hasTx)];
    }

    /** `_BRPeerAcceptPongMessage` */
    method AcceptPong(genuine: bool) returns (r: bool)
      modifies this`pongCallback, this`calls, this`run
      ensures View() == Next(old(View()), Step.AcceptPong(genuine))
      ensures calls == old(calls) + Calls(old(View()), Step.AcceptPong(genuine))
      ensures r <==> genuine && old(pongCallback) != []
      ensures run == old(run) + [Step.AcceptPong(genuine)] && (old(Valid() && Enabled(View(), Step.AcceptPong(genuine))) ==> Valid())
    {
      hide Reached;
      ReachedOn(run, View(), calls, Step.AcceptPong(genuine));
      r := genuine && |pongCallback| > 0;
      if r {
        var cb := pongCallback[0];
        pongCallback := pongCallback[1..];
        Invoke(cb, true);
      }
      run := run + [Step.AcceptPong(genuine)];
    }

    /**
     * The end of the connection thread: every waiting callback is told that it
     * failed, in order, and the mempool callback last.
     */
    method EndConnection() returns (ghost drained: seq<Step>)
      requires phase == Connected
      modifies this`phase, this`pongCallback, this`mempoolCallback, this`calls, this`run
      ensures drained == [Disconnect] + Drains(|old(pongCallback)|) + [Finish]
      ensures IsRun(old(View()), drained) && View() == After(old(View()), drained)
      ensures calls == old(calls) + AllCalls(old(View()), drained)
      ensures run == old(run) + drained && (old(Valid()) ==> Valid())
    {
      hide Reached;
      hide IsRun;
      hide After;
      hide AllCalls;
      hide Drains;
      ghost var was, called := View(), calls;
      drained := Drain();
      RunContinues(run, was, called, drained);
      run := run + drained;
    }

    method Drain() returns (ghost drained: seq<Step>)
      requires phase == Connected
      modifies this`phase, this`pongCallback, this`mempoolCallback, this`calls
      ensures drained == [Disconnect] + Drains(|old(pongCallback)|) + [Finish]
      ensures IsRun(old(View()), drained) && View() == After(old(View()), drained)
      ensures calls == old(calls) + AllCalls(old(View()), drained)
    {
      hide IsRun;
      hide After;
      hide AllCalls;
      ghost var was, called := View(), calls;
      phase := Draining;
      drained := [Disconnect];
      OneStep(was, Disconnect);
      ghost var k := 0;
      assert [Disconnect] + Drains(0) == [Disconnect];
      while |pongCallback| > 0
        invariant phase == Draining && k + |pongCallback| == |was.pongs| && drained == [Disconnect] + Drains(k)
        invariant IsRun(was, drained) && View() == After(was, drained) && calls == called + AllCalls(was, drained)
        decreases |pongCallback|
      {
        RunGrows(was, drained, DrainOne);
        assert [Disconnect] + Drains(k) + [DrainOne] == [Disconnect] + Drains(k + 1);
        var cb := pongCallback[0];
        pongCallback := pongCallback[1..];
        Invoke(cb, false);
        drained, k := drained + [DrainOne], k + 1;
      }
      RunGrows(was, drained, Finish);
      assert View().pongs == [];
      Invoke(mempoolCallback, false);
      mempoolCallback, phase := None, Ended;
      drained := drained + [Finish];
    }
  }

  function Drains(n: nat): (run: seq<Step>)
    ensures |run| == n
  {
    if n == 0 then [] else Drains(n - 1) + [DrainOne]
  }

  lemma {:induction false} RunGrows(s: State, run: seq<Step>, step: Step)
    requires IsRun(s, run) && Enabled(After(s, run), step)
    ensures IsRun(s, run + [step]) && After(s, run + [step]) == Next(After(s, run), step)
    ensures AllCalls(s, run + [step]) == AllCalls(s, run) + Calls(After(s, run), step)
  {
    assert (run + [step])[..|run|] == run;
  }

  lemma {:induction false} OneStep(s: State, step: Step)
    requires Enabled(s, step)
    ensures IsRun(s, [step]) && After(s, [step]) == Next(s, step) && AllCalls(s, [step]) == Calls(s, step)
  {
    RunGrows(s, [], step);
    assert [] + [step] == [step];
  }
}
