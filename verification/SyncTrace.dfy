/** The events a sync manager announces, and the order the wallet manager's event table
    (BRWalletManagerEventTypeIsValidPair) allows them in. */
module SyncTrace {
  datatype Event =
    | Created
    | Connected
    | Disconnected
    | SyncStarted
    | SyncProgress
    | SyncStopped
    | SyncRecommended
    | BlockHeightUpdated(height: nat)

  /** The table of events that may follow each other. */
  predicate IsValidPair(t1: Event, t2: Event) {
    match t1
    case Created => t2.Connected? || t2.BlockHeightUpdated? || t2.SyncRecommended?
    case Connected => t2.Disconnected? || t2.SyncStarted? || t2.BlockHeightUpdated? || t2.SyncRecommended?
    case Disconnected => t2.Connected? || t2.BlockHeightUpdated? || t2.SyncRecommended?
    case SyncStarted => t2.SyncProgress? || t2.SyncStopped? || t2.BlockHeightUpdated? || t2.SyncRecommended?
    case SyncProgress => t2.SyncProgress? || t2.SyncStopped? || t2.BlockHeightUpdated? || t2.SyncRecommended?
    case SyncStopped => t2.Disconnected? || t2.SyncStarted? || t2.BlockHeightUpdated? || t2.SyncRecommended?
    case SyncRecommended => !t2.Created?
    case BlockHeightUpdated(_) => !t2.Created?
  }

  // ---- Sessions ----

  function WithoutHeights(es: seq<Event>): seq<Event> {
    if es == [] then []
    else
      var rest := WithoutHeights(es[..|es| - 1]);
      if es[|es| - 1].BlockHeightUpdated? then rest else rest + [es[|es| - 1]]
  }

  /** `n` completed syncs, one after another. */
  function Syncs(n: nat): seq<Event> {
    if n == 0 then [] else Syncs(n - 1) + [SyncStarted, SyncStopped]
  }

  /** Connections, one after another, with the given numbers of completed syncs in them. */
  function Sessions(ns: seq<nat>): seq<Event> {
    if ns == [] then []
    else Sessions(ns[..|ns| - 1]) + [Connected] + Syncs(ns[|ns| - 1]) + [Disconnected]
  }

  /** Where in a session a trace ends. */
  datatype Phase = Idle | Online | Syncing | Broken

  function Next(p: Phase, e: Event): Phase {
    match (p, e)
    case (_, BlockHeightUpdated(_)) => p
    case (Idle, Connected) => Online
    case (Online, Disconnected) => Idle
    case (Online, SyncStarted) => Syncing
    case (Syncing, SyncStopped) => Online
    case _ => Broken
  }

  function PhaseOf(es: seq<Event>): Phase {
    if es == [] then Idle else Next(PhaseOf(es[..|es| - 1]), es[|es| - 1])
  }

  /** What completes a trace to whole sessions. */
  function Ending(p: Phase): seq<Event> {
    match p
    case Online => [Disconnected]
    case Syncing => [SyncStopped, Disconnected]
    case _ => []
  }

  function Advance(p: Phase, more: seq<Event>): Phase {
    if more == [] then p else Next(Advance(p, more[..|more| - 1]), more[|more| - 1])
  }

  lemma {:induction false} PhaseOfConcat(es: seq<Event>, more: seq<Event>)
    ensures PhaseOf(es + more) == Advance(PhaseOf(es), more)
  {
    if more == [] {
      assert es + more == es;
    } else {
      PhaseOfConcat(es, more[..|more| - 1]);
      assert (es + more)[..|es + more| - 1] == es + more[..|more| - 1];
    }
  }

  lemma {:induction false} SessionStarts(ns: seq<nat>)
    ensures Sessions(ns + [0]) == Sessions(ns) + [Connected, Disconnected]
  {
    assert (ns + [0])[..|ns|] == ns;
  }

  lemma {:induction false} SessionGrows(init: seq<Event>, ns: seq<nat>)
    requires init + [Disconnected] == Sessions(ns)
    ensures ns != []
    ensures init + [SyncStarted, SyncStopped, Disconnected] == Sessions(ns[|ns| - 1 := ns[|ns| - 1] + 1])
  {
    var n := |ns| - 1;
    var before := Sessions(ns[..n]) + [Connected] + Syncs(ns[n]);
    assert Sessions(ns) == before + [Disconnected];
    assert init == Sessions(ns)[..|init|] == before;
    assert ns[n := ns[n] + 1][..n] == ns[..n];
  }

  /** One more event of an unbroken trace. */
  lemma {:induction false} SessionsStep(init: seq<Event>, p: Phase, e: Event, ms: seq<nat>) returns (ns: seq<nat>)
    requires init + Ending(p) == Sessions(ms)
    requires p != Broken && Next(p, e) != Broken && !e.BlockHeightUpdated?
    ensures init + [e] + Ending(Next(p, e)) == Sessions(ns)
  {
    ns := ms;
    if p == Idle {
      SessionStarts(ms);
      ns := ms + [0];
      assert init + [] == init;
      assert init + [e] + [Disconnected] == init + [Connected, Disconnected];
    } else if p == Online && e == SyncStarted {
      SessionGrows(init, ms);
      ns := ms[|ms| - 1 := ms[|ms| - 1] + 1];
      assert init + [e] + [SyncStopped, Disconnected] == init + [SyncStarted, SyncStopped, Disconnected];
    } else if p == Online {
      assert init + [e] + [] == init + [Disconnected];
    } else {
      assert init + [e] + [Disconnected] == init + [SyncStopped, Disconnected];
    }
  }

  /** An unbroken trace is, up to height updates, a prefix of sessions: ending it as its phase
      says gives whole ones. */
  lemma {:induction false} UnbrokenIsSessions(es: seq<Event>) returns (ns: seq<nat>)
    requires PhaseOf(es) != Broken && (forall e :: e in es ==> !e.BlockHeightUpdated?)
    ensures es + Ending(PhaseOf(es)) == Sessions(ns)
  {
    if es == [] {
      ns := [];
    } else {
      var init, e := es[..|es| - 1], es[|es| - 1];
      ns := UnbrokenIsSessions(init);
      ns := SessionsStep(init, PhaseOf(init), e, ns);
      assert es == init + [e];
    }
  }

  lemma {:induction false} WithoutHeightsKeepsPhase(es: seq<Event>)
    ensures PhaseOf(WithoutHeights(es)) == PhaseOf(es)
    ensures forall e :: e in WithoutHeights(es) ==> !e.BlockHeightUpdated?
  {
    if es != [] {
      WithoutHeightsKeepsPhase(es[..|es| - 1]);
      var rest, e := WithoutHeights(es[..|es| - 1]), es[|es| - 1];
      assert (rest + [e])[..|rest|] == rest;
    }
  }

  /** The events of an unbroken trace follow each other as the table allows. */
  lemma {:induction false} UnbrokenPairsAreValid(es: seq<Event>)
    requires PhaseOf(es) != Broken
    ensures forall i :: 0 <= i < |es| ==> IsValidPair(([Created] + es)[i], es[i])
    ensures es != [] && !es[|es| - 1].BlockHeightUpdated? ==>
              PhaseOf(es) == match es[|es| - 1]
                             case Connected => Online
                             case SyncStopped => Online
                             case SyncStarted => Syncing
                             case _ => Idle
  {
    if es != [] {
      var n := |es| - 1;
      UnbrokenPairsAreValid(es[..n]);
      forall i | 0 <= i < |es|
        ensures IsValidPair(([Created] + es)[i], es[i])
      {
        if i < n {
          assert es[..n][i] == es[i] && ([Created] + es[..n])[i] == ([Created] + es)[i];
        } else if n > 0 {
          assert es[..n][n - 1] == es[n - 1];
        }
      }
    }
  }

  predicate PairsAreValid(es: seq<Event>) {
    forall i :: 0 <= i < |es| ==> IsValidPair(([Created] + es)[i], es[i])
  }

  /** The events of connections and whole syncs. */
  predicate IsSessionEvent(e: Event) {
    e.Connected? || e.Disconnected? || e.SyncStarted? || e.SyncStopped?
  }

  /** The table is no more generous than sessions: a trace of connections and syncs alone, in
      which all adjacent events are valid pairs, is unbroken. */
  lemma {:induction false} ValidPairsAreUnbroken(es: seq<Event>)
    requires forall e :: e in es ==> IsSessionEvent(e)
    ensures PairsAreValid(es) <==> PhaseOf(es) != Broken
  {
    if PhaseOf(es) != Broken {
      UnbrokenPairsAreValid(es);
    }
    if PairsAreValid(es) {
      PairsLead(es);
    }
  }

  lemma {:induction false} PairsLead(es: seq<Event>)
    requires PairsAreValid(es) && forall e :: e in es ==> IsSessionEvent(e)
    ensures PhaseOf(es) == if es == [] then Idle else match es[|es| - 1]
                           case Connected => Online
                           case SyncStopped => Online
                           case SyncStarted => Syncing
                           case _ => Idle
  {
    if es != [] {
      var n := |es| - 1;
      forall i | 0 <= i < n
        ensures IsValidPair(([Created] + es[..n])[i], es[..n][i])
      {
        assert ([Created] + es[..n])[i] == ([Created] + es)[i];
        assert IsValidPair(([Created] + es)[i], es[i]);
      }
      PairsLead(es[..n]);
      assert IsValidPair(([Created] + es)[n], es[n]);
      if n > 0 {
        assert ([Created] + es)[n] == es[n - 1] == es[..n][n - 1] && es[n - 1] in es;
      }
      assert es[n] in es;
    }
  }

  /** Progress is announced only after the start of a sync or more progress, and followed only by
      more progress or the end, height updates and recommendations aside. */
  lemma {:induction false} ProgressIsWithin(e: Event)
    ensures IsValidPair(e, SyncProgress) ==> e.SyncStarted? || (!IsSessionEvent(e) && !e.Created?)
    ensures IsValidPair(SyncProgress, e) && IsSessionEvent(e) ==> e.SyncStopped?
    ensures !IsValidPair(e, Created)
  {
  }
}
