/** What holds in every admissible run of the protocol, cancelled and restarted at will unless said. */
module ProtocolTheorems {
  import opened Common
  import opened Protocol
  import opened ProtocolLedger
  import opened ProtocolInvariant
  import opened ProtocolSafety

  predicate Holds(x: Worker, i: nat) {
    (x.Requesting? || x.AwaitingPeer? || x.Downloading? || x.HandingOver?) && x.piece == i
  }

  /** A selected index is in one place: a job channel, a dispatcher, a worker of some run, or handed over. */
  lemma ExactlyOnePlace(c: Config, steps: seq<Step>, i: nat)
    requires Admissible(c, steps)
    ensures var s := Execute(c, steps);
            RunsBear(s.runs, Held(i)) + multiset(s.handed)[i] == (if i < s.lastSelected then 1 else 0)
    ensures Execute(c, steps).lastSelected <= c.nPiece
  {
    InvAlways(c, steps);
  }

  lemma NoTwoHolders(c: Config, steps: seq<Step>, i: nat, r: nat, w: nat, k: nat, v: nat)
    requires Admissible(c, steps)
    requires var s := Execute(c, steps); HasWorker(s, r, w) && HasWorker(s, k, v)
    requires var s := Execute(c, steps); Holds(s.runs[r].workers[w], i) && Holds(s.runs[k].workers[v], i)
    ensures r == k && w == v && i !in Execute(c, steps).handed && i < c.nPiece
  {
    var s := Execute(c, steps);
    InvAlways(c, steps);
    WorkersBearOne(s.runs[r].workers, w, Held(i));
    RunsBearOne(s.runs, r, Held(i));
    if r != k || w != v {
      var t := SetWorker(s, r, w, Unstarted);
      SetWorkerBears(s, r, w, Unstarted, Held(i));
      WorkersBearOne(t.runs[k].workers, v, Held(i));
      RunsBearOne(t.runs, k, Held(i));
    }
  }

  /** Queued jobs and the dispatcher's pending one are matched by workers that wait or left on cancellation;
      so the channel of capacity nWorker has room whenever the dispatcher sends. */
  lemma SendNeverBlocks(c: Config, steps: seq<Step>, r: nat)
    requires Admissible(c, steps) && HasRun(Execute(c, steps), r)
    ensures var run := Execute(c, steps).runs[r];
            |run.jobs| + Pending(run.dispatcher) == WorkersBear(run.workers, Seat) <= c.nWorker
    ensures Execute(c, steps).runs[r].dispatcher.Sending? ==> Enabled(c, Execute(c, steps), ByRun(r, Send))
  {
    InvAlways(c, steps);
    assert RunOK(c, Execute(c, steps).runs[r]);
    WorkersBearBound(Execute(c, steps).runs[r].workers, Seat);
  }

  /** IsFree counts the grants not yet released, and stays in 0..3 although the test is `==`. */
  lemma SlotConservation(c: Config, steps: seq<Step>, p: nat)
    requires Admissible(c, steps) && p in c.peers
    ensures var s := Execute(c, steps);
            p in s.isFree && s.isFree[p] == RunsBear(s.runs, Slot(p)) && 0 <= s.isFree[p] <= 3
  {
    InvAlways(c, steps);
  }

  /** While the selector of a lone run is parked, no peer is available for its piece unless some worker is
      between its slot decrement and its locked Signal. */
  lemma NoLostWakeUp(c: Config, steps: seq<Step>, p: nat)
    requires Admissible(c, steps) && p in c.peers
    requires var s := Execute(c, steps); |s.runs| == 1 && s.runs[0].selector.Parked?
    ensures var s := Execute(c, steps);
            Available(c, s, p, s.runs[0].selector.request.piece)
            ==> exists w :: 0 <= w < |s.runs[0].workers| && s.runs[0].workers[w].Released?
  {
    InvAlways(c, steps);
  }

  /** A parked lone selector has a reason: unless a worker still owes its Signal, each peer that offers the piece
      has all three of its slots taken. */
  lemma ParkedMeansAllTaken(c: Config, steps: seq<Step>, p: nat)
    requires Admissible(c, steps) && p in c.peers
    requires var s := Execute(c, steps); |s.runs| == 1 && s.runs[0].selector.Parked?
    requires var run := Execute(c, steps).runs[0];
             (p, run.selector.request.piece) in c.offers
             && forall w :: 0 <= w < |run.workers| ==> !run.workers[w].Released?
    ensures RunsBear(Execute(c, steps).runs, Slot(p)) == 3
  {
    InvAlways(c, steps);
    var s := Execute(c, steps);
    assert !Available(c, s, p, s.runs[0].selector.request.piece);
  }

  /** A peer is granted only while it offers the piece and has a slot left. */
  lemma GrantedHadSlot(c: Config, steps: seq<Step>, r: nat)
    requires Admissible(c, steps) && Enabled(c, Execute(c, steps), BySelector(r, Grant))
    ensures var s := Execute(c, steps);
            var x := s.runs[r].selector;
            x.peer in c.peers && (x.peer, x.request.piece) in c.offers && RunsBear(s.runs, Slot(x.peer)) < 3
  {
    InvAlways(c, steps);
    assert SelectorOK(c, Execute(c, steps), r);
  }

  /** The goroutine that holds the alert mutex can always go on: a grant always finds its worker waiting. */
  lemma LockHolderCanStep(c: Config, steps: seq<Step>)
    requires Admissible(c, steps) && Execute(c, steps).lock.Some?
    ensures var s := Execute(c, steps);
            exists act :: Enabled(c, s, BySelector(s.lock.value, act)) && !act.StrayAlert? && !act.StopSelector?
  {
    InvAlways(c, steps);
    var s := Execute(c, steps);
    var r := s.lock.value;
    assert SelectorOK(c, s, r);
    var x := s.runs[r].selector;
    if x.Scanning? {
      if x.todo == {} {
        assert Enabled(c, s, BySelector(r, Park));
      } else {
        var p :| p in x.todo;
        assert Enabled(c, s, BySelector(r, Test(p)));
      }
    } else if x.Found? {
      assert Enabled(c, s, BySelector(r, Grant));
    } else {
      assert Enabled(c, s, BySelector(r, Respond));
    }
  }

  /** With one uncancelled run, a wait count of zero after the last selection means that every piece was
      handed over exactly once, although a count of zero may also come early. */
  lemma CompletionSafety(c: Config, steps: seq<Step>)
    requires Admissible(c, steps)
    requires var s := Execute(c, steps);
             |s.runs| == 1 && !s.runs[0].cancelled && s.totalSelected >= c.nPiece && s.runs[0].waitCount == 0
    ensures forall i: nat :: multiset(Execute(c, steps).handed)[i] == (if i < c.nPiece then 1 else 0)
    ensures var run := Execute(c, steps).runs[0];
            run.jobs == [] && !run.dispatcher.Sending?
            && forall w, i: nat :: 0 <= w < |run.workers| ==> !Holds(run.workers[w], i)
  {
    InvAlways(c, steps);
    NothingHeldAtRest(c, Execute(c, steps));
  }

  predicate Posted(s: State) {
    |s.runs| == 1 && s.runs[0].waiter == Over(true)
  }

  lemma PostedMeansHanded(c: Config, steps: seq<Step>)
    requires Admissible(c, steps) && Posted(Execute(c, steps)) && !Execute(c, steps).runs[0].cancelled
    ensures forall i: nat :: multiset(Execute(c, steps).handed)[i] == (if i < c.nPiece then 1 else 0)
  {
    InvAlways(c, steps);
  }
}
