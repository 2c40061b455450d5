/** What the state tells about the steps that led to it, and which steps can come next, said of the steps before. */
module ProtocolHistory {
  import opened Common
  import opened Protocol
  import opened ProtocolInvariant
  import ProtocolLedger
  import opened ProtocolSafety

  /** Selected: the dispatcher of some run selected. Sent, Taken: a job went into or out of run r's channel. Joined,
      Left: a worker of run r joined or left the wait group. HandedOver: some worker handed a piece to a writer. */
  datatype Event = Selected | Sent(r: nat) | Taken(r: nat) | Joined(r: nat) | Left(r: nat) | HandedOver

  predicate Is(step: Step, e: Event) {
    match e
    case Selected => step.ByRun? && step.runAct == Select
    case Sent(r) => step == ByRun(r, Send)
    case Taken(r) => step.ByWorker? && step.run == r && step.workerAct == Take
    case Joined(r) => step.ByWorker? && step.run == r && step.workerAct == Register
    case Left(r) => step.ByWorker? && step.run == r && step.workerAct == Retire
    case HandedOver => step.ByWorker? && step.workerAct.HandOver?
  }

  function Times(steps: seq<Step>, e: Event): nat {
    if steps == [] then 0 else Times(steps[..|steps| - 1], e) + One(Is(steps[|steps| - 1], e))
  }

  /** Step k was a selection of run r with no piece left, or after the run had noticed its cancellation. */
  predicate LastCall(c: Config, steps: seq<Step>, r: nat, k: nat) {
    k < |steps| && steps[k] == ByRun(r, Select)
    && (Times(steps[..k], Selected) >= c.nPiece || ByRun(r, NoticeCancel) in steps[..k])
  }

  ghost predicate FirstLastCall(c: Config, steps: seq<Step>, r: nat, k: nat) {
    LastCall(c, steps, r, k) && forall m: nat :: m < k ==> !LastCall(c, steps, r, m)
  }

  ghost predicate FlagsTell(steps: seq<Step>, run: Run, r: nat) {
    && (run.cancelled <==> ByRun(r, Cancel) in steps)
    && (run.shuttingDown <==> ByRun(r, NoticeCancel) in steps)
    && (run.dispatcher.Ended? <==> ByRun(r, EndDispatcher) in steps)
    && (run.selector.Stopped? <==> BySelector(r, StopSelector) in steps)
    && (run.writer.Closed? <==> ByRun(r, StopWriter) in steps)
  }

  ghost predicate WaiterTells(c: Config, steps: seq<Step>, run: Run, r: nat) {
    && (run.waiter.Absent? ==> forall k: nat :: k < |steps| ==> !LastCall(c, steps, r, k))
    && (!run.waiter.Absent? ==>
          exists k: nat :: FirstLastCall(c, steps, r, k)
                           && (run.waiter.completed <==> Times(steps[..k], Selected) >= c.nPiece))
    && (!run.waiter.Absent? && !run.waiter.AtWait? <==> ByRun(r, PassWait) in steps)
    && (run.waiter.ChildrenStopped? || run.waiter.MainStopped? || run.waiter.Over? <==> ByRun(r, StopChildren) in steps)
    && (run.waiter.MainStopped? || run.waiter.Over? <==> ByRun(r, StopMain) in steps)
    && (run.waiter.Over? <==> ByRun(r, Post) in steps)
  }

  ghost predicate CountsTell(steps: seq<Step>, run: Run, r: nat) {
    && run.waitCount == Times(steps, Joined(r)) - Times(steps, Left(r))
    && |run.jobs| == Times(steps, Sent(r)) - Times(steps, Taken(r))
  }

  ghost predicate RunTells(c: Config, steps: seq<Step>, s: State, r: nat)
    requires HasRun(s, r)
  {
    FlagsTell(steps, s.runs[r], r) && WaiterTells(c, steps, s.runs[r], r) && CountsTell(steps, s.runs[r], r)
  }

  /** Nothing was done by a run that is not there yet. */
  ghost predicate OnlyRuns(steps: seq<Step>, s: State) {
    forall k :: 0 <= k < |steps| ==> steps[k].Start? || steps[k].run < |s.runs|
  }

  ghost predicate Tells(c: Config, steps: seq<Step>, s: State) {
    && OnlyRuns(steps, s)
    && (forall r: nat :: r < |s.runs| ==> RunTells(c, steps, s, r))
    && s.totalSelected == Min(c.nPiece, Times(steps, Selected))
    && |s.handed| == Times(steps, HandedOver)
  }

  // ---------------------------------------------------------------- one step

  ghost predicate FlagsMove(x: Run, y: Run, step: Step, r: nat) {
    && y.cancelled == (x.cancelled || step == ByRun(r, Cancel))
    && y.shuttingDown == (x.shuttingDown || step == ByRun(r, NoticeCancel))
    && y.dispatcher.Ended? == (x.dispatcher.Ended? || step == ByRun(r, EndDispatcher))
    && y.selector.Stopped? == (x.selector.Stopped? || step == BySelector(r, StopSelector))
    && y.writer.Closed? == (x.writer.Closed? || step == ByRun(r, StopWriter))
  }

  ghost predicate CountsMove(x: Run, y: Run, step: Step, r: nat) {
    && y.waitCount == x.waitCount + One(Is(step, Joined(r))) - One(Is(step, Left(r)))
    && |y.jobs| == |x.jobs| + One(Is(step, Sent(r))) - One(Is(step, Taken(r)))
  }

  lemma WriterAfterWorker(c: Config, s: State, k: nat, w: nat, act: WorkerAct, r: nat)
    requires HasWorker(s, k, w) && WorkerEnabled(c, s, k, w, act) && HasRun(s, r)
    ensures |WorkerApply(c, s, k, w, act).runs| == |s.runs|
    ensures WorkerApply(c, s, k, w, act).runs[r].writer.Closed? <==> s.runs[r].writer.Closed?
  {
    OwnRunShape(c, s, k, w, act);
    hide OwnRunAfter, WorkerAfter;
  }

  lemma WorkerStepTells(c: Config, s: State, k: nat, w: nat, act: WorkerAct, r: nat)
    requires HasWorker(s, k, w) && WorkerEnabled(c, s, k, w, act) && HasRun(s, r)
    ensures |WorkerApply(c, s, k, w, act).runs| == |s.runs|
    ensures FlagsMove(s.runs[r], WorkerApply(c, s, k, w, act).runs[r], ByWorker(k, w, act), r)
    ensures CountsMove(s.runs[r], WorkerApply(c, s, k, w, act).runs[r], ByWorker(k, w, act), r)
    ensures WorkerApply(c, s, k, w, act).runs[r].waiter == s.runs[r].waiter
  {
    WriterAfterWorker(c, s, k, w, act, r);
    WorkerStepShape(c, s, k, w, act, r);
    OwnRunShape(c, s, k, w, act);
    assert act == Request(r) ==> s.runs[r].selector.Idle?;
    assert act.Signal? ==> s.runs[k].dispatcher.Ready?;
    assert act.Take? ==> s.runs[k].jobs != [];
    hide WorkerApply, OwnRunAfter, WorkerAfter, WorkerEnabled;
  }

  lemma RunStepTells(c: Config, s: State, k: nat, act: RunAct, r: nat)
    requires HasRun(s, k) && RunEnabled(c, s, k, act) && HasRun(s, r)
    ensures |RunApply(c, s, k, act).runs| == |s.runs|
    ensures FlagsMove(s.runs[r], RunApply(c, s, k, act).runs[r], ByRun(k, act), r)
    ensures CountsMove(s.runs[r], RunApply(c, s, k, act).runs[r], ByRun(k, act), r)
  {}

  lemma SelectorStepTells(c: Config, s: State, k: nat, act: SelectorAct, r: nat)
    requires HasRun(s, k) && SelectorEnabled(c, s, k, act) && HasRun(s, r)
    ensures |SelectorApply(c, s, k, act).runs| == |s.runs|
    ensures FlagsMove(s.runs[r], SelectorApply(c, s, k, act).runs[r], BySelector(k, act), r)
    ensures CountsMove(s.runs[r], SelectorApply(c, s, k, act).runs[r], BySelector(k, act), r)
    ensures SelectorApply(c, s, k, act).runs[r].waiter == s.runs[r].waiter
  {
    SelectorStepShape(c, s, k, act, r);
    hide SelectorApply;
  }

  lemma RunAfterStep(c: Config, s: State, step: Step, r: nat)
    requires Enabled(c, s, step) && HasRun(s, r)
    ensures HasRun(Apply(c, s, step), r)
    ensures FlagsMove(s.runs[r], Apply(c, s, step).runs[r], step, r)
    ensures CountsMove(s.runs[r], Apply(c, s, step).runs[r], step, r)
    ensures !step.ByRun? ==> Apply(c, s, step).runs[r].waiter == s.runs[r].waiter
  {
    hide RunApply, WorkerApply, SelectorApply, RunEnabled, WorkerEnabled, SelectorEnabled;
    match step
    case Start =>
    case ByRun(k, act) => RunStepTells(c, s, k, act, r);
    case ByWorker(k, w, act) => WorkerStepTells(c, s, k, w, act, r);
    case BySelector(k, act) => SelectorStepTells(c, s, k, act, r);
  }

  lemma WaiterAfter(c: Config, s: State, step: Step, r: nat)
    requires Enabled(c, s, step) && HasRun(s, r)
    ensures HasRun(Apply(c, s, step), r)
    ensures var x, y := s.runs[r].waiter, Apply(c, s, step).runs[r].waiter;
            && (step == ByRun(r, Select) && x.Absent? && (s.totalSelected >= c.nPiece || s.runs[r].shuttingDown) ==>
                  y == AtWait(s.totalSelected >= c.nPiece))
            && (step == ByRun(r, PassWait) ==> x.AtWait? && y == Passed(x.completed))
            && (step == ByRun(r, StopChildren) ==> x.Passed? && y == ChildrenStopped(x.completed))
            && (step == ByRun(r, StopMain) ==> x.ChildrenStopped? && y == MainStopped(x.completed))
            && (step == ByRun(r, Post) ==> x.MainStopped? && y == Over(x.completed))
            && (y == x
                || (step == ByRun(r, Select) && x.Absent? && (s.totalSelected >= c.nPiece || s.runs[r].shuttingDown))
                || step == ByRun(r, PassWait) || step == ByRun(r, StopChildren) || step == ByRun(r, StopMain)
                || step == ByRun(r, Post))
  {
    RunAfterStep(c, s, step, r);
    if !step.ByRun? {
      hide Apply, Enabled;
    }
  }

  lemma TotalsAfter(c: Config, s: State, step: Step)
    requires Enabled(c, s, step)
    ensures var t := Apply(c, s, step);
            && t.totalSelected
               == s.totalSelected + One(Is(step, Selected) && s.totalSelected < c.nPiece)
            && |t.handed| == |s.handed| + One(Is(step, HandedOver))
            && |t.runs| == |s.runs| + One(step.Start?)
            && (!step.Start? ==> step.run < |s.runs|)
  {
    match step
    case Start =>
    case ByRun(k, act) =>
    case ByWorker(k, w, act) =>
      hide OwnRunAfter, WorkerAfter;
    case BySelector(k, act) =>
  }

  // ---------------------------------------------------------------- every run

  lemma FlagsTellOn(before: seq<Step>, step: Step, x: Run, y: Run, r: nat)
    requires FlagsTell(before, x, r) && FlagsMove(x, y, step, r)
    ensures FlagsTell(before + [step], y, r)
  {}

  lemma TimesOn(before: seq<Step>, step: Step, e: Event)
    ensures Times(before + [step], e) == Times(before, e) + One(Is(step, e))
  {
    assert (before + [step])[..|before|] == before;
  }

  lemma CountsTellOn(before: seq<Step>, step: Step, x: Run, y: Run, r: nat)
    requires CountsTell(before, x, r) && CountsMove(x, y, step, r)
    ensures CountsTell(before + [step], y, r)
  {
    TimesOn(before, step, Joined(r));
    TimesOn(before, step, Left(r));
    TimesOn(before, step, Sent(r));
    TimesOn(before, step, Taken(r));
  }

  lemma LastCallOn(c: Config, before: seq<Step>, step: Step, r: nat, k: nat)
    requires k < |before|
    ensures LastCall(c, before + [step], r, k) <==> LastCall(c, before, r, k)
    ensures (before + [step])[..k] == before[..k]
  {
    assert (before + [step])[..k] == before[..k];
  }

  /** Whether the step just taken is a last call. */
  lemma LastCallNow(c: Config, before: seq<Step>, step: Step, s: State, r: nat)
    requires Tells(c, before, s) && HasRun(s, r)
    ensures LastCall(c, before + [step], r, |before|)
            <==> step == ByRun(r, Select) && (s.totalSelected >= c.nPiece || s.runs[r].shuttingDown)
    ensures Times((before + [step])[..|before|], Selected) >= c.nPiece <==> s.totalSelected >= c.nPiece
  {
    assert RunTells(c, before, s, r);
    assert (before + [step])[..|before|] == before;
  }

  lemma WaiterSpawned(c: Config, before: seq<Step>, step: Step, s: State, r: nat, y: Run)
    requires Tells(c, before, s) && HasRun(s, r) && step == ByRun(r, Select)
    requires s.runs[r].waiter.Absent? && (s.totalSelected >= c.nPiece || s.runs[r].shuttingDown)
    requires y.waiter == AtWait(s.totalSelected >= c.nPiece)
    ensures WaiterTells(c, before + [step], y, r)
  {
    var n := |before|;
    assert RunTells(c, before, s, r);
    LastCallNow(c, before, step, s, r);
    forall m: nat | m < n
      ensures !LastCall(c, before + [step], r, m)
    {
      LastCallOn(c, before, step, r, m);
    }
    hide LastCall, Times;
    assert FirstLastCall(c, before + [step], r, n);
  }

  lemma WaiterStays(c: Config, before: seq<Step>, step: Step, s: State, r: nat, y: Run)
    requires Tells(c, before, s) && HasRun(s, r) && y.waiter.Absent? == s.runs[r].waiter.Absent?
    requires !y.waiter.Absent? ==> y.waiter.completed == s.runs[r].waiter.completed
    requires step == ByRun(r, Select) && y.waiter.Absent? ==>
               s.totalSelected < c.nPiece && !s.runs[r].shuttingDown
    ensures y.waiter.Absent? ==> forall k: nat :: k < |before + [step]| ==> !LastCall(c, before + [step], r, k)
    ensures !y.waiter.Absent? ==>
              exists k: nat :: FirstLastCall(c, before + [step], r, k)
                               && (y.waiter.completed <==> Times((before + [step])[..k], Selected) >= c.nPiece)
  {
    assert RunTells(c, before, s, r);
    LastCallNow(c, before, step, s, r);
    if y.waiter.Absent? {
      forall k: nat | k < |before + [step]|
        ensures !LastCall(c, before + [step], r, k)
      {
        if k < |before| {
          LastCallOn(c, before, step, r, k);
        }
      }
    } else {
      var k: nat :| FirstLastCall(c, before, r, k)
                    && (y.waiter.completed <==> Times(before[..k], Selected) >= c.nPiece);
      forall m: nat | m <= k
        ensures LastCall(c, before + [step], r, m) <==> LastCall(c, before, r, m)
        ensures (before + [step])[..m] == before[..m]
      {
        LastCallOn(c, before, step, r, m);
      }
      hide LastCall, Times;
      assert FirstLastCall(c, before + [step], r, k);
    }
  }

  lemma WaiterTellsOn(c: Config, before: seq<Step>, step: Step, s: State, r: nat)
    requires Tells(c, before, s) && Enabled(c, s, step) && HasRun(s, r)
    ensures HasRun(Apply(c, s, step), r)
    ensures WaiterTells(c, before + [step], Apply(c, s, step).runs[r], r)
  {
    WaiterAfter(c, s, step, r);
    assert RunTells(c, before, s, r);
    var x, y := s.runs[r], Apply(c, s, step).runs[r];
    hide Apply, Enabled, LastCall, FirstLastCall, Times;
    if step == ByRun(r, Select) && x.waiter.Absent? && (s.totalSelected >= c.nPiece || x.shuttingDown) {
      WaiterSpawned(c, before, step, s, r, y);
    } else {
      WaiterStays(c, before, step, s, r, y);
    }
  }

  lemma FreshRunTells(c: Config, steps: seq<Step>, s: State)
    requires OnlyRuns(steps, s)
    ensures RunTells(c, steps + [Start], s.(runs := s.runs + [FreshRun(c)]), |s.runs|)
  {
    var r := |s.runs|;
    NoEvent(steps + [Start], Joined(r), r);
    NoEvent(steps + [Start], Left(r), r);
    NoEvent(steps + [Start], Sent(r), r);
    NoEvent(steps + [Start], Taken(r), r);
  }

  lemma {:induction false} NoEvent(steps: seq<Step>, e: Event, r: nat)
    requires e == Joined(r) || e == Left(r) || e == Sent(r) || e == Taken(r)
    requires forall k :: 0 <= k < |steps| ==> steps[k].Start? || steps[k].run < r
    ensures Times(steps, e) == 0
  {
    if steps != [] {
      NoEvent(steps[..|steps| - 1], e, r);
    }
  }

  lemma RunTellsOn(c: Config, before: seq<Step>, step: Step, s: State, r: nat)
    requires Tells(c, before, s) && Enabled(c, s, step) && HasRun(s, r)
    ensures HasRun(Apply(c, s, step), r)
    ensures RunTells(c, before + [step], Apply(c, s, step), r)
  {
    RunAfterStep(c, s, step, r);
    assert RunTells(c, before, s, r);
    var x, y := s.runs[r], Apply(c, s, step).runs[r];
    WaiterTellsOn(c, before, step, s, r);
    FlagsTellOn(before, step, x, y, r);
    CountsTellOn(before, step, x, y, r);
    hide Apply, Enabled, FlagsTell, CountsTell, WaiterTells, FlagsMove, CountsMove;
  }

  lemma TellsOn(c: Config, before: seq<Step>, step: Step, s: State)
    requires Tells(c, before, s) && Enabled(c, s, step)
    ensures Tells(c, before + [step], Apply(c, s, step))
  {
    var t := Apply(c, s, step);
    TotalsAfter(c, s, step);
    TimesOn(before, step, Selected);
    TimesOn(before, step, HandedOver);
    forall r: nat | r < |t.runs|
      ensures RunTells(c, before + [step], t, r)
    {
      if r < |s.runs| {
        RunTellsOn(c, before, step, s, r);
      } else {
        FreshRunTells(c, before, s);
      }
    }
    hide Apply, Enabled, RunTells, Times;
  }

  /** In every run: flags, counters and outcome are what the steps so far make them. The waiter is there if and only
      if some selection found no piece left or came after a noticed cancellation, and will report what the first such
      selection found. */
  lemma {:induction false} StateTellsHistory(c: Config, steps: seq<Step>)
    requires Admissible(c, steps)
    ensures Tells(c, steps, Execute(c, steps))
  {
    if steps != [] {
      var before := steps[..|steps| - 1];
      StateTellsHistory(c, before);
      TellsOn(c, before, steps[|steps| - 1], Execute(c, before));
      assert before + [steps[|steps| - 1]] == steps;
    }
  }

  /** Which steps can come next, by what was done before: the waiter passes once it was spawned and as many workers
      have left the wait group as joined it, contexts end one after the other, and a goroutine ends only after its own
      context, but then it can. */
  lemma NextOfRun(c: Config, steps: seq<Step>, r: nat)
    requires Admissible(c, steps) && HasRun(Execute(c, steps), r)
    ensures var s := Execute(c, steps);
            && (Enabled(c, s, ByRun(r, NoticeCancel)) <==> s.runs[r].dispatcher.Ready? && ByRun(r, Cancel) in steps)
            && (Enabled(c, s, ByRun(r, PassWait)) <==>
                  && ByRun(r, PassWait) !in steps && Times(steps, Joined(r)) == Times(steps, Left(r))
                  && exists k: nat :: LastCall(c, steps, r, k))
            && (Enabled(c, s, ByRun(r, StopChildren)) <==>
                  ByRun(r, PassWait) in steps && ByRun(r, StopChildren) !in steps)
            && (Enabled(c, s, ByRun(r, StopMain)) <==>
                  ByRun(r, StopChildren) in steps && ByRun(r, StopMain) !in steps)
            && (Enabled(c, s, ByRun(r, Post)) <==> ByRun(r, StopMain) in steps && ByRun(r, Post) !in steps)
            && (Enabled(c, s, ByRun(r, EndDispatcher)) <==>
                  s.runs[r].dispatcher.Ready? && ByRun(r, StopMain) in steps)
            && (Enabled(c, s, BySelector(r, StopSelector)) <==>
                  s.runs[r].selector.Idle? && ByRun(r, StopChildren) in steps)
            && (Enabled(c, s, ByRun(r, StopWriter)) <==> s.runs[r].writer.Free? && ByRun(r, StopChildren) in steps)
  {
    hide Admissible, Execute, LastCall, Times;
    StateTellsHistory(c, steps);
    var s := Execute(c, steps);
    assert RunTells(c, steps, s, r);
    if !s.runs[r].waiter.Absent? {
      var k: nat :| FirstLastCall(c, steps, r, k);
    }
    assert forall k: nat :: LastCall(c, steps, r, k) ==> k < |steps| by {
      LastCallInside(c, steps, r);
    }
  }

  /** Starting again and cancelling are always possible; so are selecting, sending and finishing a write when their
      turn has come. */
  lemma AlwaysPossible(c: Config, steps: seq<Step>, r: nat)
    requires Admissible(c, steps) && HasRun(Execute(c, steps), r)
    ensures var s := Execute(c, steps);
            && Enabled(c, s, Start) && Enabled(c, s, ByRun(r, Cancel))
            && (Enabled(c, s, ByRun(r, Select)) <==> s.runs[r].dispatcher.Selecting?)
            && (Enabled(c, s, ByRun(r, Send)) <==> s.runs[r].dispatcher.Sending?)
            && (Enabled(c, s, ByRun(r, WriteDone)) <==> s.runs[r].writer.Writing?)
  {
    hide Admissible, Execute;
    InvAlways(c, steps);
    assert RunOK(c, Execute(c, steps).runs[r]);
    ProtocolLedger.WorkersBearBound(Execute(c, steps).runs[r].workers, ProtocolLedger.Seat);
  }

  lemma LastCallInside(c: Config, steps: seq<Step>, r: nat)
    ensures forall k: nat :: LastCall(c, steps, r, k) ==> k < |steps|
  {}

  /** A worker in its select can leave if and only if its run was cancelled, and can take a job if and only if more
      jobs went into the channel than came out; it releases the peer it holds without waiting. */
  lemma NextOfWorker(c: Config, steps: seq<Step>, r: nat, w: nat)
    requires Admissible(c, steps) && HasWorker(Execute(c, steps), r, w)
    ensures var s := Execute(c, steps);
            var x := s.runs[r].workers[w];
            && (Enabled(c, s, ByWorker(r, w, Quit)) <==> x.Waiting? && ByRun(r, Cancel) in steps)
            && (Enabled(c, s, ByWorker(r, w, Take)) <==>
                  x.Waiting? && Times(steps, Sent(r)) > Times(steps, Taken(r)))
            && (Enabled(c, s, ByWorker(r, w, Release)) <==> x.Releasing?)
  {
    hide Admissible, Execute, LastCall, Times;
    StateTellsHistory(c, steps);
    assert RunTells(c, steps, Execute(c, steps), r);
    if Execute(c, steps).runs[r].workers[w].Releasing? {
      InvAlways(c, steps);
      ReleasedPeerIsPeer(c, Execute(c, steps), r, w);
    }
  }

  lemma WorkerAlone(c: Config, s: State, r: nat, w: nat)
    requires HasWorker(s, r, w)
    ensures var x := s.runs[r].workers[w];
            && (Enabled(c, s, ByWorker(r, w, Register)) <==> x.Unstarted?)
            && (Enabled(c, s, ByWorker(r, w, Signal)) <==> x.Signalling? && s.runs[r].dispatcher.Ready?)
            && (Enabled(c, s, ByWorker(r, w, Retire)) <==> x.Retiring?)
            && (Enabled(c, s, ByWorker(r, w, Finish)) <==> x.Downloading?)
  {}

  /** A worker's requests and pieces go to any run whose selector or writer is free; and it signals under the lock, to
      one parked selector if there is any. */
  lemma WorkerMeets(c: Config, s: State, r: nat, w: nat, k: nat)
    requires HasWorker(s, r, w)
    ensures var x := s.runs[r].workers[w];
            && (Enabled(c, s, ByWorker(r, w, Request(k))) <==>
                  x.Requesting? && k < |s.runs| && s.runs[k].selector.Idle?)
            && (Enabled(c, s, ByWorker(r, w, HandOver(k))) <==>
                  x.HandingOver? && k < |s.runs| && s.runs[k].writer.Free?)
            && (Enabled(c, s, ByWorker(r, w, Alert(Some(k)))) <==>
                  x.Released? && s.lock == None && k < |s.runs| && s.runs[k].selector.Parked?)
            && (Enabled(c, s, ByWorker(r, w, Alert(None))) <==>
                  x.Released? && s.lock == None && !exists m: nat :: m < |s.runs| && s.runs[m].selector.Parked?)
  {}

  lemma ReleasedPeerIsPeer(c: Config, s: State, r: nat, w: nat)
    requires SlotsOK(c, s) && HasWorker(s, r, w) && s.runs[r].workers[w].Releasing?
    ensures s.runs[r].workers[w].peer in s.isFree
  {
    var p := s.runs[r].workers[w].peer;
    ProtocolLedger.WorkersBearOne(s.runs[r].workers, w, ProtocolLedger.Slot(p));
    ProtocolLedger.RunsBearOne(s.runs, r, ProtocolLedger.Slot(p));
  }

  /** A selector takes the lock whenever it is free, tries the peers one by one in any order, parks only after the
      last, and never waits for a worker when it has a peer. */
  lemma NextOfSelector(c: Config, steps: seq<Step>, r: nat)
    requires Admissible(c, steps) && HasRun(Execute(c, steps), r)
    ensures var s := Execute(c, steps);
            var x := s.runs[r].selector;
            && (Enabled(c, s, BySelector(r, Lock)) <==> x.Locking? && s.lock == None)
            && (Enabled(c, s, BySelector(r, Park)) <==> x.Scanning? && x.todo == {})
            && (Enabled(c, s, BySelector(r, Grant)) <==> x.Found?)
            && (Enabled(c, s, BySelector(r, Respond)) <==> x.Granted?)
            && (Enabled(c, s, BySelector(r, StrayAlert)) <==> x.Parked?)
            && forall p: nat :: Enabled(c, s, BySelector(r, Test(p))) <==> x.Scanning? && p in x.todo
  {
    hide Admissible, Execute;
    InvAlways(c, steps);
    assert SelectorOK(c, Execute(c, steps), r);
  }

  /** Completion is reported if and only if the first selection that found no piece left or came after a noticed
      cancellation was one that found no piece left. */
  lemma ReportedIff(c: Config, steps: seq<Step>, r: nat)
    requires Admissible(c, steps) && HasRun(Execute(c, steps), r)
    ensures Execute(c, steps).runs[r].waiter == Over(true)
            <==> ByRun(r, Post) in steps
                 && exists k: nat :: FirstLastCall(c, steps, r, k) && Times(steps[..k], Selected) >= c.nPiece
  {
    hide Admissible, Execute, Times;
    StateTellsHistory(c, steps);
    var run := Execute(c, steps).runs[r];
    assert RunTells(c, steps, Execute(c, steps), r);
    if run.waiter.Over? {
      var k: nat :| FirstLastCall(c, steps, r, k)
                    && (run.waiter.completed <==> Times(steps[..k], Selected) >= c.nPiece);
      forall m: nat | FirstLastCall(c, steps, r, m)
        ensures m == k
      {}
    }
  }
}
