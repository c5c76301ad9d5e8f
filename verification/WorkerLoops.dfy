// The background loops: timers that start asynchronous jobs, one flag per guarded loop, one stop
// flag.  A job settles, well or badly, at any later moment, and its flag is cleared some time after.
module WorkerLoops {
  datatype Loop = Alerts | Sessions | Outbox | Guides | Delivery

  datatype Entry =
    | Started(loop: Loop)
    | Settled(loop: Loop, ok: bool)
    | ClosureStarted
    | Stopped

  datatype Workers = Workers(
    enabled: set<Loop>,       // loops the configuration provides; the maintenance timer always is
    stopped: bool,
    busy: set<Loop>,          // the flags
    jobs: multiset<Loop>,     // jobs really in flight
    ending: multiset<Loop>,   // jobs that have settled but whose `finally` has not run
    closures: nat,            // closure ticks in flight
    log: seq<Entry>)

  datatype Event = Tick(loop: Loop) | Settle(loop: Loop, ok: bool) | Finally(loop: Loop) | ClosureDone | Stop

  function Initial(enabled: set<Loop>): Workers {
    Workers(enabled + {Sessions}, false, {}, multiset{}, multiset{}, 1, [ClosureStarted])
  }

  predicate Enabled(s: Workers, e: Event) {
    match e
    case Tick(l) => l in s.enabled
    case Settle(l, _) => l in s.jobs
    case Finally(l) => l in s.ending
    case ClosureDone => s.closures > 0
    case Stop => true
  }

  function StartJob(s: Workers, l: Loop): Workers {
    if l in s.busy then s
    else s.(busy := s.busy + {l}, jobs := s.jobs + multiset{l}, log := s.log + [Started(l)])
  }

  /** A timer callback.  The maintenance timer starts a closure tick first, whatever its flag says. */
  function OnTick(s: Workers, l: Loop): Workers {
    if s.stopped then s
    else if l.Sessions? then StartJob(s.(closures := s.closures + 1, log := s.log + [ClosureStarted]), l)
    else StartJob(s, l)
  }

  function Apply(s: Workers, e: Event): Workers
    requires Enabled(s, e)
  {
    match e
    case Tick(l) => OnTick(s, l)
    case Settle(l, ok) =>
      s.(jobs := s.jobs - multiset{l}, ending := s.ending + multiset{l}, log := s.log + [Settled(l, ok)])
    case Finally(l) => s.(busy := s.busy - {l}, ending := s.ending - multiset{l})
    case ClosureDone => s.(closures := s.closures - 1)
    case Stop => s.(stopped := true, log := s.log + [Stopped])
  }

  ghost predicate Run(s: Workers, es: seq<Event>)
    decreases |es|
  {
    es != [] ==> Enabled(s, es[0]) && Run(Apply(s, es[0]), es[1..])
  }

  ghost function End(s: Workers, es: seq<Event>): Workers
    requires Run(s, es)
    decreases |es|
  {
    if es == [] then s else End(Apply(s, es[0]), es[1..])
  }

  // ---- Histories -----------------------------------------------------------------------------------

  /** The part of the log about one guarded loop. */
  ghost function History(log: seq<Entry>, l: Loop): seq<Entry> {
    if log == [] then []
    else
      var rest, last := History(log[..|log| - 1], l), log[|log| - 1];
      if (last.Started? || last.Settled?) && last.loop == l then rest + [last] else rest
  }

  /** Start, settle, start, settle, and so on. */
  ghost predicate Alternates(history: seq<Entry>) {
    forall i | 0 <= i < |history| :: history[i].Started? <==> i % 2 == 0
  }

  ghost predicate NoStartAfterStop(log: seq<Entry>) {
    forall i, j | 0 <= i < j < |log| && log[i].Stopped? :: !log[j].Started? && !log[j].ClosureStarted?
  }

  ghost predicate LoopOk(s: Workers, l: Loop) {
    && s.jobs[l] + s.ending[l] == (if l in s.busy then 1 else 0)
    && Alternates(History(s.log, l))
    && (s.jobs[l] == 1 <==> |History(s.log, l)| % 2 == 1)
  }

  ghost predicate Inv(s: Workers) {
    && (forall l :: LoopOk(s, l))
    && NoStartAfterStop(s.log)
    && ((exists i | 0 <= i < |s.log| :: s.log[i].Stopped?) ==> s.stopped)
  }

  lemma HistoryOfLonger(log: seq<Entry>, e: Entry, l: Loop)
    ensures History(log + [e], l) ==
            History(log, l) + if (e.Started? || e.Settled?) && e.loop == l then [e] else []
  {
    assert (log + [e])[..|log|] == log;
  }

  lemma StartJobKeepsInv(s: Workers, l: Loop)
    requires Inv(s) && !s.stopped
    ensures Inv(StartJob(s, l))
  {
    if l !in s.busy {
      var s' := StartJob(s, l);
      forall m ensures LoopOk(s', m) {
        assert LoopOk(s, m);
        HistoryOfLonger(s.log, Started(l), m);
      }
    }
  }

  lemma ClosureStartKeepsInv(s: Workers)
    requires Inv(s) && !s.stopped
    ensures Inv(s.(closures := s.closures + 1, log := s.log + [ClosureStarted]))
  {
    var s' := s.(closures := s.closures + 1, log := s.log + [ClosureStarted]);
    forall l ensures LoopOk(s', l) {
      assert LoopOk(s, l);
      HistoryOfLonger(s.log, ClosureStarted, l);
    }
  }

  lemma SettleKeepsInv(s: Workers, l: Loop, ok: bool)
    requires Inv(s) && l in s.jobs
    ensures Inv(Apply(s, Settle(l, ok)))
  {
    var s' := Apply(s, Settle(l, ok));
    forall m ensures LoopOk(s', m) {
      assert LoopOk(s, m) && LoopOk(s, l);
      HistoryOfLonger(s.log, Settled(l, ok), m);
    }
  }

  lemma StopKeepsInv(s: Workers)
    requires Inv(s)
    ensures Inv(Apply(s, Stop))
  {
    var s' := Apply(s, Stop);
    forall l ensures LoopOk(s', l) {
      assert LoopOk(s, l);
      HistoryOfLonger(s.log, Stopped, l);
    }
  }

  lemma InvKept(s: Workers, e: Event)
    requires Inv(s) && Enabled(s, e)
    ensures Inv(Apply(s, e))
  {
    match e
    case Tick(l) =>
      if !s.stopped {
        if l.Sessions? {
          ClosureStartKeepsInv(s);
          StartJobKeepsInv(s.(closures := s.closures + 1, log := s.log + [ClosureStarted]), l);
        } else {
          StartJobKeepsInv(s, l);
        }
      }
    case Settle(l, ok) => SettleKeepsInv(s, l, ok);
    case Stop => StopKeepsInv(s);
    case _ =>
      forall l ensures LoopOk(Apply(s, e), l) {
        assert LoopOk(s, l);
      }
  }

  lemma {:induction false} InvHoldsOnRuns(s: Workers, es: seq<Event>)
    requires Inv(s) && Run(s, es)
    ensures Inv(End(s, es))
    decreases |es|
  {
    if es == [] {
    } else {
      InvKept(s, es[0]);
      InvHoldsOnRuns(Apply(s, es[0]), es[1..]);
    }
  }

  lemma InitialOk(enabled: set<Loop>)
    ensures Inv(Initial(enabled))
  {
    forall l ensures LoopOk(Initial(enabled), l) {
      HistoryOfLonger([], ClosureStarted, l);
      assert [] + [ClosureStarted] == [ClosureStarted];
    }
  }

  // ---- Over every interleaving ----------------------------------------------------------------------

  /** However ticks, settlements and stops interleave: each guarded loop has at most one job in flight,
      its flag is set exactly while it has one or its last one has not cleared the flag yet, its starts
      and settlements alternate, and nothing starts after a stop. */
  lemma LoopsNeverOverlap(enabled: set<Loop>, es: seq<Event>, l: Loop)
    requires Run(Initial(enabled), es)
    ensures var s := End(Initial(enabled), es);
            && s.jobs[l] + s.ending[l] <= 1
            && (l in s.busy <==> s.jobs[l] + s.ending[l] == 1)
            && Alternates(History(s.log, l))
            && (s.jobs[l] == 1 <==> |History(s.log, l)| % 2 == 1)
            && NoStartAfterStop(s.log)
  {
    InitialOk(enabled);
    InvHoldsOnRuns(Initial(enabled), es);
    assert LoopOk(End(Initial(enabled), es), l);
  }

  /** No loop gets stuck: in any reachable state a tick starts a job exactly when the workers are not
      stopped and the loop has no job in flight, nor one that is still to clear its flag. */
  lemma TickStartsExactlyWhenIdle(enabled: set<Loop>, es: seq<Event>, l: Loop)
    requires Run(Initial(enabled), es) && l in End(Initial(enabled), es).enabled
    ensures var s := End(Initial(enabled), es);
            Apply(s, Tick(l)).jobs ==
            s.jobs + (if !s.stopped && s.jobs[l] == 0 && s.ending[l] == 0 then multiset{l} else multiset{})
  {
    LoopsNeverOverlap(enabled, es, l);
  }

  /** After a stop running jobs may finish and nothing else happens: every settlement uses up one of
      the jobs that were in flight. */
  lemma {:induction false} StopDrains(s: Workers, es: seq<Event>)
    requires s.stopped && Run(s, es)
    ensures var s' := End(s, es);
            && s'.stopped && s'.jobs <= s.jobs && s'.closures <= s.closures
            && |s.log| <= |s'.log| && s'.log[..|s.log|] == s.log
            && (forall i | |s.log| <= i < |s'.log| :: s'.log[i].Settled? || s'.log[i].Stopped?)
            && |s'.jobs| + Settlements(es) == |s.jobs|
    decreases |es|
  {
    if es == [] {
    } else {
      StopDrains(Apply(s, es[0]), es[1..]);
    }
  }

  function Settlements(es: seq<Event>): nat {
    if es == [] then 0 else (if es[0].Settle? then 1 else 0) + Settlements(es[1..])
  }

  // ---- What the events alone say -----------------------------------------------------------------------

  datatype Phase = Idle | Running | Ending

  /** One loop as its own events show it: a tick starts a job when there is none and no stop has come, the
      job settles, its callback runs. */
  function NextPhase(phase: Phase, stopped: bool, e: Event, l: Loop): Phase {
    match e
    case Tick(m) => if m == l && phase == Idle && !stopped then Running else phase
    case Settle(m, _) => if m == l then Ending else phase
    case Finally(m) => if m == l then Idle else phase
    case _ => phase
  }

  function PhaseAfter(phase: Phase, stopped: bool, es: seq<Event>, l: Loop): Phase
    decreases |es|
  {
    if es == [] then phase
    else PhaseAfter(NextPhase(phase, stopped, es[0], l), stopped || es[0] == Stop, es[1..], l)
  }

  /** Closure ticks under way: one per maintenance tick before the first stop, less those done. */
  function NextClosures(n: int, stopped: bool, e: Event): int {
    match e
    case Tick(m) => if m == Sessions && !stopped then n + 1 else n
    case ClosureDone => n - 1
    case _ => n
  }

  function ClosuresAfter(n: int, stopped: bool, es: seq<Event>): int
    decreases |es|
  {
    if es == [] then n
    else ClosuresAfter(NextClosures(n, stopped, es[0]), stopped || es[0] == Stop, es[1..])
  }

  ghost predicate InPhase(s: Workers, l: Loop, phase: Phase) {
    && s.jobs[l] == (if phase == Running then 1 else 0)
    && s.ending[l] == (if phase == Ending then 1 else 0)
    && (l in s.busy <==> phase != Idle)
  }

  lemma TickFollows(s: Workers, m: Loop, l: Loop, phase: Phase)
    requires InPhase(s, l, phase)
    ensures InPhase(OnTick(s, m), l, NextPhase(phase, s.stopped, Tick(m), l))
  {}

  lemma StepFollowsEvent(s: Workers, e: Event, l: Loop, phase: Phase)
    requires Enabled(s, e) && InPhase(s, l, phase)
    ensures InPhase(Apply(s, e), l, NextPhase(phase, s.stopped, e, l))
  {
    match e
    case Tick(m) => TickFollows(s, m, l, phase);
    case Settle(m, _) => SettleFollows(s, m, l, phase);
    case _ =>
  }

  lemma SettleFollows(s: Workers, m: Loop, l: Loop, phase: Phase)
    requires m in s.jobs && InPhase(s, l, phase)
    ensures forall ok :: InPhase(Apply(s, Settle(m, ok)), l, if m == l then Ending else phase)
  {
    forall ok ensures InPhase(Apply(s, Settle(m, ok)), l, if m == l then Ending else phase) {
      assert m != l ==> Apply(s, Settle(m, ok)).jobs[l] == s.jobs[l];
    }
  }

  lemma StepCounts(s: Workers, e: Event)
    requires Enabled(s, e)
    ensures Apply(s, e).closures == NextClosures(s.closures, s.stopped, e)
    ensures Apply(s, e).stopped == (s.stopped || e == Stop)
  {}

  lemma {:induction false} RunFollowsEvents(s: Workers, es: seq<Event>, l: Loop, phase: Phase)
    requires Run(s, es) && InPhase(s, l, phase)
    ensures InPhase(End(s, es), l, PhaseAfter(phase, s.stopped, es, l))
    ensures End(s, es).closures == ClosuresAfter(s.closures, s.stopped, es)
    ensures End(s, es).stopped == (s.stopped || Stop in es)
    decreases |es|
  {
    if es == [] {
    } else {
      StepFollowsEvent(s, es[0], l, phase);
      StepCounts(s, es[0]);
      RunFollowsEvents(Apply(s, es[0]), es[1..], l, NextPhase(phase, s.stopped, es[0], l));
    }
  }

  /** In every run the workers are stopped exactly when a stop is among the events, each loop is just where
      its own events lead, flag, job and callback alike, and the closure ticks under way are counted by the
      maintenance ticks before the stop. */
  lemma StateFollowsEvents(enabled: set<Loop>, es: seq<Event>, l: Loop)
    requires Run(Initial(enabled), es)
    ensures var s := End(Initial(enabled), es);
            && (s.stopped <==> Stop in es)
            && InPhase(s, l, PhaseAfter(Idle, false, es, l))
            && s.closures == ClosuresAfter(1, false, es)
            && s.enabled == enabled + {Sessions}
  {
    RunFollowsEvents(Initial(enabled), es, l, Idle);
    EnabledStays(Initial(enabled), es);
  }

  lemma {:induction false} EnabledStays(s: Workers, es: seq<Event>)
    requires Run(s, es)
    ensures End(s, es).enabled == s.enabled
    decreases |es|
  {
    if es == [] {
    } else {
      EnabledStays(Apply(s, es[0]), es[1..]);
    }
  }

  /** In every reachable state a job that settles leaves, and the callback after it clears the flag, so that
      the loop's next tick starts a job again unless the workers are stopped. */
  lemma LoopGoesOn(enabled: set<Loop>, es: seq<Event>, l: Loop, ok: bool)
    requires Run(Initial(enabled), es) && l in End(Initial(enabled), es).enabled
    requires l in End(Initial(enabled), es).jobs
    ensures var s := End(Initial(enabled), es);
            var settled := Apply(s, Settle(l, ok));
            && settled.jobs[l] == 0 && l in settled.busy && l in settled.ending
            && var free := Apply(settled, Finally(l));
               && l !in free.busy && l !in free.ending && free.busy == s.busy - {l}
               && l in free.enabled && free.stopped == s.stopped
               && (Apply(free, Tick(l)).jobs[l] == 1 <==> !s.stopped)
  {
    LoopsNeverOverlap(enabled, es, l);
  }

  /** Once a stop is among the events, whatever comes after it: no job and no closure tick starts, in fact and
      in the log alike. */
  lemma NothingStartsAfterStop(enabled: set<Loop>, es: seq<Event>, more: seq<Event>)
    requires Run(Initial(enabled), es) && Stop in es && Run(End(Initial(enabled), es), more)
    ensures var s, s' := End(Initial(enabled), es), End(End(Initial(enabled), es), more);
            && s'.jobs <= s.jobs && s'.closures <= s.closures
            && |s.log| <= |s'.log| && s'.log[..|s.log|] == s.log
            && forall i | |s.log| <= i < |s'.log| :: !s'.log[i].Started? && !s'.log[i].ClosureStarted?
  {
    RunFollowsEvents(Initial(enabled), es, Alerts, Idle);
    StopDrains(End(Initial(enabled), es), more);
  }

  /** The closure tick is not guarded: n maintenance ticks in a row leave n + 1 of them in flight. */
  lemma ClosureTicksPileUp(enabled: set<Loop>, n: nat)
    ensures var es := seq(n, _ => Tick(Sessions));
            && Run(Initial(enabled), es)
            && End(Initial(enabled), es).closures == n + 1
  {
    PileUpFrom(Initial(enabled), n);
  }

  lemma {:induction false} PileUpFrom(s: Workers, n: nat)
    requires !s.stopped && Sessions in s.enabled
    ensures var es := seq(n, _ => Tick(Sessions));
            Run(s, es) && End(s, es).closures == s.closures + n
    decreases n
  {
    if n == 0 {
    } else {
      var es := seq(n, _ => Tick(Sessions));
      assert es[1..] == seq(n - 1, _ => Tick(Sessions));
      PileUpFrom(Apply(s, Tick(Sessions)), n - 1);
    }
  }

  // ---- The object that `start` returns its stop function for -----------------------------------------

  class WorkerRuntime {
    const enabled: set<Loop>
    var stopped: bool
    var busy: set<Loop>
    var jobs: multiset<Loop>
    var ending: multiset<Loop>
    var closures: nat
    var log: seq<Entry>

    ghost function View(): Workers
      reads this
    {
      Workers(enabled, stopped, busy, jobs, ending, closures, log)
    }

    /** `start`: the timers are set and a first closure tick runs at once. */
    constructor (enabled: set<Loop>)
      ensures View() == Initial(enabled)
    {
      this.enabled := enabled + {Sessions};
      stopped, busy, jobs, ending := false, {}, multiset{}, multiset{};
      closures, log := 1, [ClosureStarted];
    }

    method Tick(loop: Loop)
      modifies this
      ensures View() == OnTick(old(View()), loop)
    {
      if stopped {
        return;
      }
      if loop.Sessions? {
        closures, log := closures + 1, log + [ClosureStarted];
      }
      if loop in busy {
        return;
      }
      busy := busy + {loop};
      jobs, log := jobs + multiset{loop}, log + [Started(loop)];
    }

    /** The job's promise settles, well or badly. */
    method Settle(loop: Loop, ok: bool)
      requires loop in jobs
      modifies this
      ensures View() == Apply(old(View()), Event.Settle(loop, ok))
    {
      jobs, ending, log := jobs - multiset{loop}, ending + multiset{loop}, log + [Settled(loop, ok)];
    }

    /** The promise's `finally` callback, in either case. */
    method Finally(loop: Loop)
      requires loop in ending
      modifies this
      ensures View() == Apply(old(View()), Event.Finally(loop))
    {
      busy, ending := busy - {loop}, ending - multiset{loop};
    }

    /** The returned function. */
    method Stop()
      modifies this
      ensures View() == Apply(old(View()), Event.Stop)
    {
      stopped := true;
      log := log + [Stopped];
    }
  }
}
