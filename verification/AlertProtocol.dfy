// Any number of alert workers against one database, one step at a time: stale snapshots, row
// locks, crashes, lost replies and writes that reach the database late or never.
//
// A claim is a statement of its own, named by its index in `statements`; the worker that issued
// it may die while the database goes on with it.  `keyed` says whether the primary key of
// owner_alert_deliveries is enforced.
module AlertProtocol {
  import opened Wrappers
  import opened AlertTables
  import W = OwnerAlertWorkers

  type Attempt = nat
  type WorkerId = nat

  datatype Statement =
    | Started(snapshot: Tables, startedAt: int)
    | Locked(id: AlertId)
    | Won(id: AlertId)
    | Over

  datatype Worker =
    | Idle
    | Claiming(attempt: Attempt)
    | Claimed(attempt: Attempt)
    | Calling(attempt: Attempt)
    | Recording(attempt: Attempt, write: Write)
    | Abandoning(attempt: Attempt, write: Write)

  datatype Write = Write(attempt: Attempt, outcome: Outcome)

  datatype System = System(
    initial: map<AlertId, Delivery>,   // the delivery rows there were at the start
    tables: Tables,
    now: int,
    statements: seq<Statement>,
    workers: map<WorkerId, Worker>,
    calls: seq<Attempt>,               // provider calls issued, in order
    replies: map<Attempt, MessageId>,  // ids the provider handed back
    wire: set<Write>,                  // writes issued, neither applied nor lost yet
    landed: set<Write>)                // writes the database has applied

  datatype Event =
    | Tick(now: int)
    | OpenAlert(id: AlertId, key: string, createdAt: int)
    | SetStatus(id: AlertId, status: AlertStatus)
    | Purge(ids: set<AlertId>)
    | Begin(w: WorkerId)
    | Pick(a: Attempt, id: AlertId)
    | Insert(a: Attempt)
    | Fail(a: Attempt)
    | ClaimReply(w: WorkerId)
    | Call(w: WorkerId)
    | ProviderReply(w: WorkerId, messageId: MessageId, at: int)  // the worker's own clock
    | ProviderFailure(w: WorkerId, at: int)
    | Land(write: Write)
    | Lose(write: Write)
    | RecordReply(w: WorkerId)
    | RecordFailure(w: WorkerId, at: int)
    | Crash(w: WorkerId)

  function WorkerAt(s: System, w: WorkerId): Worker {
    if w in s.workers then s.workers[w] else Idle
  }

  ghost predicate Enabled(s: System, e: Event) {
    match e
    case Tick(now) => s.now <= now
    case OpenAlert(_, _, _) => true
    case SetStatus(id, status) => status != Open && UpdateStatus(s.tables, id, status).Some?
    case Purge(ids) => DeleteAlerts(s.tables, ids).Some?
    case Begin(w) => WorkerAt(s, w).Idle?
    case Pick(a, id) =>
      // The filter ran on the snapshot; FOR UPDATE re-reads the alert row but not the deliveries,
      // and SKIP LOCKED passes over rows another statement holds.
      && a < |s.statements| && s.statements[a].Started?
      && id in Eligible(s.statements[a].snapshot, s.statements[a].startedAt)
      && id in s.tables.alerts && Fresh(s.tables.alerts[id], s.statements[a].startedAt)
      && forall b | 0 <= b < |s.statements| :: s.statements[b] != Locked(id)
    case Insert(a) => a < |s.statements| && s.statements[a].Locked? && s.statements[a].id in s.tables.alerts
    case Fail(a) => a < |s.statements| && (s.statements[a].Started? || s.statements[a].Locked?)
    case ClaimReply(w) =>
      var v := WorkerAt(s, w);
      v.Claiming? && v.attempt < |s.statements| && (s.statements[v.attempt].Won? || s.statements[v.attempt].Over?)
    case Call(w) => WorkerAt(s, w).Claimed?
    case ProviderReply(w, _, _) => WorkerAt(s, w).Calling?
    case ProviderFailure(w, _) => WorkerAt(s, w).Calling?
    case Land(write) => write in s.wire && write.attempt < |s.statements| && s.statements[write.attempt].Won?
    case Lose(write) => write in s.wire
    case RecordReply(w) =>
      var v := WorkerAt(s, w);
      (v.Recording? || v.Abandoning?) && v.write in s.landed
    case RecordFailure(w, _) => WorkerAt(s, w).Recording?
    case Crash(w) => true
  }

  function Apply(keyed: bool, s: System, e: Event): System
    requires Enabled(s, e)
  {
    match e
    case Tick(now) => s.(now := now)
    case OpenAlert(id, key, createdAt) => s.(tables := InsertAlert(s.tables, id, key, createdAt))
    case SetStatus(id, status) => s.(tables := UpdateStatus(s.tables, id, status).value)
    case Purge(ids) => s.(tables := DeleteAlerts(s.tables, ids).value)
    case Begin(w) =>
      s.(statements := s.statements + [Started(s.tables, s.now)],
         workers := s.workers[w := Claiming(|s.statements|)])
    case Pick(a, id) => s.(statements := s.statements[a := Locked(id)])
    case Insert(a) =>
      var id := s.statements[a].id;
      if keyed && id in s.tables.deliveries then s.(statements := s.statements[a := Over])
      else s.(statements := s.statements[a := Won(id)], tables := InsertDelivery(s.tables, id))
    case Fail(a) => s.(statements := s.statements[a := Over])
    case ClaimReply(w) =>
      var a := WorkerAt(s, w).attempt;
      s.(workers := s.workers[w := if s.statements[a].Won? then Claimed(a) else Idle])
    case Call(w) =>
      var a := WorkerAt(s, w).attempt;
      s.(workers := s.workers[w := Calling(a)], calls := s.calls + [a])
    case ProviderReply(w, m, at) =>
      var a := WorkerAt(s, w).attempt;
      var write := Write(a, RecordSent(m, at));
      s.(workers := s.workers[w := Recording(a, write)], replies := s.replies[a := m], wire := s.wire + {write})
    case ProviderFailure(w, at) => GiveUp(s, w, at)
    case Land(write) =>
      s.(tables := RecordOutcome(s.tables, s.statements[write.attempt].id, write.outcome),
         wire := s.wire - {write}, landed := s.landed + {write})
    case Lose(write) => s.(wire := s.wire - {write})
    case RecordReply(w) => s.(workers := s.workers[w := Idle])
    case RecordFailure(w, at) => GiveUp(s, w, at)
    case Crash(w) => s.(workers := s.workers[w := Idle])
  }

  /** The catch block: issue the `uncertain` write. */
  function GiveUp(s: System, w: WorkerId, at: int): System
    requires WorkerAt(s, w).Calling? || WorkerAt(s, w).Recording?
  {
    var a := WorkerAt(s, w).attempt;
    var write := Write(a, RecordUncertain(at));
    s.(workers := s.workers[w := Abandoning(a, write)], wire := s.wire + {write})
  }

  ghost predicate Run(keyed: bool, s: System, es: seq<Event>)
    decreases |es|
  {
    es != [] ==> Enabled(s, es[0]) && Run(keyed, Apply(keyed, s, es[0]), es[1..])
  }

  ghost function End(keyed: bool, s: System, es: seq<Event>): System
    requires Run(keyed, s, es)
    decreases |es|
  {
    if es == [] then s else End(keyed, Apply(keyed, s, es[0]), es[1..])
  }

  /** Any tables that meet their constraints, and nobody at work. */
  ghost predicate Init(s: System) {
    && DedupUnique(s.tables) && ForeignKey(s.tables) && s.initial == s.tables.deliveries
    && s.statements == [] && s.workers == map[] && s.calls == [] && s.replies == map[]
    && s.wire == {} && s.landed == {}
  }

  // ---- The invariant ----------------------------------------------------------------------

  ghost predicate IsWon(s: System, a: Attempt) {
    a < |s.statements| && s.statements[a].Won?
  }

  /** What the primary key buys: two statements never win the same alert. */
  ghost predicate ClaimsOk(s: System) {
    && (forall a, b | 0 <= a < b < |s.statements| && s.statements[a].Won? && s.statements[b].Won? ::
          s.statements[a].id != s.statements[b].id)
    && (forall a | 0 <= a < |s.statements| && s.statements[a].Won? :: s.statements[a].id in s.tables.deliveries)
  }

  ghost predicate AttemptsOk(s: System) {
    forall w | w in s.workers && !s.workers[w].Idle? ::
      s.workers[w].attempt < |s.statements| &&
      (!s.workers[w].Claiming? ==> IsWon(s, s.workers[w].attempt))
  }

  ghost predicate AttemptsDistinct(s: System) {
    forall v, w | v in s.workers && w in s.workers && v != w && !s.workers[v].Idle? && !s.workers[w].Idle? ::
      s.workers[v].attempt != s.workers[w].attempt
  }

  /** No statement's alert is sent twice. */
  ghost predicate CallsDistinct(s: System) {
    && (forall i, j | 0 <= i < j < |s.calls| :: s.calls[i] != s.calls[j])
    && (forall a | a in s.calls :: IsWon(s, a))
  }

  /** A worker that has not called yet holds a statement that nobody has called for. */
  ghost predicate CallsByStage(s: System) {
    forall w | w in s.workers && !s.workers[w].Idle? ::
      s.workers[w].attempt in s.calls <==> !s.workers[w].Claiming? && !s.workers[w].Claimed?
  }

  ghost predicate RepliesOk(s: System) {
    && (forall a | a in s.replies :: a in s.calls)
    && (forall w | w in s.workers && s.workers[w].Calling? :: s.workers[w].attempt !in s.replies)
  }

  ghost predicate WireOk(s: System) {
    forall write | write in s.wire ::
      && IsWon(s, write.attempt) && write.attempt in s.calls
      && (write.outcome.RecordSent? ==>
            write.attempt in s.replies && s.replies[write.attempt] == write.outcome.messageId)
  }

  /** The provider answered the call of some statement that won `id` with message id `m`. */
  ghost predicate Answered(s: System, id: AlertId, m: MessageId) {
    exists a | a in s.replies && IsWon(s, a) :: s.statements[a].id == id && s.replies[a] == m
  }

  /** The provider was called for `id`. */
  ghost predicate WasCalled(s: System, id: AlertId) {
    exists a | a in s.calls && IsWon(s, a) :: s.statements[a].id == id
  }

  /** What a delivery row tells is so. */
  ghost predicate RowTruthful(s: System, id: AlertId, d: Delivery) {
    && (d.messageId.Some? ==> Answered(s, id, d.messageId.value))
    && (d.status == Sent ==> d.messageId.Some?)
    && (d.status != Processing ==> WasCalled(s, id) && d.completedAt.Some?)
    && (d.status == Processing ==> d == CLAIM)
  }

  ghost predicate Truthful(s: System) {
    forall id | id in s.tables.deliveries && id !in s.initial :: RowTruthful(s, id, s.tables.deliveries[id])
  }

  /** Rows from before the start stay as they are, and no statement wins their alerts. */
  ghost predicate InitialUntouched(s: System) {
    && (forall id | id in s.initial :: id in s.tables.deliveries && s.tables.deliveries[id] == s.initial[id])
    && (forall a | 0 <= a < |s.statements| && s.statements[a].Won? :: s.statements[a].id !in s.initial)
  }

  ghost predicate Inv(s: System) {
    && DedupUnique(s.tables) && ForeignKey(s.tables)
    && ClaimsOk(s) && AttemptsOk(s) && AttemptsDistinct(s) && CallsDistinct(s) && CallsByStage(s)
    && RepliesOk(s) && WireOk(s) && Truthful(s) && InitialUntouched(s)
  }

  lemma ConstraintsKept(s: System, e: Event)
    requires DedupUnique(s.tables) && ForeignKey(s.tables) && Enabled(s, e)
    ensures DedupUnique(Apply(true, s, e).tables) && ForeignKey(Apply(true, s, e).tables)
  {
    match e
    case OpenAlert(id, key, createdAt) => InsertAlertKeepsConstraints(s.tables, id, key, createdAt);
    case SetStatus(id, status) => UpdateStatusKeepsConstraints(s.tables, id, status);
    case Purge(ids) =>
      forall id | id in s.tables.deliveries ensures id in s.tables.alerts && id !in ids {
        assert id in ids ==> id in ids * s.tables.deliveries.Keys;
      }
    case Insert(a) =>
    case Land(write) =>
    case _ =>
  }

  lemma ClaimsKept(s: System, e: Event)
    requires ClaimsOk(s) && Enabled(s, e)
    ensures ClaimsOk(Apply(true, s, e))
  {}

  lemma AttemptsKept(s: System, e: Event)
    requires AttemptsOk(s) && Enabled(s, e)
    ensures AttemptsOk(Apply(true, s, e))
  {}

  lemma AttemptsStayDistinct(s: System, e: Event)
    requires AttemptsOk(s) && AttemptsDistinct(s) && Enabled(s, e)
    ensures AttemptsDistinct(Apply(true, s, e))
  {}

  lemma CallsStayDistinct(s: System, e: Event)
    requires AttemptsOk(s) && CallsDistinct(s) && CallsByStage(s) && Enabled(s, e)
    ensures CallsDistinct(Apply(true, s, e))
  {}

  lemma CallsByStageKept(s: System, e: Event)
    requires AttemptsOk(s) && AttemptsDistinct(s) && CallsDistinct(s) && CallsByStage(s) && Enabled(s, e)
    ensures CallsByStage(Apply(true, s, e))
  {}

  lemma RepliesKept(s: System, e: Event)
    requires RepliesOk(s) && AttemptsDistinct(s) && CallsByStage(s) && Enabled(s, e)
    ensures RepliesOk(Apply(true, s, e))
  {}

  lemma WireKept(s: System, e: Event)
    requires AttemptsOk(s) && CallsByStage(s) && RepliesOk(s) && WireOk(s) && Enabled(s, e)
    ensures WireOk(Apply(true, s, e))
  {}

  /** A won statement stays won, calls and replies stay what they are. */
  lemma EvidenceStays(s: System, e: Event, a: Attempt)
    requires RepliesOk(s) && Enabled(s, e) && IsWon(s, a)
    ensures IsWon(Apply(true, s, e), a) && Apply(true, s, e).statements[a] == s.statements[a]
    ensures a in s.calls ==> a in Apply(true, s, e).calls
    ensures a in s.replies ==> a in Apply(true, s, e).replies && Apply(true, s, e).replies[a] == s.replies[a]
  {}

  lemma EvidenceGrows(s: System, e: Event, id: AlertId)
    requires RepliesOk(s) && Enabled(s, e)
    ensures WasCalled(s, id) ==> WasCalled(Apply(true, s, e), id)
    ensures forall m | Answered(s, id, m) :: Answered(Apply(true, s, e), id, m)
  {
    if WasCalled(s, id) {
      var a :| a in s.calls && IsWon(s, a) && s.statements[a].id == id;
      EvidenceStays(s, e, a);
    }
    forall m | Answered(s, id, m) ensures Answered(Apply(true, s, e), id, m) {
      var a :| a in s.replies && IsWon(s, a) && s.statements[a].id == id && s.replies[a] == m;
      EvidenceStays(s, e, a);
    }
  }

  lemma LandedRowTruthful(s: System, write: Write)
    requires WireOk(s) && Truthful(s) && InitialUntouched(s) && write in s.wire && IsWon(s, write.attempt)
    requires s.statements[write.attempt].id in s.tables.deliveries
    ensures var id := s.statements[write.attempt].id;
            RowTruthful(s, id, Recorded(s.tables.deliveries[id], write.outcome))
  {
    var id := s.statements[write.attempt].id;
    assert RowTruthful(s, id, s.tables.deliveries[id]);
  }

  lemma RowStaysTruthful(s: System, e: Event, id: AlertId, d: Delivery)
    requires RepliesOk(s) && Enabled(s, e) && RowTruthful(s, id, d)
    ensures RowTruthful(Apply(true, s, e), id, d)
  {
    EvidenceGrows(s, e, id);
  }

  lemma TruthKept(s: System, e: Event)
    requires RepliesOk(s) && WireOk(s) && Truthful(s) && InitialUntouched(s) && Enabled(s, e)
    ensures Truthful(Apply(true, s, e))
  {
    var s' := Apply(true, s, e);
    forall id | id in s'.tables.deliveries && id !in s.initial ensures RowTruthful(s', id, s'.tables.deliveries[id]) {
      if id !in s.tables.deliveries {
        assert s'.tables.deliveries[id] == CLAIM;
      } else {
        if e.Land? && id == s.statements[e.write.attempt].id {
          LandedRowTruthful(s, e.write);
        } else {
          assert s'.tables.deliveries[id] == s.tables.deliveries[id];
        }
        RowStaysTruthful(s, e, id, s'.tables.deliveries[id]);
      }
    }
  }

  lemma InitialStaysUntouched(s: System, e: Event)
    requires WireOk(s) && InitialUntouched(s) && Enabled(s, e)
    ensures InitialUntouched(Apply(true, s, e))
  {
    var s' := Apply(true, s, e);
    forall a | 0 <= a < |s'.statements| && s'.statements[a].Won? ensures s'.statements[a].id !in s.initial {
      assert !(e.Insert? && e.a == a) ==> a < |s.statements| && s'.statements[a] == s.statements[a];
    }
    if e.Land? {
      assert s.statements[e.write.attempt].id !in s.initial;
    }
  }

  lemma InvKept(s: System, e: Event)
    requires Inv(s) && Enabled(s, e)
    ensures Inv(Apply(true, s, e))
  {
    ConstraintsKept(s, e);
    ClaimsKept(s, e);
    AttemptsKept(s, e);
    AttemptsStayDistinct(s, e);
    CallsStayDistinct(s, e);
    CallsByStageKept(s, e);
    RepliesKept(s, e);
    WireKept(s, e);
    TruthKept(s, e);
    InitialStaysUntouched(s, e);
  }

  lemma {:induction false} InvHoldsOnRuns(s: System, es: seq<Event>)
    requires Inv(s) && Run(true, s, es)
    ensures Inv(End(true, s, es))
    decreases |es|
  {
    if es == [] {
    } else {
      InvKept(s, es[0]);
      InvHoldsOnRuns(Apply(true, s, es[0]), es[1..]);
    }
  }

  // ---- Safety over all runs -----------------------------------------------------------------

  /** The alert each provider call was for; every call belongs to a statement that won one. */
  ghost predicate NoAlertCalledTwice(s: System) {
    && (forall i | 0 <= i < |s.calls| :: IsWon(s, s.calls[i]))
    && (forall i, j | 0 <= i < j < |s.calls| && IsWon(s, s.calls[i]) && IsWon(s, s.calls[j]) ::
          s.statements[s.calls[i]].id != s.statements[s.calls[j]].id)
  }

  /** With the primary key, no alert is ever sent twice, and none that had a delivery row at the start is
      sent at all: any number of workers, any interleaving, stale snapshots, crashes and restarts, replies
      and writes that come late or never. */
  lemma AtMostOneSendPerAlert(s: System, es: seq<Event>)
    requires Init(s) && Run(true, s, es)
    ensures var s' := End(true, s, es);
            && NoAlertCalledTwice(s')
            && forall i | 0 <= i < |s'.calls| ::
                 IsWon(s', s'.calls[i]) && s'.statements[s'.calls[i]].id !in s.tables.deliveries
  {
    InvHoldsOnRuns(s, es);
    InitialNeverChanges(s, es);
    var s' := End(true, s, es);
    forall i, j | 0 <= i < j < |s'.calls| && IsWon(s', s'.calls[i]) && IsWon(s', s'.calls[j])
      ensures s'.statements[s'.calls[i]].id != s'.statements[s'.calls[j]].id
    {
      var a, b := s'.calls[i], s'.calls[j];
      assert a != b;
    }
  }

  lemma {:induction false} InitialNeverChanges(s: System, es: seq<Event>)
    requires Run(true, s, es)
    ensures End(true, s, es).initial == s.initial
    decreases |es|
  {
    if es == [] {
    } else {
      InitialNeverChanges(Apply(true, s, es[0]), es[1..]);
    }
  }

  /** At most one unresolved alert per deduplication key, in every reachable state. */
  lemma OneLiveAlertPerKey(s: System, es: seq<Event>, key: string)
    requires Init(s) && Run(true, s, es)
    ensures |LiveIds(End(true, s, es).tables, key)| <= 1
  {
    InvHoldsOnRuns(s, es);
    var t := End(true, s, es).tables;
    var live := LiveIds(t, key);
    if live != {} {
      var id :| id in live;
      assert live == {id};
    }
  }

  /** A row from before the start is as it was then.  Of any other, what it says is so: `sent`, or a
      message id, tells what the provider answered. */
  lemma DeliveriesAreTruthful(s: System, es: seq<Event>)
    requires Init(s) && Run(true, s, es)
    ensures var s' := End(true, s, es);
            forall id | id in s'.tables.deliveries ::
              if id in s.tables.deliveries then s'.tables.deliveries[id] == s.tables.deliveries[id]
              else RowTruthful(s', id, s'.tables.deliveries[id])
  {
    InvHoldsOnRuns(s, es);
    InitialNeverChanges(s, es);
  }

  // ---- Permanence ----------------------------------------------------------------------------

  /** What can become of the delivery rows between two moments. */
  ghost predicate Extends(t: Tables, t': Tables) {
    && t.deliveries.Keys <= t'.deliveries.Keys
    && forall id | id in t.deliveries ::
         && (t.deliveries[id].status != Processing ==> t'.deliveries[id].status != Processing)
         && (t.deliveries[id].messageId.Some? ==> t'.deliveries[id].messageId == t.deliveries[id].messageId)
  }

  /** The id already stored and the one about to be stored come from the same, only call. */
  lemma OneMessageIdPerAlert(s: System, write: Write, m: MessageId)
    requires ClaimsOk(s) && WireOk(s) && write in s.wire && write.outcome.RecordSent?
    requires Answered(s, s.statements[write.attempt].id, m)
    ensures m == write.outcome.messageId
  {
    var a, id := write.attempt, s.statements[write.attempt].id;
    var b :| b in s.replies && IsWon(s, b) && s.statements[b].id == id && s.replies[b] == m;
    assert a == b;
  }

  lemma RowsExtend(s: System, e: Event)
    requires ClaimsOk(s) && WireOk(s) && Truthful(s) && InitialUntouched(s) && Enabled(s, e)
    ensures Extends(s.tables, Apply(true, s, e).tables)
  {
    match e
    case Land(write) => LandingExtends(s, write);
    case Insert(a) => assert s.statements[a].id !in s.tables.deliveries || Apply(true, s, e).tables == s.tables;
    case _ => assert Apply(true, s, e).tables.deliveries == s.tables.deliveries;
  }

  lemma LandingExtends(s: System, write: Write)
    requires ClaimsOk(s) && WireOk(s) && Truthful(s) && InitialUntouched(s) && write in s.wire
    ensures Extends(s.tables, RecordOutcome(s.tables, s.statements[write.attempt].id, write.outcome))
  {
    var id := s.statements[write.attempt].id;
    var d := s.tables.deliveries[id];
    if write.outcome.RecordSent? && d.messageId.Some? {
      assert RowTruthful(s, id, d);
      OneMessageIdPerAlert(s, write, d.messageId.value);
    }
  }

  /** From any reachable state on, a delivery row is never deleted, never goes back to
      `processing`, never changes a message id it holds, and keeps its alert out of every later
      claim, however the clock moves. */
  lemma DeliveriesArePermanent(s: System, es: seq<Event>, more: seq<Event>)
    requires Init(s) && Run(true, s, es) && Run(true, End(true, s, es), more)
    ensures var t, t' := End(true, s, es).tables, End(true, End(true, s, es), more).tables;
            && Extends(t, t')
            && forall id, now | id in t.deliveries :: id !in Eligible(t', now)
  {
    InvHoldsOnRuns(s, es);
    RunExtends(End(true, s, es), more);
  }

  lemma {:induction false} RunExtends(s: System, es: seq<Event>)
    requires Inv(s) && Run(true, s, es)
    ensures Extends(s.tables, End(true, s, es).tables)
    decreases |es|
  {
    if es == [] {
    } else {
      RowsExtend(s, es[0]);
      InvKept(s, es[0]);
      RunExtends(Apply(true, s, es[0]), es[1..]);
    }
  }

  // ---- Runs that must exist --------------------------------------------------------------------

  /** Put one step in front of a run. */
  lemma Prepend(keyed: bool, s: System, e: Event, es: seq<Event>) returns (longer: seq<Event>)
    requires Enabled(s, e) && Run(keyed, Apply(keyed, s, e), es)
    ensures longer == [e] + es && Run(keyed, s, longer)
    ensures End(keyed, s, longer) == End(keyed, Apply(keyed, s, e), es)
  {
    longer := [e] + es;
    assert longer[1..] == es;
  }

  /** The safety theorem rests on the primary key: without it, NOT EXISTS and SKIP LOCKED let two
      workers send any eligible alert twice, from any initial state that has one. */
  lemma WithoutKeyAnAlertIsSentTwice(s: System, id: AlertId) returns (es: seq<Event>)
    requires Init(s) && id in Eligible(s.tables, s.now)
    ensures Run(false, s, es) && !NoAlertCalledTwice(End(false, s, es))
  {
    var s1 := Apply(false, s, Begin(0));
    var s2 := Apply(false, s1, Begin(1));
    var s3 := Apply(false, s2, Pick(0, id));
    var s4 := Apply(false, s3, Insert(0));
    es := SecondWorkerClaimsToo(s4, s.tables, s.now, id);
    es := Prepend(false, s3, Insert(0), es);
    es := Prepend(false, s2, Pick(0, id), es);
    es := Prepend(false, s1, Begin(1), es);
    es := Prepend(false, s, Begin(0), es);
  }

  /** Its snapshot is from before the first claim, and the row lock is free again. */
  lemma SecondWorkerClaimsToo(s: System, snapshot: Tables, startedAt: int, id: AlertId) returns (es: seq<Event>)
    requires s.statements == [Won(id), Started(snapshot, startedAt)] && s.calls == []
    requires id in Eligible(snapshot, startedAt) && s.tables.alerts == snapshot.alerts
    requires WorkerAt(s, 0) == Claiming(0) && WorkerAt(s, 1) == Claiming(1)
    ensures Run(false, s, es) && !NoAlertCalledTwice(End(false, s, es))
  {
    var s1 := Apply(false, s, Pick(1, id));
    var s2 := Apply(false, s1, Insert(1));
    es := BothWinnersCall(s2, id);
    es := Prepend(false, s1, Insert(1), es);
    es := Prepend(false, s, Pick(1, id), es);
  }

  lemma BothWinnersCall(s: System, id: AlertId) returns (es: seq<Event>)
    requires s.statements == [Won(id), Won(id)] && s.calls == []
    requires WorkerAt(s, 0) == Claiming(0) && WorkerAt(s, 1) == Claiming(1)
    ensures Run(false, s, es) && !NoAlertCalledTwice(End(false, s, es))
  {
    var s1 := Apply(false, s, ClaimReply(0));
    var s2 := Apply(false, s1, ClaimReply(1));
    var s3 := Apply(false, s2, Call(0));
    var s4 := Apply(false, s3, Call(1));
    assert s4.calls[0] == 0 && s4.calls[1] == 1;
    assert IsWon(s4, 0) && IsWon(s4, 1);
    es := Prepend(false, s3, Call(1), []);
    es := Prepend(false, s2, Call(0), es);
    es := Prepend(false, s1, ClaimReply(1), es);
    es := Prepend(false, s, ClaimReply(0), es);
  }

  // ---- How final `sent` is ---------------------------------------------------------------------

  ghost predicate SaysSent(s: System, id: AlertId) {
    id in s.tables.deliveries && s.tables.deliveries[id].status == Sent
  }

  /** A statement that won the alert. */
  ghost predicate WonBy(s: System, a: Attempt, id: AlertId) {
    IsWon(s, a) && s.statements[a].id == id
  }

  /** No write of `uncertain` to the row is under way, and no worker still waits for its write of `sent`. */
  ghost predicate NothingPending(s: System, id: AlertId) {
    && (forall write | write in s.wire && WonBy(s, write.attempt, id) :: !write.outcome.RecordUncertain?)
    && (forall w | w in s.workers && s.workers[w].Recording? :: !WonBy(s, s.workers[w].attempt, id))
  }

  /** The worker whose call was answered is past its call. */
  lemma SentMeansAnswered(s: System, id: AlertId, a: Attempt)
    requires ClaimsOk(s) && RepliesOk(s) && Truthful(s) && InitialUntouched(s) && SaysSent(s, id) && WonBy(s, a, id)
    ensures a in s.replies && a in s.calls
    ensures forall w | w in s.workers && s.workers[w].Calling? :: s.workers[w].attempt != a
  {
    assert RowTruthful(s, id, s.tables.deliveries[id]);
    var b :| b in s.replies && IsWon(s, b) && s.statements[b].id == id;
    assert a == b;
  }

  /** Nobody wins an alert that has its row. */
  lemma NoNewWinner(s: System, e: Event, id: AlertId, a: Attempt)
    requires Enabled(s, e) && id in s.tables.deliveries
    ensures WonBy(Apply(true, s, e), a, id) ==> WonBy(s, a, id)
  {}

  lemma SentSurvives(s: System, e: Event, id: AlertId)
    requires Enabled(s, e) && SaysSent(s, id) && NothingPending(s, id)
    ensures SaysSent(Apply(true, s, e), id)
  {
    match e
    case Land(write) => assert !(write.outcome.RecordUncertain? && WonBy(s, write.attempt, id));
    case _ =>
  }

  lemma CallingIsNotForIt(s: System, w: WorkerId, id: AlertId)
    requires ClaimsOk(s) && RepliesOk(s) && Truthful(s) && InitialUntouched(s) && SaysSent(s, id)
    requires WorkerAt(s, w).Calling?
    ensures !WonBy(s, WorkerAt(s, w).attempt, id)
  {
    if WonBy(s, WorkerAt(s, w).attempt, id) {
      SentMeansAnswered(s, id, WorkerAt(s, w).attempt);
    }
  }

  /** A worker that gives up on the alert was waiting for its reply or its write. */
  lemma NewWriteIsNotForIt(s: System, e: Event, id: AlertId, write: Write)
    requires ClaimsOk(s) && RepliesOk(s) && Truthful(s) && InitialUntouched(s)
    requires Enabled(s, e) && SaysSent(s, id) && NothingPending(s, id)
    requires write in Apply(true, s, e).wire && write !in s.wire
    ensures !WonBy(s, write.attempt, id)
  {
    match e
    case ProviderReply(w, _, _) => CallingIsNotForIt(s, w, id);
    case ProviderFailure(w, _) => CallingIsNotForIt(s, w, id);
    case RecordFailure(w, _) => assert write.attempt == WorkerAt(s, w).attempt;
    case _ =>
  }

  lemma WaitersComeFromReplies(s: System, e: Event, w: WorkerId)
    requires Enabled(s, e) && w in Apply(true, s, e).workers && Apply(true, s, e).workers[w].Recording?
    ensures (e.ProviderReply? && e.w == w) || (w in s.workers && s.workers[w] == Apply(true, s, e).workers[w])
  {}

  lemma NewWaiterIsNotForIt(s: System, e: Event, id: AlertId, w: WorkerId)
    requires ClaimsOk(s) && RepliesOk(s) && Truthful(s) && InitialUntouched(s)
    requires Enabled(s, e) && SaysSent(s, id) && NothingPending(s, id)
    requires w in Apply(true, s, e).workers && Apply(true, s, e).workers[w].Recording?
    ensures !WonBy(s, Apply(true, s, e).workers[w].attempt, id)
  {
    WaitersComeFromReplies(s, e, w);
    if e.ProviderReply? && e.w == w {
      CallingIsNotForIt(s, w, id);
    }
  }

  lemma NothingPendingStays(s: System, e: Event, id: AlertId)
    requires Inv(s) && Enabled(s, e) && SaysSent(s, id) && NothingPending(s, id)
    ensures SaysSent(Apply(true, s, e), id) && NothingPending(Apply(true, s, e), id)
  {
    var s' := Apply(true, s, e);
    SentSurvives(s, e, id);
    forall write | write in s'.wire && WonBy(s', write.attempt, id) ensures !write.outcome.RecordUncertain? {
      NoNewWinner(s, e, id, write.attempt);
      if write !in s.wire {
        NewWriteIsNotForIt(s, e, id, write);
      }
    }
    forall w | w in s'.workers && s'.workers[w].Recording? ensures !WonBy(s', s'.workers[w].attempt, id) {
      NewWaiterIsNotForIt(s, e, id, w);
      NoNewWinner(s, e, id, s'.workers[w].attempt);
    }
  }

  lemma {:induction false} NothingPendingOnRuns(s: System, id: AlertId, es: seq<Event>)
    requires Inv(s) && Run(true, s, es) && SaysSent(s, id) && NothingPending(s, id)
    ensures SaysSent(End(true, s, es), id)
    decreases |es|
  {
    if es == [] {
    } else {
      NothingPendingStays(s, es[0], id);
      InvKept(s, es[0]);
      NothingPendingOnRuns(Apply(true, s, es[0]), id, es[1..]);
    }
  }

  lemma PendingWriteLands(s: System, write: Write, id: AlertId) returns (es: seq<Event>)
    requires ClaimsOk(s) && write in s.wire && WonBy(s, write.attempt, id) && write.outcome.RecordUncertain?
    ensures Run(true, s, es) && id in End(true, s, es).tables.deliveries
    ensures End(true, s, es).tables.deliveries[id] == Recorded(s.tables.deliveries[id], write.outcome)
  {
    es := Prepend(true, s, Land(write), []);
  }

  /** The worker sees its write of `sent` fail, and its write of `uncertain` lands. */
  lemma WaitingWorkerRewrites(s: System, w: WorkerId, id: AlertId, at: int) returns (es: seq<Event>)
    requires ClaimsOk(s) && WorkerAt(s, w).Recording? && WonBy(s, WorkerAt(s, w).attempt, id)
    ensures Run(true, s, es) && id in End(true, s, es).tables.deliveries
    ensures End(true, s, es).tables.deliveries[id] == Recorded(s.tables.deliveries[id], RecordUncertain(at))
  {
    var s1 := Apply(true, s, RecordFailure(w, at));
    es := PendingWriteLands(s1, WorkerAt(s1, w).write, id);
    es := Prepend(true, s, RecordFailure(w, at), es);
  }

  /** In any reachable state a row that says `sent` goes on saying so, whatever happens, if and only if
      no write of `uncertain` for that alert is under way and no worker still waits to hear that its write
      of `sent` was done. */
  lemma SentIsFinalIff(s: System, id: AlertId)
    requires Inv(s) && SaysSent(s, id)
    ensures (forall es | Run(true, s, es) :: SaysSent(End(true, s, es), id)) <==> NothingPending(s, id)
  {
    if NothingPending(s, id) {
      forall es | Run(true, s, es) ensures SaysSent(End(true, s, es), id) {
        NothingPendingOnRuns(s, id, es);
      }
    } else if write :| write in s.wire && WonBy(s, write.attempt, id) && write.outcome.RecordUncertain? {
      var es := PendingWriteLands(s, write, id);
      assert !SaysSent(End(true, s, es), id);
    } else {
      var w :| w in s.workers && s.workers[w].Recording? && WonBy(s, s.workers[w].attempt, id);
      var es := WaitingWorkerRewrites(s, w, id, 0);
      assert !SaysSent(End(true, s, es), id);
    }
  }

  /** The condition does fail: from any initial state with an eligible alert, a worker can get to where the
      row says `sent` and from there to where it says `uncertain`, with the same message id, because the
      write of `sent` took effect but was reported as failed. */
  lemma SentMayBecomeUncertain(s: System, w: WorkerId, id: AlertId, m: MessageId)
    returns (es: seq<Event>, more: seq<Event>)
    requires Init(s) && id in Eligible(s.tables, s.now)
    ensures Run(true, s, es) && Run(true, End(true, s, es), more)
    ensures var t, t' := End(true, s, es).tables, End(true, End(true, s, es), more).tables;
            && SaysSent(End(true, s, es), id) && t.deliveries[id].messageId == Some(m)
            && id in t'.deliveries && t'.deliveries[id].status == Uncertain && t'.deliveries[id].messageId == Some(m)
  {
    var s1 := Apply(true, s, Begin(w));
    var s2 := Apply(true, s1, Pick(0, id));
    var s3 := Apply(true, s2, Insert(0));
    es := WonClaimIsRecorded(s3, w, id, m);
    more := WaitingWorkerRewrites(End(true, s3, es), w, id, 0);
    es := Prepend(true, s2, Insert(0), es);
    es := Prepend(true, s1, Pick(0, id), es);
    es := Prepend(true, s, Begin(w), es);
  }

  lemma WonClaimIsRecorded(s: System, w: WorkerId, id: AlertId, m: MessageId) returns (es: seq<Event>)
    requires s.statements == [Won(id)] && WorkerAt(s, w) == Claiming(0) && id in s.tables.deliveries
    ensures Run(true, s, es)
    ensures var s' := End(true, s, es);
            && s'.statements == s.statements && WorkerAt(s', w).Recording? && WorkerAt(s', w).attempt == 0
            && SaysSent(s', id) && s'.tables.deliveries[id].messageId == Some(m) && ClaimsOk(s')
  {
    var s1 := Apply(true, s, ClaimReply(w));
    var s2 := Apply(true, s1, Call(w));
    var s3 := Apply(true, s2, ProviderReply(w, m, 0));
    var write := WorkerAt(s3, w).write;
    es := Prepend(true, s3, Land(write), []);
    es := Prepend(true, s2, ProviderReply(w, m, 0), es);
    es := Prepend(true, s1, Call(w), es);
    es := Prepend(true, s, ClaimReply(w), es);
  }

  // ---- The imperative worker as a run of this system ------------------------------------------

  ghost predicate NoCrash(es: seq<Event>) {
    forall i | 0 <= i < |es| :: !es[i].Crash?
  }

  /** The catch block, from the moment its write is issued. */
  lemma GiveUpIsARun(s: System, w: WorkerId, giveUp: W.Reply) returns (es: seq<Event>)
    requires WorkerAt(s, w).Abandoning? && WorkerAt(s, w).write in s.wire
    requires IsWon(s, WorkerAt(s, w).write.attempt)
    ensures Run(true, s, es) && WorkerAt(End(true, s, es), w).Idle? && End(true, s, es).calls == s.calls
    ensures !giveUp.NotApplied? ==> NoCrash(es)
    ensures End(true, s, es).tables ==
            if giveUp.NotApplied? then s.tables
            else RecordOutcome(s.tables, s.statements[WorkerAt(s, w).write.attempt].id, WorkerAt(s, w).write.outcome)
  {
    var write := WorkerAt(s, w).write;
    if giveUp.NotApplied? {
      es := Prepend(true, s, Crash(w), []);
    } else {
      var s1 := Apply(true, s, Land(write));
      es := Prepend(true, s1, RecordReply(w), []);
      es := Prepend(true, s, Land(write), es);
    }
  }

  /** From the write of `sent` on. */
  lemma RecordIsARun(s: System, w: WorkerId, ends: W.Ends) returns (es: seq<Event>)
    requires WorkerAt(s, w).Recording? && WorkerAt(s, w).write in s.wire
    requires WorkerAt(s, w).write.attempt == WorkerAt(s, w).attempt && IsWon(s, WorkerAt(s, w).attempt)
    ensures Run(true, s, es) && WorkerAt(End(true, s, es), w).Idle? && End(true, s, es).calls == s.calls
    ensures ends.record.Applied? || ends.giveUp.Applied? ==> NoCrash(es)
    ensures var id := s.statements[WorkerAt(s, w).attempt].id;
            var t := if ends.record.NotApplied? then s.tables
                     else RecordOutcome(s.tables, id, WorkerAt(s, w).write.outcome);
            End(true, s, es).tables ==
            if ends.record.Applied? || ends.giveUp.NotApplied? then t
            else RecordOutcome(t, id, RecordUncertain(ends.gaveUpAt))
  {
    var write, failure := WorkerAt(s, w).write, RecordFailure(w, ends.gaveUpAt);
    if ends.record.NotApplied? {
      es := GiveUpIsARun(Apply(true, s, failure), w, ends.giveUp);
      es := Prepend(true, s, failure, es);
    } else {
      var s1 := Apply(true, s, Land(write));
      if ends.record.Applied? {
        es := Prepend(true, s1, RecordReply(w), []);
      } else {
        es := GiveUpIsARun(Apply(true, s1, failure), w, ends.giveUp);
        es := Prepend(true, s1, failure, es);
      }
      es := Prepend(true, s, Land(write), es);
    }
  }

  /** Everything from the provider's answer on. */
  lemma AnswerIsARun(s: System, w: WorkerId, ends: W.Ends)
    returns (es: seq<Event>)
    requires WorkerAt(s, w).Calling? && IsWon(s, WorkerAt(s, w).attempt)
    ensures Run(true, s, es) && WorkerAt(End(true, s, es), w).Idle? && End(true, s, es).calls == s.calls
    ensures (ends.send.Accepted? && ends.record.Applied?) || ends.giveUp.Applied? ==> NoCrash(es)
    ensures var id := s.statements[WorkerAt(s, w).attempt].id;
            End(true, s, es).tables == RecordAll(s.tables, id, W.Writes(W.Applied, ends))
  {
    var id := s.statements[WorkerAt(s, w).attempt].id;
    RecordAllShort(s.tables, id, W.Writes(W.Applied, ends));
    if ends.send.SendThrows? {
      es := GiveUpIsARun(Apply(true, s, ProviderFailure(w, ends.gaveUpAt)), w, ends.giveUp);
      es := Prepend(true, s, ProviderFailure(w, ends.gaveUpAt), es);
    } else {
      var reply := ProviderReply(w, ends.send.messageId, ends.sentAt);
      es := RecordIsARun(Apply(true, s, reply), w, ends);
      es := Prepend(true, s, reply, es);
    }
  }

  /** Everything from a won claim's reply on. */
  lemma WonClaimIsARun(s: System, w: WorkerId, ends: W.Ends)
    returns (es: seq<Event>)
    requires WorkerAt(s, w).Claiming? && IsWon(s, WorkerAt(s, w).attempt)
    ensures Run(true, s, es) && WorkerAt(End(true, s, es), w).Idle?
    ensures End(true, s, es).calls == s.calls + [WorkerAt(s, w).attempt]
    ensures (ends.send.Accepted? && ends.record.Applied?) || ends.giveUp.Applied? ==> NoCrash(es)
    ensures var id := s.statements[WorkerAt(s, w).attempt].id;
            End(true, s, es).tables == RecordAll(s.tables, id, W.Writes(W.Applied, ends))
  {
    var s1 := Apply(true, s, ClaimReply(w));
    es := AnswerIsARun(Apply(true, s1, Call(w)), w, ends);
    es := Prepend(true, s1, Call(w), es);
    es := Prepend(true, s, ClaimReply(w), es);
  }

  /** Everything from a won claim on, whether its reply arrives or not. */
  lemma AfterClaimIsARun(s: System, w: WorkerId, claim: W.Reply, ends: W.Ends) returns (es: seq<Event>)
    requires WorkerAt(s, w).Claiming? && IsWon(s, WorkerAt(s, w).attempt) && !claim.NotApplied?
    ensures Run(true, s, es) && WorkerAt(End(true, s, es), w).Idle?
    ensures End(true, s, es).calls == s.calls + if claim.Applied? then [WorkerAt(s, w).attempt] else []
    ensures claim.Applied? && ((ends.send.Accepted? && ends.record.Applied?) || ends.giveUp.Applied?) ==> NoCrash(es)
    ensures var id := s.statements[WorkerAt(s, w).attempt].id;
            End(true, s, es).tables == RecordAll(s.tables, id, W.Writes(claim, ends))
  {
    if claim.AppliedUnreported? {
      es := Prepend(true, s, Crash(w), []);
    } else {
      es := WonClaimIsARun(s, w, ends);
    }
  }

  /** A call of the worker that finds an alert, as the imperative `RunOnce` specifies it, is a run
      of this system: same tables, same provider call, and the worker ends idle; without any crash when the
      call returned. */
  lemma RunOnceIsARun(s: System, w: WorkerId, id: AlertId, claim: W.Reply, ends: W.Ends) returns (es: seq<Event>)
    requires WorkerAt(s, w).Idle? && IsOldest(s.tables, s.now, id)
    requires forall b | 0 <= b < |s.statements| :: s.statements[b] != Locked(id)
    requires !claim.NotApplied?
    ensures Run(true, s, es) && WorkerAt(End(true, s, es), w).Idle?
    ensures End(true, s, es).tables ==
            RecordAll(InsertDelivery(s.tables, id), id, W.Writes(claim, ends))
    ensures End(true, s, es).calls == s.calls + if claim.Applied? then [|s.statements|] else []
    ensures claim.Applied? && ((ends.send.Accepted? && ends.record.Applied?) || ends.giveUp.Applied?) ==> NoCrash(es)
  {
    var a := |s.statements|;
    var s1 := Apply(true, s, Begin(w));
    var s2 := Apply(true, s1, Pick(a, id));
    var s3 := Apply(true, s2, Insert(a));
    es := AfterClaimIsARun(s3, w, claim, ends);
    es := Prepend(true, s2, Insert(a), es);
    es := Prepend(true, s1, Pick(a, id), es);
    es := Prepend(true, s, Begin(w), es);
  }

  /** Everything but the tables is as it was. */
  ghost predicate OnlyTables(s: System, s': System, tables: Tables) {
    s' == s.(tables := tables)
  }

  /** The repository's calls and a purge are steps of this system too, open to anybody at any time: what they do
      to the tables is what the statements do, and nothing else moves. */
  lemma RepositoryCallsAreSteps(s: System, id: AlertId, kind: string, entityId: string, now: int, ids: set<AlertId>)
    ensures var open := OpenAlert(id, DeduplicationKey(kind, entityId), now);
            Enabled(s, open)
            && OnlyTables(s, Apply(true, s, open), InsertAlert(s.tables, id, DeduplicationKey(kind, entityId), now))
    ensures Enabled(s, SetStatus(id, Resolved))
            && Some(Apply(true, s, SetStatus(id, Resolved)).tables) == UpdateStatus(s.tables, id, Resolved)
            && OnlyTables(s, Apply(true, s, SetStatus(id, Resolved)), Apply(true, s, SetStatus(id, Resolved)).tables)
    ensures Enabled(s, SetStatus(id, Read)) <==> UpdateStatus(s.tables, id, Read).Some?
    ensures Enabled(s, SetStatus(id, Read)) ==>
              OnlyTables(s, Apply(true, s, SetStatus(id, Read)), UpdateStatus(s.tables, id, Read).value)
    ensures Enabled(s, Purge(ids)) <==> forall r | r in ids :: r !in s.tables.deliveries
    ensures Enabled(s, Purge(ids)) ==>
              OnlyTables(s, Apply(true, s, Purge(ids)), DeleteAlerts(s.tables, ids).value)
  {
    PurgeRejectedIff(s.tables, ids);
  }
}
