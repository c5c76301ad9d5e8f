// The alert repository and the alert worker as objects over one mutable database, each call run
// on its own.  Interleavings of many workers are the subject of module AlertProtocol.
module OwnerAlertWorkers {
  import opened Wrappers
  import opened AlertTables

  class Database {
    var tables: Tables

    constructor (tables: Tables)
      ensures this.tables == tables
    {
      this.tables := tables;
    }
  }

  /** The message provider; `calls` lists the alerts it was asked to deliver, in order. */
  class MetaWhatsAppClient {
    var calls: seq<AlertId>

    constructor ()
      ensures calls == []
    {
      calls := [];
    }

    method SendOwnerAlert(id: AlertId)
      modifies this
      ensures calls == old(calls) + [id]
    {
      calls := calls + [id];
    }
  }

  // ---- Repository -------------------------------------------------------------------------

  /** What `open` may hand back: the row it inserted, or on a conflict any row with that key,
      because the second select has no status filter. */
  ghost predicate OpenMayReturn(t: Tables, id: AlertId, key: string, row: Option<AlertId>) {
    if InsertAlert(t, id, key, 0) != t then row == Some(id)
    else match row
      case Some(r) => r in t.alerts && t.alerts[r].key == key
      case None => forall r | r in t.alerts :: t.alerts[r].key != key
  }

  /** How an update of one alert ends: with an error, with no row to return, or with the new row. */
  datatype Update = Rejected | NoRow | Row(alert: Alert)

  /** No row exactly for an unknown id; otherwise the row as it is now, with the key and the creation time
      it always had. */
  ghost predicate Describes(result: Update, before: Tables, after: Tables, id: AlertId) {
    match result
    case Rejected => false
    case NoRow => id !in before.alerts
    case Row(alert) =>
      && id in before.alerts && id in after.alerts && after.alerts[id] == alert
      && alert.key == before.alerts[id].key && alert.createdAt == before.alerts[id].createdAt
  }

  /** Of all that is stored only the status of that alert changes, and only if the update is done. */
  ghost predicate ChangesStatus(before: Tables, after: Tables, id: AlertId, status: AlertStatus, done: bool) {
    && after.deliveries == before.deliveries && after.alerts.Keys == before.alerts.Keys
    && forall r | r in before.alerts ::
         && after.alerts[r].key == before.alerts[r].key && after.alerts[r].createdAt == before.alerts[r].createdAt
         && after.alerts[r].status == if r == id && done then status else before.alerts[r].status
  }

  class PostgresAlertRepository {
    const database: Database

    constructor (database: Database)
      ensures this.database == database
    {
      this.database := database;
    }

    method Open(id: AlertId, kind: string, entityId: string, now: int) returns (row: Option<AlertId>)
      modifies database
      ensures database.tables == InsertAlert(old(database.tables), id, DeduplicationKey(kind, entityId), now)
      ensures var was := old(database.tables);
              if id !in was.alerts && forall r | r in was.alerts && was.alerts[r].key == kind + ":" + entityId ::
                                        was.alerts[r].status == Resolved
              then database.tables ==
                   Tables(was.alerts[id := Alert(kind + ":" + entityId, now, AlertStatus.Open)], was.deliveries)
              else database.tables == was
      ensures OpenMayReturn(old(database.tables), id, DeduplicationKey(kind, entityId), row)
    {
      var key := DeduplicationKey(kind, entityId);
      var before := database.tables;
      InsertAlertIs(before, id, key, now);
      database.tables := InsertAlert(before, id, key, now);
      if id !in before.alerts && id in database.tables.alerts {
        return Some(id);
      }
      if existing :| existing in before.alerts && before.alerts[existing].key == key {
        return Some(existing);
      }
      return None;
    }

    /** Rejected by the unique index, the update leaves the tables alone. */
    method MarkRead(id: AlertId) returns (result: Update)
      modifies database
      ensures UpdateStatus(old(database.tables), id, Read).None? ==>
                result == Rejected && database.tables == old(database.tables)
      ensures UpdateStatus(old(database.tables), id, Read).Some? ==>
                database.tables == UpdateStatus(old(database.tables), id, Read).value
                && Describes(result, old(database.tables), database.tables, id)
      ensures result.Row? ==> result.alert.status == Read
      ensures ChangesStatus(old(database.tables), database.tables, id, Read, result != Rejected)
      ensures result == Rejected <==>
              var was := old(database.tables).alerts;
              id in was && exists r | r in was :: r != id && was[r].status != Resolved && was[r].key == was[id].key
    {
      UpdateStatusRejects(database.tables, id, Read);
      result := SetStatus(id, Read);
    }

    method Resolve(id: AlertId) returns (result: Update)
      modifies database
      ensures Some(database.tables) == UpdateStatus(old(database.tables), id, Resolved)
      ensures Describes(result, old(database.tables), database.tables, id)
      ensures result.Row? ==> result.alert.status == Resolved
      ensures ChangesStatus(old(database.tables), database.tables, id, Resolved, true)
    {
      result := SetStatus(id, Resolved);
    }

    method SetStatus(id: AlertId, status: AlertStatus) returns (result: Update)
      modifies database
      ensures UpdateStatus(old(database.tables), id, status).None? ==>
                result == Rejected && database.tables == old(database.tables)
      ensures UpdateStatus(old(database.tables), id, status).Some? ==>
                database.tables == UpdateStatus(old(database.tables), id, status).value
                && Describes(result, old(database.tables), database.tables, id)
      ensures result.Row? ==> result.alert.status == status
      ensures ChangesStatus(old(database.tables), database.tables, id, status, result != Rejected)
    {
      var updated := UpdateStatus(database.tables, id, status);
      if updated.None? {
        return Rejected;
      }
      database.tables := updated.value;
      return if id in updated.value.alerts then Row(updated.value.alerts[id]) else NoRow;
    }
  }

  /** `open` is sure to hand back a live row exactly when it inserts, or when the key has a live
      row and no resolved one that the unfiltered select could pick instead. */
  lemma OpenReturnsLiveRowIff(t: Tables, id: AlertId, key: string, now: int)
    ensures (forall row | OpenMayReturn(t, id, key, row) ::
               row.Some? && row.value in LiveIds(InsertAlert(t, id, key, now), key))
            <==>
            (if LiveIds(t, key) == {} then id !in t.alerts
             else forall r | r in t.alerts && t.alerts[r].key == key :: t.alerts[r].Live())
  {
    var t' := InsertAlert(t, id, key, now);
    var withKey := set r | r in t.alerts && t.alerts[r].key == key;
    var resolved := set r | r in withKey && !t.alerts[r].Live();
    if LiveIds(t, key) == {} && id !in t.alerts {
      assert InsertAlert(t, id, key, 0) != t by {
        assert id in InsertAlert(t, id, key, 0).alerts;
      }
      assert id in LiveIds(t', key);
    } else if withKey == {} {
      assert LiveIds(t, key) == {} by {
        assert LiveIds(t, key) <= withKey;
      }
      forall r | r in t.alerts ensures t.alerts[r].key != key {
        assert r !in withKey;
      }
      assert OpenMayReturn(t, id, key, None);
    } else if resolved != {} {
      var r :| r in resolved;
      assert OpenMayReturn(t, id, key, Some(r));
      assert r !in LiveIds(t', key);
    } else {
      forall r | r in withKey ensures r in LiveIds(t, key) {
        assert r !in resolved;
      }
      forall r | r in t.alerts && t.alerts[r].key == key ensures t.alerts[r].Live() {
        assert r in withKey;
      }
    }
  }

  // ---- Worker -----------------------------------------------------------------------------

  /** What reading the settings gives. */
  datatype Config = Unreadable | Absent | Config(ownerAlertPhone: string, ownerAlertTemplate: string)

  /** An empty phone or template counts as not configured. */
  predicate Configured(config: Config) {
    config.Config? && config.ownerAlertPhone != "" && config.ownerAlertTemplate != ""
  }

  /** How a database statement ends: done, done but reported as failed, or not done at all. */
  datatype Reply = Applied | AppliedUnreported | NotApplied

  datatype SendReply = Accepted(messageId: MessageId) | SendThrows

  /** How the send and the two updates end, and what the clock reads for each update. */
  datatype Ends = Ends(send: SendReply, record: Reply, giveUp: Reply, sentAt: int, gaveUpAt: int)

  datatype Result = Returned(worked: bool) | Threw

  /** The writes that reach the delivery row after a claim. */
  function Writes(claim: Reply, ends: Ends): seq<Outcome> {
    if !claim.Applied? then []
    else
      (if ends.send.Accepted? && !ends.record.NotApplied? then [RecordSent(ends.send.messageId, ends.sentAt)] else []) +
      (if (ends.send.SendThrows? || !ends.record.Applied?) && !ends.giveUp.NotApplied?
       then [RecordUncertain(ends.gaveUpAt)] else [])
  }

  /** ORDER BY created_at LIMIT 1: any of the oldest. */
  method SelectOldest(t: Tables, now: int) returns (id: AlertId)
    requires Eligible(t, now) != {}
    ensures IsOldest(t, now, id)
  {
    ghost var oldest := OldestExists(t, now, Eligible(t, now));
    assert IsOldest(t, now, oldest);
    id :| id in t.alerts && IsOldest(t, now, id);
  }

  // ---- Draining with a single worker ------------------------------------------------------

  /** A round that claimed an alert: when, which one, and what was written to its row. */
  datatype Round = Round(now: int, id: AlertId, writes: seq<Outcome>)

  function After(t: Tables, round: Round): Tables {
    RecordAll(InsertDelivery(t, round.id), round.id, round.writes)
  }

  /** Consecutive claiming rounds of one worker, with the clock moving forward and no new alerts. */
  ghost predicate Drains(t: Tables, rounds: seq<Round>)
    decreases |rounds|
  {
    rounds != [] ==>
      && IsOldest(t, rounds[0].now, rounds[0].id)
      && (|rounds| > 1 ==> rounds[0].now <= rounds[1].now)
      && Drains(After(t, rounds[0]), rounds[1..])
  }

  lemma {:induction false} DrainPicksFromInitialSet(t: Tables, rounds: seq<Round>, now: int)
    requires Drains(t, rounds)
    requires rounds != [] ==> now <= rounds[0].now
    ensures forall k | 0 <= k < |rounds| :: rounds[k].id in Eligible(t, now)
    ensures |rounds| <= |Eligible(t, now)|
    decreases |rounds|
  {
    if rounds == [] {
    } else {
      var first := rounds[0];
      EligibleShrinksWithTime(t, now, first.now);
      ClaimRemovesExactlyOne(t, first.now, first.id, first.writes);
      DrainPicksFromInitialSet(After(t, first), rounds[1..], first.now);
      forall k | 0 <= k < |rounds| ensures rounds[k].id in Eligible(t, now) {
        assert k > 0 ==> rounds[k] == rounds[1..][k - 1];
      }
      assert Eligible(t, now) == Eligible(t, first.now) + (Eligible(t, now) - Eligible(t, first.now));
    }
  }

  /** Draining ends within the size of the initial eligible set, never repeats an alert, and
      attempts alerts in the order of their creation, whatever each send did. */
  lemma {:induction false} DrainIsBoundedAndOrdered(t: Tables, rounds: seq<Round>)
    requires rounds != [] && Drains(t, rounds)
    ensures |rounds| <= |Eligible(t, rounds[0].now)|
    ensures forall k | 0 <= k < |rounds| :: rounds[k].id in t.alerts
    ensures forall i, j | 0 <= i < j < |rounds| ::
              rounds[i].id != rounds[j].id &&
              t.alerts[rounds[i].id].createdAt <= t.alerts[rounds[j].id].createdAt
    decreases |rounds|
  {
    var first, rest := rounds[0], rounds[1..];
    DrainPicksFromInitialSet(t, rounds, first.now);
    if rest == [] {
    } else {
      RecordAllKeepsRows(InsertDelivery(t, first.id), first.id, first.writes);
      ClaimRemovesExactlyOne(t, first.now, first.id, first.writes);
      DrainPicksFromInitialSet(After(t, first), rest, first.now);
      DrainIsBoundedAndOrdered(After(t, first), rest);
      forall i, j | 0 <= i < j < |rounds|
        ensures rounds[i].id != rounds[j].id
        ensures t.alerts[rounds[i].id].createdAt <= t.alerts[rounds[j].id].createdAt
      {
        assert rounds[j] == rest[j - 1];
        if i > 0 {
          assert rounds[i] == rest[i - 1];
        }
      }
    }
  }

  ghost function AfterAll(t: Tables, rounds: seq<Round>): Tables
    decreases |rounds|
  {
    if rounds == [] then t else AfterAll(After(t, rounds[0]), rounds[1..])
  }

  lemma {:induction false} DrainsOneMore(t: Tables, rounds: seq<Round>, next: Round)
    requires Drains(t, rounds) && IsOldest(AfterAll(t, rounds), next.now, next.id)
    requires rounds != [] ==> rounds[|rounds| - 1].now <= next.now
    ensures Drains(t, rounds + [next]) && AfterAll(t, rounds + [next]) == After(AfterAll(t, rounds), next)
    decreases |rounds|
  {
    var longer := rounds + [next];
    if rounds == [] {
      assert longer[1..] == [];
    } else {
      assert longer[1..] == rounds[1..] + [next];
      DrainsOneMore(After(t, rounds[0]), rounds[1..], next);
    }
  }

  /** Rounds 0, 1, ... of one worker at the times of its clock, and the alerts they picked. */
  ghost predicate Drained(t0: Tables, t: Tables, rounds: seq<Round>, picks: seq<AlertId>, clock: nat -> int) {
    && |rounds| == |picks| && Drains(t0, rounds) && t == AfterAll(t0, rounds)
    && (forall k | 0 <= k < |picks| :: rounds[k].id == picks[k] && rounds[k].now == clock(k))
    && (forall id, now | id in Eligible(t0, now) && id !in picks :: id in Eligible(t, now))
  }

  lemma DrainedOneMore(t0: Tables, t: Tables, rounds: seq<Round>, picks: seq<AlertId>, clock: nat -> int, next: Round)
    requires Drained(t0, t, rounds, picks, clock)
    requires forall m: nat, n: nat | m <= n :: clock(m) <= clock(n)
    requires next.now == clock(|picks|) && IsOldest(t, next.now, next.id)
    ensures Drained(t0, After(t, next), rounds + [next], picks + [next.id], clock)
    ensures |Eligible(After(t, next), clock(0))| < |Eligible(t, clock(0))|
  {
    DrainsOneMore(t0, rounds, next);
    EligibleShrinksWithTime(t, clock(0), next.now);
    forall now ensures Eligible(After(t, next), now) == Eligible(t, now) - {next.id} {
      ClaimRemovesExactlyOne(t, now, next.id, next.writes);
    }
  }

  /** Unresolved, younger than 24 hours, and without a delivery row. */
  ghost predicate MayBeSent(t: Tables, now: int, id: AlertId) {
    && id in t.alerts && id !in t.deliveries
    && (t.alerts[id].status == AlertStatus.Open || t.alerts[id].status == Read)
    && now < t.alerts[id].createdAt + 24 * 60 * 60
  }

  class OwnerAlertWorker {
    const database: Database
    const client: MetaWhatsAppClient

    constructor (database: Database, client: MetaWhatsAppClient)
      ensures this.database == database && this.client == client
    {
      this.database := database;
      this.client := client;
    }

    /** One round.  `claim` and `ends` say how the outside operations end; `picked` is the alert the
        claim inserted. */
    method RunOnce(config: Config, now: int, claim: Reply, ends: Ends)
      returns (result: Result, picked: Option<AlertId>)
      modifies database, client
      ensures picked.Some? <==>
              Configured(config) && !claim.NotApplied? && Eligible(old(database.tables), now) != {}
      ensures picked.Some? ==> IsOldest(old(database.tables), now, picked.value)
      ensures database.tables ==
              if picked.None? then old(database.tables)
              else RecordAll(InsertDelivery(old(database.tables), picked.value), picked.value,
                             Writes(claim, ends))
      ensures picked.None? ==> database.tables == old(database.tables)
      ensures picked.Some? ==>
                var was, now', id := old(database.tables), database.tables, picked.value;
                && id in was.alerts && id !in was.deliveries && now'.alerts == was.alerts
                && now'.deliveries.Keys == was.deliveries.Keys + {id}
                && (forall r | r in was.deliveries :: now'.deliveries[r] == was.deliveries[r])
                && now'.deliveries[id] ==
                   var sent := claim.Applied? && ends.send.Accepted? && !ends.record.NotApplied?;
                   var gaveUp := claim.Applied? && !(ends.send.Accepted? && ends.record.Applied?)
                                 && !ends.giveUp.NotApplied?;
                   var messageId := if sent then Some(ends.send.messageId) else None;
                   if gaveUp then Delivery(Uncertain, messageId, Some(ends.gaveUpAt))
                   else if sent then Delivery(Sent, messageId, Some(ends.sentAt))
                   else Delivery(Processing, None, None)
      ensures picked.Some? ==> MayBeSent(old(database.tables), now, picked.value)
      ensures forall id | MayBeSent(old(database.tables), now, id) ::
                (Configured(config) && !claim.NotApplied? ==> picked.Some?)
                && (picked.Some? ==>
                      old(database.tables).alerts[picked.value].createdAt <= old(database.tables).alerts[id].createdAt)
      ensures client.calls == old(client.calls) + if picked.Some? && claim.Applied? then [picked.value] else []
      ensures result == Returned(false) <==>
              if !Configured(config) then !config.Unreadable?
              else claim.Applied? && Eligible(old(database.tables), now) == {}
      ensures result == Returned(true) <==>
              picked.Some? && claim.Applied? && ((ends.send.Accepted? && ends.record.Applied?) || ends.giveUp.Applied?)
    {
      picked := None;
      if !Configured(config) {
        return if config.Unreadable? then Threw else Returned(false), None;
      }
      if claim.NotApplied? {
        return Threw, None;
      }
      var t := database.tables;
      assert forall id :: id in Eligible(t, now) <==> MayBeSent(t, now, id);
      if Eligible(t, now) == {} {
        return if claim.Applied? then Returned(false) else Threw, None;
      }
      var id := SelectOldest(t, now);
      picked := Some(id);
      database.tables := InsertDelivery(t, id);
      ghost var claimed := database.tables;
      if claim.AppliedUnreported? {
        return Threw, picked;
      }

      client.SendOwnerAlert(id);
      RecordAllShort(claimed, id, Writes(claim, ends));
      if ends.send.Accepted? {
        if !ends.record.NotApplied? {
          database.tables := RecordOutcome(database.tables, id, RecordSent(ends.send.messageId, ends.sentAt));
        }
        if ends.record.Applied? {
          return Returned(true), picked;
        }
      }
      // The catch block.
      if !ends.giveUp.NotApplied? {
        database.tables := RecordOutcome(database.tables, id, RecordUncertain(ends.gaveUpAt));
      }
      return if ends.giveUp.Applied? then Returned(true) else Threw, picked;
    }

    /** One worker, round after round until one finds nothing: round n starts at clock(n), its claim is
        answered, and its send and updates end as they may. */
    method Drain(config: Config, clock: nat -> int, ends: nat -> Ends) returns (picks: seq<AlertId>)
      requires Configured(config) && forall m: nat, n: nat | m <= n :: clock(m) <= clock(n)
      modifies database, client
      ensures Eligible(database.tables, clock(|picks|)) == {}
      ensures |picks| <= |Eligible(old(database.tables), clock(0))|
      ensures forall k | 0 <= k < |picks| :: picks[k] in Eligible(old(database.tables), clock(0))
      ensures forall id | id in Eligible(old(database.tables), clock(|picks|)) :: id in picks
      ensures forall i, j | 0 <= i < j < |picks| ::
                picks[i] != picks[j] &&
                old(database.tables).alerts[picks[i]].createdAt <= old(database.tables).alerts[picks[j]].createdAt
      ensures client.calls == old(client.calls) + picks
    {
      picks := [];
      ghost var t0, rounds: seq<Round> := database.tables, [];
      var result := Returned(true);
      while result != Returned(false)
        invariant result == Returned(false) ==> Eligible(database.tables, clock(|picks|)) == {}
        invariant client.calls == old(client.calls) + picks
        invariant Drained(t0, database.tables, rounds, picks, clock)
        decreases |Eligible(database.tables, clock(0))|, result != Returned(false)
      {
        ghost var t := database.tables;
        var picked;
        result, picked := RunOnce(config, clock(|picks|), Applied, ends(|picks|));
        if picked.Some? {
          ghost var round := Round(clock(|picks|), picked.value, Writes(Applied, ends(|picks|)));
          DrainedOneMore(t0, t, rounds, picks, clock, round);
          rounds, picks := rounds + [round], picks + [picked.value];
        }
      }
      if picks != [] {
        DrainIsBoundedAndOrdered(t0, rounds);
        DrainPicksFromInitialSet(t0, rounds, clock(0));
      }
    }
  }
}
