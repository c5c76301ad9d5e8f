// The two alert tables and the SQL statements that touch them.  A statement is a function from
// the tables it sees to the tables it leaves; the constraints are part of the statement.
module AlertTables {
  import opened Wrappers

  type AlertId = string
  type MessageId = string

  /** `interval '1 day'`, in seconds. */
  const DAY := 86_400

  datatype AlertStatus = Open | Read | Resolved

  datatype Alert = Alert(key: string, createdAt: int, status: AlertStatus) {
    predicate Live() { status != Resolved }
  }

  datatype DeliveryStatus = Processing | Sent | Uncertain

  datatype Delivery =
    Delivery(status: DeliveryStatus, messageId: Option<MessageId>, completedAt: Option<int>)

  const CLAIM := Delivery(Processing, None, None)

  datatype Tables = Tables(alerts: map<AlertId, Alert>, deliveries: map<AlertId, Delivery>)

  /** What the worker writes once the provider call is over. */
  datatype Outcome = RecordSent(messageId: MessageId, at: int) | RecordUncertain(at: int)

  function LiveIds(t: Tables, key: string): set<AlertId> {
    set id | id in t.alerts && t.alerts[id].Live() && t.alerts[id].key == key
  }

  /** The partial unique index on unresolved alerts. */
  ghost predicate DedupUnique(t: Tables) {
    forall i, j | i in t.alerts && j in t.alerts && i != j ::
      !(t.alerts[i].Live() && t.alerts[j].Live() && t.alerts[i].key == t.alerts[j].key)
  }

  /** The foreign key from deliveries to alerts. */
  ghost predicate ForeignKey(t: Tables) {
    t.deliveries.Keys <= t.alerts.Keys
  }

  /** INSERT INTO owner_alerts ... ON CONFLICT DO NOTHING: either key may be the one in conflict. */
  function InsertAlert(t: Tables, id: AlertId, key: string, createdAt: int): Tables {
    if id in t.alerts || LiveIds(t, key) != {} then t
    else t.(alerts := t.alerts[id := Alert(key, createdAt, Open)])
  }

  /** UPDATE owner_alerts SET status ... WHERE id: None when the unique index rejects the new row. */
  function UpdateStatus(t: Tables, id: AlertId, status: AlertStatus): Option<Tables> {
    if id !in t.alerts then Some(t)
    else if status != Resolved && LiveIds(t, t.alerts[id].key) - {id} != {} then None
    else Some(t.(alerts := t.alerts[id := t.alerts[id].(status := status)]))
  }

  /** DELETE FROM owner_alerts WHERE id IN ids: None when ON DELETE RESTRICT rejects it. */
  function DeleteAlerts(t: Tables, ids: set<AlertId>): Option<Tables> {
    if ids * t.deliveries.Keys != {} then None
    else Some(t.(alerts := t.alerts - ids))
  }

  /** The claim's row filter, as a statement that started at `now` reads it. */
  predicate Fresh(alert: Alert, now: int) {
    alert.Live() && now - DAY < alert.createdAt
  }

  function Eligible(t: Tables, now: int): set<AlertId> {
    set id | id in t.alerts && Fresh(t.alerts[id], now) && id !in t.deliveries
  }

  predicate IsOldest(t: Tables, now: int, id: AlertId) {
    && id in Eligible(t, now)
    && forall other | other in Eligible(t, now) :: t.alerts[id].createdAt <= t.alerts[other].createdAt
  }

  /** INSERT INTO owner_alert_deliveries (alert_id): the claim itself. */
  function InsertDelivery(t: Tables, id: AlertId): Tables {
    t.(deliveries := t.deliveries[id := CLAIM])
  }

  function Recorded(d: Delivery, outcome: Outcome): Delivery {
    match outcome
    case RecordSent(m, at) => Delivery(Sent, Some(m), Some(at))
    case RecordUncertain(at) => d.(status := Uncertain, completedAt := Some(at))
  }

  /** UPDATE owner_alert_deliveries ... WHERE alert_id. */
  function RecordOutcome(t: Tables, id: AlertId, outcome: Outcome): Tables {
    if id !in t.deliveries then t
    else t.(deliveries := t.deliveries[id := Recorded(t.deliveries[id], outcome)])
  }

  // ---- What the alert statements keep ----------------------------------------------------

  /** The new alert is open, and it is all that is new; it is inserted exactly when its id is free and
      every alert with its key is resolved. */
  lemma InsertAlertIs(t: Tables, id: AlertId, key: string, createdAt: int)
    ensures InsertAlert(t, id, key, createdAt) ==
            if id !in t.alerts && forall r | r in t.alerts && t.alerts[r].key == key :: t.alerts[r].status == Resolved
            then Tables(t.alerts[id := Alert(key, createdAt, Open)], t.deliveries)
            else t
  {
    assert forall r | r in t.alerts && t.alerts[r].key == key && t.alerts[r].status != Resolved :: r in LiveIds(t, key);
  }

  lemma UpdateStatusRejects(t: Tables, id: AlertId, status: AlertStatus)
    ensures UpdateStatus(t, id, status).None? <==>
            id in t.alerts && status != Resolved &&
            exists r | r in t.alerts :: r != id && t.alerts[r].status != Resolved && t.alerts[r].key == t.alerts[id].key
  {
    if id in t.alerts {
      var twins := LiveIds(t, t.alerts[id].key) - {id};
      if r :| r in t.alerts && r != id && t.alerts[r].status != Resolved && t.alerts[r].key == t.alerts[id].key {
        assert r in twins;
      }
    }
  }

  lemma InsertAlertKeepsConstraints(t: Tables, id: AlertId, key: string, createdAt: int)
    requires DedupUnique(t) && ForeignKey(t)
    ensures DedupUnique(InsertAlert(t, id, key, createdAt))
    ensures ForeignKey(InsertAlert(t, id, key, createdAt))
  {
    var t' := InsertAlert(t, id, key, createdAt);
    if t' != t {
      forall i | i in t.alerts && t.alerts[i].Live() && t.alerts[i].key == key
        ensures i in LiveIds(t, key)
      {}
    }
  }

  lemma UpdateStatusKeepsConstraints(t: Tables, id: AlertId, status: AlertStatus)
    requires DedupUnique(t) && ForeignKey(t)
    ensures var u := UpdateStatus(t, id, status);
            u.Some? ==> DedupUnique(u.value) && ForeignKey(u.value)
  {
    var u := UpdateStatus(t, id, status);
    if u.Some? && id in t.alerts && status != Resolved {
      forall i | i in t.alerts && i != id && t.alerts[i].Live() && t.alerts[i].key == t.alerts[id].key
        ensures i in LiveIds(t, t.alerts[id].key) - {id}
      {}
    }
  }

  /** The index turns a status change down exactly when it would revive a resolved alert whose key
      already has a live one. */
  lemma MarkReadRejectedExactlyForResolvedTwin(t: Tables, id: AlertId)
    requires DedupUnique(t)
    ensures UpdateStatus(t, id, Read).None? <==>
            id in t.alerts && t.alerts[id].status == Resolved && LiveIds(t, t.alerts[id].key) != {}
  {
    if id in t.alerts && !t.alerts[id].Live() {
      assert id !in LiveIds(t, t.alerts[id].key);
      assert LiveIds(t, t.alerts[id].key) - {id} == LiveIds(t, t.alerts[id].key);
    }
  }

  /** Right after an uninterrupted `open` exactly one unresolved alert carries the key, unless the
      generated id was already taken and the key had no live alert: then none does. */
  lemma OpenLeavesExactlyOneLive(t: Tables, id: AlertId, key: string, createdAt: int)
    requires DedupUnique(t)
    ensures |LiveIds(InsertAlert(t, id, key, createdAt), key)| == 1 <==>
            (id !in t.alerts || LiveIds(t, key) != {})
  {
    var t' := InsertAlert(t, id, key, createdAt);
    if LiveIds(t, key) != {} {
      var live :| live in LiveIds(t, key);
      assert LiveIds(t', key) == {live};
    } else if id !in t.alerts {
      forall i | i in LiveIds(t', key) ensures i == id {
        assert i != id ==> i in LiveIds(t, key);
      }
      assert LiveIds(t', key) == {id};
    }
  }

  /** A purge is turned down exactly when one of the alerts has a delivery row, and otherwise takes away
      just these alerts. */
  lemma PurgeRejectedIff(t: Tables, ids: set<AlertId>)
    ensures DeleteAlerts(t, ids).None? <==> exists id | id in ids :: id in t.deliveries
    ensures var purged := DeleteAlerts(t, ids);
            purged.Some? ==>
              && purged.value.deliveries == t.deliveries
              && (forall id :: id in purged.value.alerts <==> id in t.alerts && id !in ids)
              && forall id | id in purged.value.alerts :: purged.value.alerts[id] == t.alerts[id]
  {
    if id :| id in ids && id in t.deliveries {
      assert id in ids * t.deliveries.Keys;
    }
    if ids * t.deliveries.Keys != {} {
      var id :| id in ids * t.deliveries.Keys;
      assert id in ids && id in t.deliveries;
    }
  }

  // ---- The deduplication key -------------------------------------------------------------

  function DeduplicationKey(kind: string, entityId: string): string {
    kind + ":" + entityId
  }

  ghost predicate KeysCollide(k1: string, k2: string) {
    exists e1, e2 :: DeduplicationKey(k1, e1) == DeduplicationKey(k2, e2) && !(k1 == k2 && e1 == e2)
  }

  /** Two types can give one key to two different (type, entity) pairs exactly when one of them, followed
      by a colon, is the beginning of the other. */
  lemma KeysCollideIff(k1: string, k2: string)
    ensures KeysCollide(k1, k2) <==> k1 + ":" <= k2 || k2 + ":" <= k1
  {
    forall e1, e2 | DeduplicationKey(k1, e1) == DeduplicationKey(k2, e2) && !(k1 == k2 && e1 == e2)
      ensures k1 + ":" <= k2 || k2 + ":" <= k1
    {
      EqualKeys(k1, e1, k2, e2);
    }
    if k1 + ":" <= k2 {
      PrefixCollides(k1, k2);
    }
    if k2 + ":" <= k1 {
      PrefixCollides(k2, k1);
      var e := k1[|k2| + 1..];
      assert DeduplicationKey(k1, "") == DeduplicationKey(k2, e + ":");
    }
  }

  /** An instance of such a collision. */
  lemma DeduplicationKeyCollidesOnColons()
    ensures DeduplicationKey("stock:low", "7") == DeduplicationKey("stock", "low:7")
    ensures KeysCollide("stock:low", "stock")
  {
    assert "stock:low" + ":" + "7" == "stock" + ":" + "low:7";
  }

  lemma EqualKeys(k1: string, e1: string, k2: string, e2: string)
    requires DeduplicationKey(k1, e1) == DeduplicationKey(k2, e2)
    ensures if |k1| == |k2| then k1 == k2 && e1 == e2
            else if |k1| < |k2| then k1 + ":" <= k2
            else k2 + ":" <= k1
  {
    var a, b := DeduplicationKey(k1, e1), DeduplicationKey(k2, e2);
    if |k1| == |k2| {
      assert k1 == a[..|k1|] == b[..|k2|] == k2;
      assert e1 == a[|k1| + 1..] == b[|k2| + 1..] == e2;
    } else if |k1| < |k2| {
      assert k1 + ":" == a[..|k1| + 1] == b[..|k1| + 1] == k2[..|k1| + 1];
    } else {
      assert k2 + ":" == b[..|k2| + 1] == a[..|k2| + 1] == k1[..|k2| + 1];
    }
  }

  lemma PrefixCollides(k1: string, k2: string)
    requires k1 + ":" <= k2
    ensures var e := k2[|k1| + 1..];
            k1 != k2 && DeduplicationKey(k1, e + ":") == DeduplicationKey(k2, "")
  {
    var e := k2[|k1| + 1..];
    assert k2 == k1 + ":" + e;
  }

  lemma NoColonNoPrefix(k1: string, k2: string)
    requires ':' !in k2
    ensures !(k1 + ":" <= k2)
  {
    assert (k1 + ":")[|k1|] == ':';
    assert |k1| < |k2| ==> k2[|k1|] != ':';
  }

  /** Types without a colon, which is what every caller passes, never collide. */
  lemma DeduplicationKeyInjective(k1: string, e1: string, k2: string, e2: string)
    requires ':' !in k1 && ':' !in k2
    ensures DeduplicationKey(k1, e1) == DeduplicationKey(k2, e2) <==> k1 == k2 && e1 == e2
  {
    NoColonNoPrefix(k1, k2);
    NoColonNoPrefix(k2, k1);
    if DeduplicationKey(k1, e1) == DeduplicationKey(k2, e2) {
      EqualKeys(k1, e1, k2, e2);
    }
  }

  // ---- The eligible set of the claim ------------------------------------------------------

  lemma OldestExists(t: Tables, now: int, ids: set<AlertId>) returns (oldest: AlertId)
    requires ids <= Eligible(t, now) && ids != {}
    ensures oldest in ids
    ensures forall i | i in ids :: t.alerts[oldest].createdAt <= t.alerts[i].createdAt
    decreases ids
  {
    oldest :| oldest in ids;
    var rest := ids - {oldest};
    if rest == {} {
      assert ids == {oldest};
    } else {
      var other := OldestExists(t, now, rest);
      assert ids == rest + {oldest};
      if t.alerts[other].createdAt < t.alerts[oldest].createdAt {
        oldest := other;
      }
    }
  }

  /** Opening adds the new alert to the eligible set, or on a conflict nothing; no other alert moves. */
  lemma OpenAddsExactlyItsAlert(t: Tables, id: AlertId, key: string, now: int)
    requires ForeignKey(t)
    ensures Eligible(InsertAlert(t, id, key, now), now) ==
            Eligible(t, now) + if id !in t.alerts && LiveIds(t, key) == {} then {id} else {}
  {}

  /** Resolving withdraws that alert from delivery, and no other. */
  lemma ResolveWithdrawsExactlyItsAlert(t: Tables, id: AlertId, now: int)
    ensures var u := UpdateStatus(t, id, Resolved);
            u.Some? && Eligible(u.value, now) == Eligible(t, now) - {id}
  {}

  /** Reading a live alert does not withhold it from delivery.  Reading a resolved one makes it live
      again, and thereby eligible exactly when it is recent and was never claimed. */
  lemma ReadRevivesExactlyUnsentAlerts(t: Tables, id: AlertId, now: int)
    requires UpdateStatus(t, id, Read).Some?
    ensures var t' := UpdateStatus(t, id, Read).value;
            Eligible(t', now) == Eligible(t, now) +
              if id in t.alerts && now - DAY < t.alerts[id].createdAt && id !in t.deliveries then {id} else {}
    ensures var t' := UpdateStatus(t, id, Read).value;
            Eligible(t', now) == Eligible(t, now) <==>
            !(id in t.alerts && t.alerts[id].status == Resolved
              && now - DAY < t.alerts[id].createdAt && id !in t.deliveries)
  {
    var t' := UpdateStatus(t, id, Read).value;
    if id in t.alerts && now - DAY < t.alerts[id].createdAt && id !in t.deliveries {
      assert id in Eligible(t', now);
    }
  }

  /** Claiming an alert and recording whatever became of it takes that alert, and nothing else,
      out of the eligible set, at any later time. */
  lemma ClaimRemovesExactlyOne(t: Tables, now: int, id: AlertId, outcomes: seq<Outcome>)
    requires id in t.alerts
    ensures Eligible(RecordAll(InsertDelivery(t, id), id, outcomes), now) == Eligible(t, now) - {id}
  {
    RecordAllKeepsRows(InsertDelivery(t, id), id, outcomes);
  }

  function RecordAll(t: Tables, id: AlertId, outcomes: seq<Outcome>): Tables {
    if outcomes == [] then t
    else RecordOutcome(RecordAll(t, id, outcomes[..|outcomes| - 1]), id, outcomes[|outcomes| - 1])
  }

  lemma {:induction false} RecordAllKeepsRows(t: Tables, id: AlertId, outcomes: seq<Outcome>)
    ensures RecordAll(t, id, outcomes).alerts == t.alerts
    ensures RecordAll(t, id, outcomes).deliveries.Keys == t.deliveries.Keys
    ensures forall i | i in t.deliveries && i != id ::
              RecordAll(t, id, outcomes).deliveries[i] == t.deliveries[i]
  {
    if outcomes == [] {
    } else {
      RecordAllKeepsRows(t, id, outcomes[..|outcomes| - 1]);
    }
  }

  lemma RecordAllShort(t: Tables, id: AlertId, outcomes: seq<Outcome>)
    requires |outcomes| <= 2
    ensures RecordAll(t, id, outcomes) ==
            if outcomes == [] then t
            else if |outcomes| == 1 then RecordOutcome(t, id, outcomes[0])
            else RecordOutcome(RecordOutcome(t, id, outcomes[0]), id, outcomes[1])
  {
    if |outcomes| == 2 {
      assert outcomes[..1] == [outcomes[0]] && outcomes[..1][..0] == [];
    }
  }

  lemma EligibleShrinksWithTime(t: Tables, now: int, later: int)
    requires now <= later
    ensures Eligible(t, later) <= Eligible(t, now)
  {}
}
