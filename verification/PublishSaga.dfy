// Publishing a new reference from the admin page: create, deactivate, upload the photo, write all
// stock rows at once, activate; on a failure, compensate, and let the user submit again.
//
// A request is on the wire until the server applies it or it is lost.  The page may see a failure
// at any moment, whatever becomes of the request, so every request can still land late.
module PublishSaga {
  import opened Wrappers

  type RefId = nat
  type Size = string

  /** A request: the call that issued it, and its place in that call when it issues several. */
  datatype Token = Token(call: nat, row: nat)

  datatype Row = Row(size: Size, quantity: nat)

  /** A catalogue entry as the server holds it. */
  datatype Reference = Reference(active: bool, photo: bool, stock: map<Size, nat>) {
    predicate Ready() {
      photo && exists z | z in stock :: stock[z] > 0
    }
  }

  const NEW_REFERENCE := Reference(true, false, map[])

  datatype Request =
    | Create
    | Update(id: RefId)
    | Deactivate(id: RefId)
    | UploadPhoto(id: RefId)
    | SetStock(id: RefId, size: Size, quantity: nat)
    | Activate(id: RefId)

  /** Where `onSubmit` is suspended. */
  datatype Stage =
    | Idle
    | Creating(token: Token)
    | Deactivating(id: RefId, token: Token)
    | Updating(id: RefId, token: Token)
    | Uploading(id: RefId, token: Token)
    | Stocking(id: RefId, call: nat)  // one request per row
    | Activating(id: RefId, token: Token)
    | Compensating(id: RefId, token: Token)
    | Published(id: RefId)

  datatype System = System(
    refs: map<RefId, Reference>,
    stage: Stage,
    rows: seq<Row>,             // rows of the submission under way
    pending: Option<RefId>,     // component state pendingReferenceId
    started: Option<RefId>,     // its value when the submission under way began
    issued: nat,                // calls issued so far
    wire: map<Token, Request>,
    landed: map<Token, Request>,
    created: map<Token, RefId>) // which reference a landed Create made

  datatype Event =
    | Submit(rows: seq<Row>)
    | Land(token: Token, newId: RefId)
    | Lose(token: Token)
    | Reply    // what the page awaits has succeeded
    | Failure  // what the page awaits has failed, as far as the page can tell
    | Reload   // the page is closed and opened anew

  /** What the form's checks leave to submit: at least one row, positive, one per size. */
  predicate ValidRows(rows: seq<Row>) {
    && rows != []
    && (forall k | 0 <= k < |rows| :: rows[k].quantity > 0)
    && (forall j, k | 0 <= j < k < |rows| :: rows[j].size != rows[k].size)
  }

  function Effect(refs: map<RefId, Reference>, r: Request): map<RefId, Reference> {
    if r.Create? || r.Update? || r.id !in refs then refs
    else
      var ref := refs[r.id];
      match r
      case Deactivate(id) => refs[id := ref.(active := false)]
      case UploadPhoto(id) => refs[id := ref.(photo := true)]
      case SetStock(id, z, q) => refs[id := ref.(stock := ref.stock[z := q])]
      case Activate(id) => refs[id := ref.(active := true)]
  }

  function Issue(s: System, r: Request): System {
    s.(issued := s.issued + 1, wire := s.wire[Token(s.issued, 0) := r])
  }

  function StockRequests(id: RefId, call: nat, rows: seq<Row>): map<Token, Request> {
    map k: nat | k < |rows| :: Token(call, k) := SetStock(id, rows[k].size, rows[k].quantity)
  }

  function IssueStock(s: System, id: RefId): System {
    s.(issued := s.issued + 1, wire := s.wire + StockRequests(id, s.issued, s.rows))
  }

  predicate Awaiting(stage: Stage) {
    !stage.Idle? && !stage.Published?
  }

  /** The success the page waits for; for the stock rows, that of every one of them. */
  predicate Answered(s: System) {
    match s.stage
    case Creating(t) => t in s.landed && t in s.created
    case Stocking(_, call) => forall k | 0 <= k < |s.rows| :: Token(call, k) in s.landed
    case Idle => false
    case Published(_) => false
    case _ => s.stage.token in s.landed
  }

  predicate Enabled(s: System, e: Event) {
    match e
    case Submit(rows) => s.stage.Idle? && ValidRows(rows)
    case Land(t, newId) => t in s.wire && (s.wire[t].Create? ==> newId !in s.refs)
    case Lose(t) => t in s.wire
    case Reply => Answered(s)
    case Failure => Awaiting(s.stage)
    case Reload => true
  }

  function OnReply(s: System): System
    requires Answered(s)
  {
    match s.stage
    case Creating(t) =>
      var id := s.created[t];
      Issue(s, Deactivate(id)).(stage := Deactivating(id, Token(s.issued, 0)))
    case Deactivating(id, _) =>
      Issue(s, UploadPhoto(id)).(stage := Uploading(id, Token(s.issued, 0)), pending := Some(id))
    case Updating(id, _) => Issue(s, UploadPhoto(id)).(stage := Uploading(id, Token(s.issued, 0)))
    case Uploading(id, _) => IssueStock(s, id).(stage := Stocking(id, s.issued))
    case Stocking(id, _) => Issue(s, Activate(id)).(stage := Activating(id, Token(s.issued, 0)))
    case Activating(id, _) => s.(stage := Published(id))
    case Compensating(_, _) => s.(stage := Idle)
  }

  /** The catch block; a failed compensation is swallowed. */
  function OnFailure(s: System): System
    requires Awaiting(s.stage)
  {
    if s.stage.Creating? || s.stage.Compensating? || s.started.Some? then s.(stage := Idle)
    else Issue(s, Deactivate(s.stage.id)).(stage := Compensating(s.stage.id, Token(s.issued, 0)))
  }

  function Apply(s: System, e: Event): System
    requires Enabled(s, e)
  {
    match e
    case Submit(rows) =>
      var s' := s.(rows := rows, started := s.pending);
      if s.pending.None? then Issue(s', Create).(stage := Creating(Token(s.issued, 0)))
      else Issue(s', Update(s.pending.value)).(stage := Updating(s.pending.value, Token(s.issued, 0)))
    case Land(t, newId) =>
      var r := s.wire[t];
      var s' := s.(wire := s.wire - {t}, landed := s.landed[t := r]);
      if r.Create? then s'.(refs := s.refs[newId := NEW_REFERENCE], created := s.created[t := newId])
      else s'.(refs := Effect(s.refs, r))
    case Lose(t) => s.(wire := s.wire - {t})
    case Reply => OnReply(s)
    case Failure => OnFailure(s)
    case Reload => s.(stage := Idle, pending := None, started := None)
  }

  ghost predicate Run(s: System, es: seq<Event>)
    decreases |es|
  {
    es != [] ==> Enabled(s, es[0]) && Run(Apply(s, es[0]), es[1..])
  }

  ghost function End(s: System, es: seq<Event>): System
    requires Run(s, es)
    decreases |es|
  {
    if es == [] then s else End(Apply(s, es[0]), es[1..])
  }

  ghost predicate Init(s: System) {
    && s.refs == map[] && s.stage.Idle? && s.pending.None? && s.started.None?
    && s.wire == map[] && s.landed == map[] && s.created == map[]
  }

  // ---- Invariants over all runs -------------------------------------------------------------------

  ghost predicate DeactivateLanded(s: System, id: RefId) {
    exists t | t in s.landed :: s.landed[t] == Deactivate(id)
  }

  /** Tokens are never reused, and every request names a reference the server has. */
  ghost predicate TokensOk(s: System) {
    && (forall t | t in s.wire ::
          t.call < s.issued && t !in s.landed && (!s.wire[t].Create? ==> s.wire[t].id in s.refs))
    && (forall t | t in s.landed :: t.call < s.issued && (!s.landed[t].Create? ==> s.landed[t].id in s.refs))
    && (forall t | t in s.created :: t in s.landed && s.created[t] in s.refs)
  }

  ghost predicate StockPositive(s: System) {
    && (forall t | t in s.wire && s.wire[t].SetStock? :: s.wire[t].quantity > 0)
    && (forall id, z | id in s.refs && z in s.refs[id].stock :: s.refs[id].stock[z] > 0)
  }

  /** What has landed stays done: photos and stock are never taken back. */
  ghost predicate LandedHolds(s: System) {
    forall t | t in s.landed ::
      match s.landed[t]
      case UploadPhoto(id) => id in s.refs && s.refs[id].photo
      case SetStock(id, z, _) => id in s.refs && z in s.refs[id].stock
      case _ => true
  }

  /** The requests the page is waiting for are the ones its stage says. */
  ghost predicate StageNames(s: System) {
    match s.stage
    case Idle => true
    case Published(id) => id in s.refs
    case Creating(t) => t.call < s.issued && Names(s, t, Create)
    case Deactivating(id, t) => id in s.refs && t.call < s.issued && Names(s, t, Deactivate(id))
    case Updating(id, t) => id in s.refs && t.call < s.issued && Names(s, t, Update(id))
    case Uploading(id, t) => id in s.refs && t.call < s.issued && Names(s, t, UploadPhoto(id))
    case Activating(id, t) => id in s.refs && t.call < s.issued && Names(s, t, Activate(id))
    case Compensating(id, t) => id in s.refs && t.call < s.issued && Names(s, t, Deactivate(id))
    case Stocking(id, call) =>
      && id in s.refs && s.refs[id].photo && call < s.issued
      && forall k | 0 <= k < |s.rows| ::
           Names(s, Token(call, k), SetStock(id, s.rows[k].size, s.rows[k].quantity))
  }

  ghost predicate StageOk(s: System) {
    && (s.pending.Some? ==> s.pending.value in s.refs && DeactivateLanded(s, s.pending.value))
    && (s.started.Some? ==> s.pending == s.started)
    && (s.stage.Creating? || s.stage.Deactivating? ==> s.started.None?)
    && (s.stage.Updating? ==> s.started.Some?)
    && StageNames(s)
  }

  ghost predicate Names(s: System, t: Token, r: Request) {
    (t in s.wire ==> s.wire[t] == r) && (t in s.landed ==> s.landed[t] == r)
  }

  /** The heart of the matter: a reference that is active without being ready has never been
      deactivated. */
  ghost predicate ActiveIsReady(s: System) {
    forall id | id in s.refs && s.refs[id].active && !s.refs[id].Ready() :: !DeactivateLanded(s, id)
  }

  /** A request the page may issue in state s. */
  ghost predicate MayIssue(s: System, r: Request) {
    && (!r.Create? ==> r.id in s.refs)
    && (r.SetStock? ==> r.quantity > 0)
    && (r.Activate? ==> r.id in s.refs && s.refs[r.id].Ready())
  }

  ghost predicate ServerInv(s: System) {
    TokensOk(s) && StockPositive(s) && LandedHolds(s) && ActiveIsReady(s) &&
    forall t | t in s.wire :: MayIssue(s, s.wire[t])
  }

  ghost predicate Inv(s: System) {
    ServerInv(s) && StageOk(s) && (Awaiting(s.stage) ==> ValidRows(s.rows))
  }

  /** A step of the page: the server does not move, and whatever is new on the wire has new tokens. */
  ghost predicate OnlyIssues(s: System, s': System) {
    && s'.refs == s.refs && s'.landed == s.landed && s'.created == s.created && s.issued <= s'.issued
    && forall t | t in s'.wire ::
         (t in s.wire && s'.wire[t] == s.wire[t]) ||
         (t.call == s.issued < s'.issued && MayIssue(s, s'.wire[t]))
  }

  lemma StockedIsReady(s: System)
    requires Inv(s) && s.stage.Stocking? && Answered(s)
    ensures s.stage.id in s.refs && s.refs[s.stage.id].Ready()
  {
    assert Token(s.stage.call, 0) in s.landed;
    assert s.rows[0].size in s.refs[s.stage.id].stock;
  }

  lemma ReplyOnlyIssues(s: System)
    requires Inv(s) && Answered(s)
    ensures OnlyIssues(s, OnReply(s))
  {
    match s.stage
    case Creating(t) => assert s.created[t] in s.refs;
    case Stocking(_, _) => StockedIsReady(s);
    case _ =>
  }

  lemma SubmitOnlyIssues(s: System, rows: seq<Row>)
    requires ServerInv(s) && StageOk(s) && Enabled(s, Submit(rows))
    ensures OnlyIssues(s, Apply(s, Submit(rows)))
  {}

  lemma FailureOnlyIssues(s: System)
    requires ServerInv(s) && StageOk(s) && Awaiting(s.stage)
    ensures OnlyIssues(s, OnFailure(s))
  {}

  lemma PageStepOnlyIssues(s: System, e: Event)
    requires Inv(s) && Enabled(s, e) && !e.Land? && !e.Lose?
    ensures OnlyIssues(s, Apply(s, e))
  {
    match e
    case Submit(rows) => SubmitOnlyIssues(s, rows);
    case Reply => ReplyOnlyIssues(s);
    case Failure => FailureOnlyIssues(s);
    case Reload =>
  }

  lemma IssuingKeepsServerInv(s: System, s': System)
    requires ServerInv(s) && OnlyIssues(s, s')
    ensures ServerInv(s')
  {
    forall id | DeactivateLanded(s', id) ensures DeactivateLanded(s, id) {
      var t :| t in s'.landed && s'.landed[t] == Deactivate(id);
      assert s.landed[t] == Deactivate(id);
    }
  }

  /** A request that lands changes one thing about one reference. */
  lemma EffectIs(refs: map<RefId, Reference>, id: RefId, z: Size, q: nat)
    requires id in refs
    ensures Effect(refs, Create) == refs && Effect(refs, Update(id)) == refs
    ensures Effect(refs, Deactivate(id)) == refs[id := Reference(false, refs[id].photo, refs[id].stock)]
    ensures Effect(refs, UploadPhoto(id)) == refs[id := Reference(refs[id].active, true, refs[id].stock)]
    ensures Effect(refs, SetStock(id, z, q)) ==
            refs[id := Reference(refs[id].active, refs[id].photo, refs[id].stock[z := q])]
    ensures Effect(refs, Activate(id)) == refs[id := Reference(true, refs[id].photo, refs[id].stock)]
  {}

  /** An effect takes no photo and no stock back, and only an activation makes anything active. */
  lemma EffectGrows(refs: map<RefId, Reference>, r: Request, id: RefId)
    requires id in refs && (r.SetStock? ==> r.quantity > 0)
    ensures Effect(refs, r).Keys == refs.Keys
    ensures refs[id].photo ==> Effect(refs, r)[id].photo
    ensures refs[id].stock.Keys <= Effect(refs, r)[id].stock.Keys
    ensures refs[id].Ready() ==> Effect(refs, r)[id].Ready()
    ensures Effect(refs, r)[id].active ==> refs[id].active || r == Activate(id)
    ensures r == Deactivate(id) ==> !Effect(refs, r)[id].active
  {
    if refs[id].Ready() {
      var z :| z in refs[id].stock && refs[id].stock[z] > 0;
      assert Effect(refs, r)[id].stock[z] > 0;
    }
  }

  lemma LandingKeepsServerInv(s: System, t: Token, newId: RefId)
    requires ServerInv(s) && Enabled(s, Land(t, newId))
    ensures ServerInv(Apply(s, Land(t, newId)))
  {
    assert MayIssue(s, s.wire[t]);
    LandingKeepsTokens(s, t, newId);
    LandingKeepsStock(s, t, newId);
    LandingKeepsActiveReady(s, t, newId);
    LandingKeepsWire(s, t, newId);
  }

  lemma LandingGrows(s: System, t: Token, newId: RefId, id: RefId)
    requires ServerInv(s) && Enabled(s, Land(t, newId)) && id in s.refs
    ensures var s' := Apply(s, Land(t, newId));
            && id in s'.refs
            && (s.refs[id].photo ==> s'.refs[id].photo)
            && s.refs[id].stock.Keys <= s'.refs[id].stock.Keys
            && (s.refs[id].Ready() ==> s'.refs[id].Ready())
            && (s'.refs[id].active ==> s.refs[id].active || s.wire[t] == Activate(id))
            && (s.wire[t] == Deactivate(id) ==> !s'.refs[id].active)
  {
    assert MayIssue(s, s.wire[t]);
    EffectGrows(s.refs, s.wire[t], id);
  }

  lemma LandingKeepsTokens(s: System, t: Token, newId: RefId)
    requires ServerInv(s) && Enabled(s, Land(t, newId))
    ensures TokensOk(Apply(s, Land(t, newId)))
  {
    assert MayIssue(s, s.wire[t]);
    assert Apply(s, Land(t, newId)).refs.Keys >= s.refs.Keys;
  }

  lemma LandingKeepsStock(s: System, t: Token, newId: RefId)
    requires ServerInv(s) && Enabled(s, Land(t, newId))
    ensures StockPositive(Apply(s, Land(t, newId))) && LandedHolds(Apply(s, Land(t, newId)))
  {
    var s' := Apply(s, Land(t, newId));
    assert MayIssue(s, s.wire[t]);
    forall u | u in s.landed && (s.landed[u].UploadPhoto? || s.landed[u].SetStock?)
      ensures s.landed[u].id in s'.refs
      ensures s.landed[u].UploadPhoto? ==> s'.refs[s.landed[u].id].photo
      ensures s.landed[u].SetStock? ==> s.landed[u].size in s'.refs[s.landed[u].id].stock
    {
      LandingGrows(s, t, newId, s.landed[u].id);
    }
  }

  lemma LandingKeepsWire(s: System, t: Token, newId: RefId)
    requires ServerInv(s) && Enabled(s, Land(t, newId))
    ensures forall u | u in Apply(s, Land(t, newId)).wire ::
              MayIssue(Apply(s, Land(t, newId)), Apply(s, Land(t, newId)).wire[u])
  {
    var s' := Apply(s, Land(t, newId));
    forall u | u in s'.wire ensures MayIssue(s', s'.wire[u]) {
      assert MayIssue(s, s.wire[u]);
      if !s.wire[u].Create? {
        LandingGrows(s, t, newId, s.wire[u].id);
      }
    }
  }

  lemma LandingDeactivates(s: System, t: Token, newId: RefId, id: RefId)
    requires ServerInv(s) && Enabled(s, Land(t, newId))
    ensures DeactivateLanded(Apply(s, Land(t, newId)), id) ==>
            DeactivateLanded(s, id) || s.wire[t] == Deactivate(id)
  {
    var s' := Apply(s, Land(t, newId));
    if DeactivateLanded(s', id) {
      var u :| u in s'.landed && s'.landed[u] == Deactivate(id);
      assert u != t ==> u in s.landed && s.landed[u] == Deactivate(id);
    }
  }

  lemma LandingKeepsActiveReady(s: System, t: Token, newId: RefId)
    requires ServerInv(s) && Enabled(s, Land(t, newId))
    ensures ActiveIsReady(Apply(s, Land(t, newId)))
  {
    var s' := Apply(s, Land(t, newId));
    assert MayIssue(s, s.wire[t]);
    forall id | id in s'.refs && s'.refs[id].active && !s'.refs[id].Ready() ensures !DeactivateLanded(s', id) {
      LandingDeactivates(s, t, newId, id);
      if id in s.refs {
        LandingGrows(s, t, newId, id);
      }
    }
  }

  lemma ServerInvKept(s: System, e: Event)
    requires Inv(s) && Enabled(s, e)
    ensures ServerInv(Apply(s, e))
  {
    match e
    case Land(t, newId) => LandingKeepsServerInv(s, t, newId);
    case Lose(t) =>
      forall id | DeactivateLanded(Apply(s, e), id) ensures DeactivateLanded(s, id) {}
    case _ =>
      PageStepOnlyIssues(s, e);
      IssuingKeepsServerInv(s, Apply(s, e));
  }

  lemma DeactivateStaysLanded(s: System, e: Event, id: RefId)
    requires TokensOk(s) && Enabled(s, e) && DeactivateLanded(s, id)
    ensures DeactivateLanded(Apply(s, e), id)
  {
    var t :| t in s.landed && s.landed[t] == Deactivate(id);
    assert Apply(s, e).landed[t] == Deactivate(id);
  }

  lemma LoseKeepsStage(s: System, t: Token)
    requires Inv(s) && t in s.wire
    ensures StageOk(Apply(s, Lose(t)))
  {
    if s.pending.Some? {
      DeactivateStaysLanded(s, Lose(t), s.pending.value);
    }
  }

  lemma LandKeepsNames(s: System, t: Token, newId: RefId, u: Token, r: Request)
    requires Enabled(s, Land(t, newId)) && Names(s, u, r)
    ensures Names(Apply(s, Land(t, newId)), u, r)
  {}

  lemma LandKeepsRowNames(s: System, t: Token, newId: RefId, id: RefId, call: nat)
    requires Enabled(s, Land(t, newId))
    requires forall k | 0 <= k < |s.rows| ::
               Names(s, Token(call, k), SetStock(id, s.rows[k].size, s.rows[k].quantity))
    ensures forall k | 0 <= k < |s.rows| ::
              Names(Apply(s, Land(t, newId)), Token(call, k), SetStock(id, s.rows[k].size, s.rows[k].quantity))
  {
    forall k | 0 <= k < |s.rows|
      ensures Names(Apply(s, Land(t, newId)), Token(call, k), SetStock(id, s.rows[k].size, s.rows[k].quantity))
    {
      LandKeepsNames(s, t, newId, Token(call, k), SetStock(id, s.rows[k].size, s.rows[k].quantity));
    }
  }

  lemma LandKeepsStage(s: System, t: Token, newId: RefId)
    requires Inv(s) && Enabled(s, Land(t, newId))
    ensures StageOk(Apply(s, Land(t, newId)))
  {
    if s.pending.Some? {
      DeactivateStaysLanded(s, Land(t, newId), s.pending.value);
    }
    LandKeepsStageNames(s, t, newId);
  }

  lemma LandKeepsStageNames(s: System, t: Token, newId: RefId)
    requires ServerInv(s) && StageNames(s) && Enabled(s, Land(t, newId))
    ensures StageNames(Apply(s, Land(t, newId)))
  {
    var s' := Apply(s, Land(t, newId));
    assert s.refs.Keys <= s'.refs.Keys;
    match s.stage
    case Stocking(id, call) =>
      LandingGrows(s, t, newId, id);
      LandKeepsRowNames(s, t, newId, id, call);
    case Creating(u) => LandKeepsNames(s, t, newId, u, Create);
    case Deactivating(id, u) => LandKeepsNames(s, t, newId, u, Deactivate(id));
    case Updating(id, u) => LandKeepsNames(s, t, newId, u, Update(id));
    case Uploading(id, u) => LandKeepsNames(s, t, newId, u, UploadPhoto(id));
    case Activating(id, u) => LandKeepsNames(s, t, newId, u, Activate(id));
    case Compensating(id, u) => LandKeepsNames(s, t, newId, u, Deactivate(id));
    case _ =>
  }

  lemma IssueNames(s: System, r: Request)
    requires TokensOk(s)
    ensures Names(Issue(s, r), Token(s.issued, 0), r)
  {
    assert Token(s.issued, 0) !in s.landed;
  }

  lemma IssueStockNames(s: System, id: RefId)
    requires TokensOk(s)
    ensures forall k | 0 <= k < |s.rows| ::
              Names(IssueStock(s, id), Token(s.issued, k), SetStock(id, s.rows[k].size, s.rows[k].quantity))
  {
    forall k | 0 <= k < |s.rows|
      ensures Names(IssueStock(s, id), Token(s.issued, k), SetStock(id, s.rows[k].size, s.rows[k].quantity))
    {
      assert Token(s.issued, k) !in s.landed;
      assert Token(s.issued, k) in StockRequests(id, s.issued, s.rows);
    }
  }

  lemma ReplyKeepsStage(s: System)
    requires Inv(s) && Answered(s)
    ensures StageOk(OnReply(s))
  {
    match s.stage
    case Creating(t) => IssueNames(s, Deactivate(s.created[t]));
    case Deactivating(id, t) =>
      IssueNames(s, UploadPhoto(id));
      assert OnReply(s).landed[t] == Deactivate(id);
    case Updating(id, _) => IssueNames(s, UploadPhoto(id));
    case Uploading(id, t) =>
      IssueStockNames(s, id);
      assert s.landed[t] == UploadPhoto(id);
    case Stocking(id, _) => IssueNames(s, Activate(id));
    case Activating(_, _) =>
    case Compensating(_, _) =>
  }

  lemma PageKeepsStage(s: System, e: Event)
    requires Inv(s) && Enabled(s, e) && !e.Land? && !e.Lose?
    ensures StageOk(Apply(s, e))
  {
    if s.pending.Some? {
      DeactivateStaysLanded(s, e, s.pending.value);
    }
    match e
    case Reply => ReplyKeepsStage(s);
    case Submit(rows) => IssueNames(s, if s.pending.None? then Create else Update(s.pending.value));
    case Failure =>
      if s.stage.Creating? || s.stage.Compensating? || s.started.Some? {
      } else {
        IssueNames(s, Deactivate(s.stage.id));
      }
    case Reload =>
  }

  lemma InvKept(s: System, e: Event)
    requires Inv(s) && Enabled(s, e)
    ensures Inv(Apply(s, e))
  {
    ServerInvKept(s, e);
    StageKept(s, e);
    RowsKept(s, e);
  }

  lemma StageKept(s: System, e: Event)
    requires Inv(s) && Enabled(s, e)
    ensures StageOk(Apply(s, e))
  {
    match e
    case Land(t, newId) => LandKeepsStage(s, t, newId);
    case Lose(t) => LoseKeepsStage(s, t);
    case _ => PageKeepsStage(s, e);
  }

  lemma RowsKept(s: System, e: Event)
    requires (Awaiting(s.stage) ==> ValidRows(s.rows)) && Enabled(s, e)
    ensures Awaiting(Apply(s, e).stage) ==> ValidRows(Apply(s, e).rows)
  {
    if e.Reply? || e.Failure? {
      assert Awaiting(s.stage) && Apply(s, e).rows == s.rows;
    }
  }

  lemma {:induction false} InvHoldsOnRuns(s: System, es: seq<Event>)
    requires Inv(s) && Run(s, es)
    ensures Inv(End(s, es))
    decreases |es|
  {
    if es == [] {
    } else {
      InvKept(s, es[0]);
      InvHoldsOnRuns(Apply(s, es[0]), es[1..]);
    }
  }

  /** Nothing but its own deactivation is the first thing that ever happens to a reference. */
  ghost predicate DeactivatedFirst(s: System) {
    && (forall t | t in s.wire && !s.wire[t].Create? && !s.wire[t].Deactivate? :: DeactivateLanded(s, s.wire[t].id))
    && (forall id | id in s.refs && s.refs[id] != NEW_REFERENCE :: DeactivateLanded(s, id))
    && (s.stage.Updating? || s.stage.Uploading? || s.stage.Stocking? || s.stage.Activating? ==>
          DeactivateLanded(s, s.stage.id))
  }

  lemma LandingKeepsFirst(s: System, t: Token, newId: RefId)
    requires Inv(s) && DeactivatedFirst(s) && Enabled(s, Land(t, newId))
    ensures DeactivatedFirst(Apply(s, Land(t, newId)))
  {
    var s', r := Apply(s, Land(t, newId)), s.wire[t];
    forall id | DeactivateLanded(s, id) ensures DeactivateLanded(s', id) {
      DeactivateStaysLanded(s, Land(t, newId), id);
    }
    if r.Deactivate? {
      assert s'.landed[t] == Deactivate(r.id);
    }
    forall id | id in s'.refs && s'.refs[id] != NEW_REFERENCE ensures DeactivateLanded(s', id) {
      assert id in s.refs && (s.refs[id] == s'.refs[id] || r.id == id);
    }
  }

  /** A step that leaves the server alone and sends nothing new to a reference not yet deactivated. */
  lemma PageKeepsFirst(s: System, s': System)
    requires DeactivatedFirst(s) && s'.landed == s.landed && s'.refs == s.refs
    requires forall t | t in s'.wire && !s'.wire[t].Create? && !s'.wire[t].Deactivate? ::
               (t in s.wire && s'.wire[t] == s.wire[t]) || DeactivateLanded(s, s'.wire[t].id)
    requires s'.stage.Updating? || s'.stage.Uploading? || s'.stage.Stocking? || s'.stage.Activating? ==>
               DeactivateLanded(s, s'.stage.id)
    ensures DeactivatedFirst(s')
  {
    forall id | DeactivateLanded(s, id) ensures DeactivateLanded(s', id) {
      var t :| t in s.landed && s.landed[t] == Deactivate(id);
      assert s'.landed[t] == Deactivate(id);
    }
  }

  lemma ReplyKeepsFirst(s: System)
    requires Inv(s) && DeactivatedFirst(s) && Answered(s)
    ensures DeactivatedFirst(OnReply(s))
  {
    if s.stage.Deactivating? {
      assert s.landed[s.stage.token] == Deactivate(s.stage.id);
    }
    PageKeepsFirst(s, OnReply(s));
  }

  lemma SubmitKeepsFirst(s: System, rows: seq<Row>)
    requires StageOk(s) && DeactivatedFirst(s) && Enabled(s, Submit(rows))
    ensures DeactivatedFirst(Apply(s, Submit(rows)))
  {
    PageKeepsFirst(s, Apply(s, Submit(rows)));
  }

  lemma FailureKeepsFirst(s: System)
    requires DeactivatedFirst(s) && Awaiting(s.stage)
    ensures DeactivatedFirst(OnFailure(s))
  {
    PageKeepsFirst(s, OnFailure(s));
  }

  lemma DeactivatedFirstKept(s: System, e: Event)
    requires Inv(s) && DeactivatedFirst(s) && Enabled(s, e)
    ensures DeactivatedFirst(Apply(s, e))
  {
    match e
    case Land(t, newId) => LandingKeepsFirst(s, t, newId);
    case Reply => ReplyKeepsFirst(s);
    case Submit(rows) => SubmitKeepsFirst(s, rows);
    case Failure => FailureKeepsFirst(s);
    case Lose(_) => PageKeepsFirst(s, Apply(s, e));
    case Reload => PageKeepsFirst(s, Apply(s, e));
  }

  lemma {:induction false} DeactivatedFirstOnRuns(s: System, es: seq<Event>)
    requires Inv(s) && DeactivatedFirst(s) && Run(s, es)
    ensures Inv(End(s, es)) && DeactivatedFirst(End(s, es))
    decreases |es|
  {
    if es == [] {
    } else {
      InvKept(s, es[0]);
      DeactivatedFirstKept(s, es[0]);
      DeactivatedFirstOnRuns(Apply(s, es[0]), es[1..]);
    }
  }

  /** Over all runs, with retries, lost replies and late requests: a reference is active without being ready
      to be published if and only if no deactivation of it has ever taken effect, and then it is just as it
      was created; and the page remembers only references whose deactivation did. */
  lemma ActiveReferencesAreReady(s: System, es: seq<Event>)
    requires Init(s) && Run(s, es)
    ensures var s' := End(s, es);
            && (forall id | id in s'.refs ::
                  && (s'.refs[id].active && !s'.refs[id].Ready() <==> !DeactivateLanded(s', id))
                  && (!DeactivateLanded(s', id) <==> s'.refs[id] == NEW_REFERENCE))
            && (s'.pending.Some? ==>
                  && s'.pending.value in s'.refs && DeactivateLanded(s', s'.pending.value)
                  && (s'.refs[s'.pending.value].active ==> s'.refs[s'.pending.value].Ready()))
  {
    DeactivatedFirstOnRuns(s, es);
  }

  /** Neither a new submission, nor a reload, nor a failure. */
  ghost predicate NothingElseFails(es: seq<Event>) {
    forall i | 0 <= i < |es| :: es[i].Land? || es[i].Lose? || es[i].Reply?
  }

  ghost predicate Compensated(s: System, id: RefId) {
    s.stage.Idle? && DeactivateLanded(s, id)
  }

  lemma AnsweredCompensationLanded(s: System)
    requires Inv(s) && s.stage.Compensating? && Answered(s)
    ensures DeactivateLanded(s, s.stage.id)
  {
    assert s.landed[s.stage.token] == Deactivate(s.stage.id);
  }

  lemma {:induction false} CompensationCompletes(s: System, es: seq<Event>, id: RefId)
    requires Inv(s) && id in s.refs && Run(s, es) && NothingElseFails(es)
    requires (s.stage.Compensating? && s.stage.id == id) || Compensated(s, id)
    ensures Inv(End(s, es)) && id in End(s, es).refs
    ensures End(s, es).stage.Idle? ==> DeactivateLanded(End(s, es), id)
    decreases |es|
  {
    if es == [] {
    } else {
      var e := es[0];
      InvKept(s, e);
      assert NothingElseFails(es[1..]) by {
        assert forall i | 0 <= i < |es[1..]| :: es[1..][i] == es[i + 1];
      }
      if s.stage.Compensating? && Answered(s) {
        AnsweredCompensationLanded(s);
      }
      if DeactivateLanded(s, id) {
        DeactivateStaysLanded(s, e, id);
      }
      assert id in Apply(s, e).refs;
      CompensationCompletes(Apply(s, e), es[1..], id);
    }
  }

  /** A first submission that fails at any point after its create has returned sends a deactivation;
      once that has been answered, the reference is inactive, or ready after all. */
  lemma FailedFirstSubmissionIsCompensated(s: System, es: seq<Event>)
    requires Inv(s) && s.started.None? && Awaiting(s.stage) && !s.stage.Creating? && !s.stage.Compensating?
    requires Run(s, [Failure] + es) && NothingElseFails(es) && End(s, [Failure] + es).stage.Idle?
    ensures var s' := End(s, [Failure] + es);
            && s.stage.id in s'.refs
            && (s'.refs[s.stage.id].active ==> s'.refs[s.stage.id].Ready())
  {
    var s1 := Apply(s, Failure);
    InvKept(s, Failure);
    assert ([Failure] + es)[1..] == es;
    CompensationCompletes(s1, es, s.stage.id);
  }

  lemma Prepend(s: System, e: Event, es: seq<Event>) returns (longer: seq<Event>)
    requires Enabled(s, e) && Run(Apply(s, e), es)
    ensures longer == [e] + es && Run(s, longer) && End(s, longer) == End(Apply(s, e), es)
  {
    longer := [e] + es;
    assert longer[1..] == es;
  }

  // ---- The reference nobody remembers ----------------------------------------------------------------

  /** Never deactivated, and nobody about to. */
  ghost predicate Stranded(s: System, id: RefId) {
    && id in s.refs && !DeactivateLanded(s, id)
    && (forall t | t in s.wire :: s.wire[t] != Deactivate(id))
    && match s.stage
       case Creating(t) => t in s.created ==> s.created[t] != id
       case Deactivating(i, _) => i != id
       case _ => true
  }

  lemma StrandedKeptByReply(s: System, id: RefId)
    requires Inv(s) && DeactivatedFirst(s) && Stranded(s, id) && Answered(s)
    ensures Stranded(OnReply(s), id)
  {}

  lemma StrandedKeptByLanding(s: System, t: Token, newId: RefId, id: RefId)
    requires Inv(s) && Stranded(s, id) && Enabled(s, Land(t, newId))
    ensures Stranded(Apply(s, Land(t, newId)), id)
  {
    var s' := Apply(s, Land(t, newId));
    LandingDeactivates(s, t, newId, id);
    assert s.refs.Keys <= s'.refs.Keys;
    assert forall u | u in s'.wire :: u in s.wire && s'.wire[u] == s.wire[u];
  }

  lemma StrandedKeptBySubmit(s: System, rows: seq<Row>, id: RefId)
    requires TokensOk(s) && Stranded(s, id) && Enabled(s, Submit(rows))
    ensures Stranded(Apply(s, Submit(rows)), id)
  {
    assert Token(s.issued, 0) !in s.created;
  }

  lemma StrandedKeptByFailure(s: System, id: RefId)
    requires DeactivatedFirst(s) && Stranded(s, id) && Awaiting(s.stage)
    requires s.stage.Compensating? || s.stage.Creating? || s.stage.Deactivating? || DeactivateLanded(s, s.stage.id)
    ensures Stranded(OnFailure(s), id)
  {}

  lemma StrandedKept(s: System, e: Event, id: RefId)
    requires Inv(s) && DeactivatedFirst(s) && Stranded(s, id) && Enabled(s, e)
    ensures Stranded(Apply(s, e), id)
  {
    match e
    case Submit(rows) => StrandedKeptBySubmit(s, rows, id);
    case Reply => StrandedKeptByReply(s, id);
    case Failure => StrandedKeptByFailure(s, id);
    case Land(t, newId) => StrandedKeptByLanding(s, t, newId, id);
    case _ =>
  }

  lemma {:induction false} StrandedForever(s: System, es: seq<Event>, id: RefId)
    requires Inv(s) && DeactivatedFirst(s) && Stranded(s, id) && Run(s, es)
    ensures id in End(s, es).refs && End(s, es).refs[id] == NEW_REFERENCE
    decreases |es|
  {
    if es == [] {
    } else {
      InvKept(s, es[0]);
      DeactivatedFirstKept(s, es[0]);
      StrandedKept(s, es[0], id);
      StrandedForever(Apply(s, es[0]), es[1..], id);
    }
  }

  ghost predicate ActiveUnready(s: System, id: RefId) {
    id in s.refs && s.refs[id].active && !s.refs[id].Ready()
  }

  /** A reference that is not stranded can still be deactivated. */
  lemma Rescue(s: System, id: RefId) returns (es: seq<Event>)
    requires Inv(s) && DeactivatedFirst(s) && id in s.refs && !Stranded(s, id)
    ensures Run(s, es) && !ActiveUnready(End(s, es), id)
  {
    es := [];
    if DeactivateLanded(s, id) {
    } else if t :| t in s.wire && s.wire[t] == Deactivate(id) {
      es := Prepend(s, Land(t, 0), []);
    } else {
      var e := if s.stage.Creating? then Reply else Failure;
      es := Prepend(Apply(s, e), Land(Token(s.issued, 0), 0), []);
      es := Prepend(s, e, es);
    }
  }

  /** In any reachable state, a reference stays active and unready in every continuation if and only if it
      was never deactivated, no deactivation of it is on its way, and the page is not about to send one. */
  lemma StrandedIff(s: System, id: RefId)
    requires Inv(s) && DeactivatedFirst(s) && id in s.refs
    ensures (forall es | Run(s, es) :: ActiveUnready(End(s, es), id)) <==> Stranded(s, id)
  {
    if Stranded(s, id) {
      forall es | Run(s, es) ensures ActiveUnready(End(s, es), id) {
        StrandedForever(s, es, id);
      }
    } else {
      var es := Rescue(s, id);
    }
  }

  lemma CreateReplyIsLost(s: System, rows: seq<Row>, id: RefId) returns (es: seq<Event>)
    requires Init(s) && ValidRows(rows)
    ensures Run(s, es) && End(s, es).stage.Idle? && Stranded(End(s, es), id)
  {
    var s1 := Apply(s, Submit(rows));
    var s2 := Apply(s1, Land(Token(s.issued, 0), id));
    es := Prepend(s2, Failure, []);
    es := Prepend(s1, Land(Token(s.issued, 0), id), es);
    es := Prepend(s, Submit(rows), es);
  }

  /** It does happen: when a creation takes effect but is reported as failed, the reference stays active
      without photo or stock for good, and nothing the page does later, retries included, touches it. */
  lemma LostCreateReplyLeavesActiveReference(s: System, rows: seq<Row>, id: RefId) returns (es: seq<Event>)
    requires Init(s) && ValidRows(rows)
    ensures Run(s, es) && End(s, es).stage.Idle? && Stranded(End(s, es), id)
    ensures forall more | Run(End(s, es), more) :: ActiveUnready(End(End(s, es), more), id)
  {
    es := CreateReplyIsLost(s, rows, id);
    DeactivatedFirstOnRuns(s, es);
    StrandedIff(End(s, es), id);
  }

  // ---- What a successful submission leaves --------------------------------------------------------

  ghost function Entered(rows: seq<Row>): map<Size, nat> {
    if rows == [] then map[]
    else Entered(rows[..|rows| - 1])[rows[|rows| - 1].size := rows[|rows| - 1].quantity]
  }

  lemma {:induction false} EnteredIsRows(rows: seq<Row>)
    requires forall j, k | 0 <= j < k < |rows| :: rows[j].size != rows[k].size
    ensures forall k | 0 <= k < |rows| ::
              rows[k].size in Entered(rows) && Entered(rows)[rows[k].size] == rows[k].quantity
    ensures forall z | z in Entered(rows) :: exists k | 0 <= k < |rows| :: rows[k].size == z
  {
    if rows == [] {
    } else {
      var init := rows[..|rows| - 1];
      EnteredIsRows(init);
      forall z | z in Entered(rows) ensures exists k | 0 <= k < |rows| :: rows[k].size == z {
        if z in Entered(init) {
          var k :| 0 <= k < |init| && init[k].size == z;
          assert rows[k].size == z;
        } else {
          assert rows[|rows| - 1].size == z;
        }
      }
    }
  }

  /** Active, with a photo, and with exactly this stock. */
  ghost predicate Exact(s: System, id: RefId, stock: map<Size, nat>) {
    id in s.refs && s.refs[id] == Reference(true, true, stock)
  }

  /** A request that cannot spoil reference `id` once it is as `stock` says. */
  ghost predicate Harmless(r: Request, id: RefId, stock: map<Size, nat>) {
    && r != Deactivate(id)
    && (r.SetStock? && r.id == id ==> r.size in stock && stock[r.size] == r.quantity)
  }

  ghost predicate HarmlessWire(s: System, id: RefId, stock: map<Size, nat>) {
    forall t | t in s.wire :: Harmless(s.wire[t], id, stock)
  }

  /** Stock on its way from what it was to `stock`: sizes not entered are already right. */
  ghost predicate PartWay(now: map<Size, nat>, stock: map<Size, nat>, entered: set<Size>) {
    now.Keys <= stock.Keys && forall z | z in stock && z !in entered :: z in now && now[z] == stock[z]
  }

  ghost predicate Holds(stock: map<Size, nat>, row: Row) {
    row.size in stock && stock[row.size] == row.quantity
  }

  ghost predicate AllHold(stock: map<Size, nat>, rows: seq<Row>) {
    forall k | 0 <= k < |rows| :: Holds(stock, rows[k])
  }

  /** From the photo upload on, as long as every request has succeeded. */
  ghost predicate OnTrack(s: System, id: RefId, rows: seq<Row>, stock: map<Size, nat>) {
    && id in s.refs && s.rows == rows && HarmlessWire(s, id, stock) && AllHold(stock, rows)
    && PartWay(s.refs[id].stock, stock, Entered(rows).Keys)
    && match s.stage
       case Uploading(i, _) => i == id
       case Stocking(i, call) =>
         i == id && forall k | 0 <= k < |rows| && Token(call, k) in s.landed :: Holds(s.refs[id].stock, rows[k])
       case Activating(i, t) =>
         i == id && s.refs[id].stock == stock && s.refs[id].photo && (t in s.landed ==> s.refs[id].active)
       case Published(i) => i == id && Exact(s, id, stock)
       case _ => false
  }

  /** Not on track any more, and without a new submission never again. */
  ghost predicate GivenUp(s: System) {
    s.stage.Idle? || s.stage.Compensating?
  }

  lemma TrackKept(s: System, e: Event, id: RefId, rows: seq<Row>, stock: map<Size, nat>)
    requires Inv(s) && OnTrack(s, id, rows, stock) && Enabled(s, e) && !e.Submit?
    ensures OnTrack(Apply(s, e), id, rows, stock) || GivenUp(Apply(s, e))
  {
    match e
    case Reply =>
      ReplyKeepsTrack(s, id, rows, stock);
    case Land(t, newId) =>
      LandKeepsTrack(s, t, newId, id, rows, stock);
    case _ =>
  }

  lemma AllHoldMeansDone(now: map<Size, nat>, stock: map<Size, nat>, rows: seq<Row>)
    requires ValidRows(rows) && PartWay(now, stock, Entered(rows).Keys)
    requires AllHold(now, rows) && AllHold(stock, rows)
    ensures now == stock
  {
    EnteredIsRows(rows);
    forall z | z in stock ensures z in now && now[z] == stock[z] {
      if z in Entered(rows) {
        var k :| 0 <= k < |rows| && rows[k].size == z;
        assert Holds(now, rows[k]) && Holds(stock, rows[k]);
      }
    }
  }

  lemma ReplyKeepsTrack(s: System, id: RefId, rows: seq<Row>, stock: map<Size, nat>)
    requires TokensOk(s) && ValidRows(s.rows) && OnTrack(s, id, rows, stock) && Answered(s)
    requires s.stage.Stocking? ==> s.refs[id].photo
    ensures OnTrack(OnReply(s), id, rows, stock)
  {
    var s' := OnReply(s);
    if s.stage.Uploading? {
      forall t | t in s'.wire ensures Harmless(s'.wire[t], id, stock) {
        if t in StockRequests(id, s.issued, rows) {
          assert Holds(stock, rows[t.row]);
        }
      }
      forall k | 0 <= k < |rows| ensures Token(s.issued, k) !in s.landed {}
    } else if s.stage.Stocking? {
      AllHoldMeansDone(s.refs[id].stock, stock, rows);
      assert Token(s.issued, 0) !in s.landed;
    }
  }

  lemma LandKeepsTrack(s: System, t: Token, newId: RefId, id: RefId, rows: seq<Row>, stock: map<Size, nat>)
    requires OnTrack(s, id, rows, stock) && Enabled(s, Land(t, newId))
    requires s.stage.Stocking? ==> forall k | 0 <= k < |rows| ::
               Names(s, Token(s.stage.call, k), SetStock(id, rows[k].size, rows[k].quantity))
    requires s.stage.Activating? ==> Names(s, s.stage.token, Activate(id))
    ensures OnTrack(Apply(s, Land(t, newId)), id, rows, stock)
  {
    var r, s' := s.wire[t], Apply(s, Land(t, newId));
    assert Harmless(r, id, stock);
    forall u | u in s'.wire ensures Harmless(s'.wire[u], id, stock) {
      assert s'.wire[u] == s.wire[u];
    }
    if r.Create? || r.Update? || r.id != id {
      assert s'.refs[id] == s.refs[id];
    } else if r.SetStock? {
      var now := s.refs[id].stock;
      assert s'.refs[id] == s.refs[id].(stock := now[r.size := r.quantity]);
      assert now == stock ==> now[r.size := r.quantity] == stock;
      if s.stage.Stocking? {
        forall k | 0 <= k < |rows| && Token(s.stage.call, k) in s'.landed ensures Holds(s'.refs[id].stock, rows[k]) {
          assert Holds(stock, rows[k]);
        }
      }
    } else {
      assert s'.refs[id].stock == s.refs[id].stock;
    }
  }

  ghost predicate NoSubmit(es: seq<Event>) {
    forall i | 0 <= i < |es| :: !es[i].Submit?
  }

  lemma {:induction false} TrackHoldsOnRuns(s: System, es: seq<Event>, id: RefId, rows: seq<Row>, stock: map<Size, nat>)
    requires Inv(s) && (OnTrack(s, id, rows, stock) || GivenUp(s)) && Run(s, es) && NoSubmit(es)
    ensures OnTrack(End(s, es), id, rows, stock) || GivenUp(End(s, es))
    decreases |es|
  {
    if es == [] {
    } else {
      var e := es[0];
      InvKept(s, e);
      if !GivenUp(s) {
        TrackKept(s, e, id, rows, stock);
      }
      assert forall i | 0 <= i < |es[1..]| :: es[1..][i] == es[i + 1];
      TrackHoldsOnRuns(Apply(s, e), es[1..], id, rows, stock);
    }
  }

  /** The stock a successful submission should leave: what was entered, over what was there. */
  ghost function Wanted(s: System): map<Size, nat>
    requires s.stage.Uploading? && s.stage.id in s.refs && ValidRows(s.rows)
  {
    s.refs[s.stage.id].stock + Entered(s.rows)
  }

  lemma HarmlessMeansExact(s: System, es: seq<Event>)
    requires Inv(s) && s.stage.Uploading? && HarmlessWire(s, s.stage.id, Wanted(s))
    requires Run(s, es) && NoSubmit(es) && End(s, es).stage.Published?
    ensures Exact(End(s, es), s.stage.id, Wanted(s))
  {
    EnteredIsRows(s.rows);
    assert OnTrack(s, s.stage.id, s.rows, Wanted(s));
    TrackHoldsOnRuns(s, es, s.stage.id, s.rows, Wanted(s));
  }

  // ---- A stale request that does spoil it ---------------------------------------------------------------

  lemma {:induction false} Concat(s: System, es: seq<Event>, more: seq<Event>) returns (all: seq<Event>)
    requires Run(s, es) && Run(End(s, es), more)
    ensures all == es + more && Run(s, all) && End(s, all) == End(End(s, es), more)
    decreases |es|
  {
    all := es + more;
    if es == [] {
      assert all == more;
    } else {
      var rest := Concat(Apply(s, es[0]), es[1..], more);
      assert all[1..] == rest;
    }
  }

  /** Request `stale`, from an earlier call, is still on its way. */
  ghost predicate StillThere(s: System, stale: Token, r: Request) {
    stale in s.wire && s.wire[stale] == r && stale.call < s.issued && !r.Create?
  }

  /** Land the remaining stock rows, leaving request `stale` on the wire. */
  lemma {:induction false} LandRows(s: System, k: nat, stale: Token) returns (es: seq<Event>)
    requires s.stage.Stocking? && k <= |s.rows|
    requires forall j | 0 <= j < k :: Token(s.stage.call, j) in s.landed
    requires forall j | k <= j < |s.rows| ::
               Token(s.stage.call, j) in s.wire && s.wire[Token(s.stage.call, j)].SetStock?
    requires stale in s.wire && stale.call != s.stage.call
    ensures Run(s, es) && NoSubmit(es)
    ensures var s' := End(s, es);
            && s'.stage == s.stage && s'.refs.Keys == s.refs.Keys && s'.started == s.started && Answered(s')
            && stale in s'.wire && s'.wire[stale] == s.wire[stale] && s'.issued == s.issued
    decreases |s.rows| - k
  {
    if k == |s.rows| {
      es := [];
    } else {
      var e := Land(Token(s.stage.call, k), 0);
      es := LandRows(Apply(s, e), k + 1, stale);
      es := Prepend(s, e, es);
    }
  }

  /** From the answered photo upload until every stock row is answered. */
  lemma StockAll(s: System, stale: Token) returns (es: seq<Event>)
    requires Inv(s) && s.stage.Uploading? && Answered(s) && stale in s.wire && StillThere(s, stale, s.wire[stale])
    ensures Run(s, es) && NoSubmit(es)
    ensures var s' := End(s, es);
            && s'.stage.Stocking? && s'.stage.id == s.stage.id && s'.refs.Keys == s.refs.Keys
            && s'.started == s.started && Answered(s') && StillThere(s', stale, s.wire[stale])
  {
    var s1 := Apply(s, Reply);
    forall k | 0 <= k < |s.rows|
      ensures Token(s.issued, k) in s1.wire && s1.wire[Token(s.issued, k)].SetStock?
    {
      assert Token(s.issued, k) in StockRequests(s.stage.id, s.issued, s.rows);
    }
    es := LandRows(s1, 0, stale);
    es := Prepend(s, Reply, es);
  }

  lemma SendActivation(s: System, stale: Token) returns (es: seq<Event>)
    requires s.stage.Stocking? && Answered(s) && stale in s.wire && StillThere(s, stale, s.wire[stale])
    ensures Run(s, es) && NoSubmit(es)
    ensures var s' := End(s, es);
            && s'.stage.Activating? && s'.stage.id == s.stage.id && s'.refs == s.refs && s'.started == s.started
            && StillThere(s', stale, s.wire[stale])
            && s'.stage.token.call >= s.issued
            && s'.stage.token in s'.wire && s'.wire[s'.stage.token] == Activate(s.stage.id)
  {
    es := Prepend(s, Reply, []);
  }

  lemma UploadLands(s: System, stale: Token)
    requires Inv(s) && s.stage.Uploading? && s.stage.token in s.wire
    requires stale in s.wire && StillThere(s, stale, s.wire[stale]) && !s.wire[stale].UploadPhoto?
    ensures Enabled(s, Land(s.stage.token, 0))
    ensures var s' := Apply(s, Land(s.stage.token, 0));
            && Inv(s') && Answered(s') && s'.stage == s.stage && s'.started == s.started && s'.issued == s.issued
            && stale in s'.wire && StillThere(s', stale, s.wire[stale])
            && s.stage.id in s'.refs
  {
    assert s.wire[s.stage.token] == UploadPhoto(s.stage.id);
    InvKept(s, Land(s.stage.token, 0));
  }

  /** From the answered photo upload to the activation. */
  lemma StockThenSend(s: System, stale: Token) returns (es: seq<Event>)
    requires Inv(s) && s.stage.Uploading? && Answered(s) && s.stage.id in s.refs
    requires stale in s.wire && StillThere(s, stale, s.wire[stale])
    ensures Run(s, es) && NoSubmit(es)
    ensures var s' := End(s, es);
            && s'.stage.Activating? && s'.stage.id == s.stage.id && s.stage.id in s'.refs && s'.started == s.started
            && StillThere(s', stale, s.wire[stale]) && s'.stage.token != stale
            && s'.stage.token in s'.wire && s'.wire[s'.stage.token] == Activate(s.stage.id)
  {
    es := StockAll(s, stale);
    var more := SendActivation(End(s, es), stale);
    es := Concat(s, es, more);
  }

  /** From the photo upload to the activation. */
  lemma ReachActivation(s: System, stale: Token) returns (es: seq<Event>)
    requires Inv(s) && s.stage.Uploading? && s.stage.token in s.wire
    requires stale in s.wire && StillThere(s, stale, s.wire[stale]) && !s.wire[stale].UploadPhoto?
    ensures Run(s, es) && NoSubmit(es)
    ensures var s' := End(s, es);
            && s'.stage.Activating? && s'.stage.id == s.stage.id && s.stage.id in s'.refs && s'.started == s.started
            && StillThere(s', stale, s.wire[stale]) && s'.stage.token != stale
            && s'.stage.token in s'.wire && s'.wire[s'.stage.token] == Activate(s.stage.id)
  {
    var land := Land(s.stage.token, 0);
    UploadLands(s, stale);
    es := StockThenSend(Apply(s, land), stale);
    es := Prepend(s, land, es);
  }

  /** The last steps, with the stale request landing after everything else. */
  lemma ActivateThenLand(s: System, stale: Token) returns (es: seq<Event>)
    requires s.stage.Activating? && s.stage.id in s.refs
    requires s.stage.token in s.wire && s.wire[s.stage.token] == Activate(s.stage.id)
    requires stale in s.wire && stale != s.stage.token && StillThere(s, stale, s.wire[stale])
    ensures Run(s, es) && NoSubmit(es) && End(s, es).stage == Published(s.stage.id)
    ensures s.stage.id in End(s, es).refs
    ensures s.wire[stale] == Deactivate(s.stage.id) ==> !End(s, es).refs[s.stage.id].active
    ensures s.wire[stale].SetStock? && s.wire[stale].id == s.stage.id ==>
              var r := s.wire[stale];
              var now := End(s, es).refs[s.stage.id].stock;
              r.size in now && now[r.size] == r.quantity
  {
    var s1 := Apply(s, Land(s.stage.token, 0));
    var s2 := Apply(s1, Reply);
    es := Prepend(s2, Land(stale, 0), []);
    es := Prepend(s1, Reply, es);
    es := Prepend(s, Land(s.stage.token, 0), es);
  }

  lemma StaleRequestSpoils(s: System, stale: Token) returns (es: seq<Event>)
    requires Inv(s) && s.stage.Uploading? && s.stage.token in s.wire
    requires stale in s.wire && !Harmless(s.wire[stale], s.stage.id, Wanted(s))
    ensures Run(s, es) && NoSubmit(es) && End(s, es).stage == Published(s.stage.id)
    ensures !Exact(End(s, es), s.stage.id, Wanted(s))
    ensures s.wire[stale] == Deactivate(s.stage.id) ==>
              s.stage.id in End(s, es).refs && !End(s, es).refs[s.stage.id].active
  {
    es := ReachActivation(s, stale);
    var more := ActivateThenLand(End(s, es), stale);
    es := Concat(s, es, more);
  }

  /** Take the moment a submission sends the photo.  However it goes on, if it gets to the end it
      leaves the reference active with exactly the entered stock over the old one, now and later, if
      and only if no request still on its way from an earlier attempt contradicts that: a compensating
      deactivation, or a stock row with another quantity. */
  lemma SuccessIsExactIff(s: System)
    requires Inv(s) && s.stage.Uploading? && s.stage.token in s.wire
    ensures (forall es | Run(s, es) && NoSubmit(es) && End(s, es).stage.Published? ::
               Exact(End(s, es), s.stage.id, Wanted(s)))
            <==> HarmlessWire(s, s.stage.id, Wanted(s))
  {
    if HarmlessWire(s, s.stage.id, Wanted(s)) {
      forall es | Run(s, es) && NoSubmit(es) && End(s, es).stage.Published?
        ensures Exact(End(s, es), s.stage.id, Wanted(s))
      {
        HarmlessMeansExact(s, es);
      }
    } else {
      var stale :| stale in s.wire && !Harmless(s.wire[stale], s.stage.id, Wanted(s));
      var es := StaleRequestSpoils(s, stale);
    }
  }

  // ---- What the page remembers ----------------------------------------------------------------------------

  /** The reference whose deactivation was answered last, since the page was last opened. */
  ghost function Remembered(r: Option<RefId>, s: System, es: seq<Event>): Option<RefId>
    requires Run(s, es)
    decreases |es|
  {
    if es == [] then r
    else
      var next := match es[0]
        case Reload => None
        case Reply => if s.stage.Deactivating? then Some(s.stage.id) else r
        case _ => r;
      Remembered(next, Apply(s, es[0]), es[1..])
  }

  /** The page remembers just that reference, whatever fails, succeeds or is compensated in between. */
  lemma {:induction false} PendingIsRemembered(s: System, es: seq<Event>)
    requires Run(s, es)
    ensures End(s, es).pending == Remembered(s.pending, s, es)
    decreases |es|
  {
    if es == [] {
    } else {
      PendingIsRemembered(Apply(s, es[0]), es[1..]);
    }
  }

  ghost predicate NoReload(es: seq<Event>) {
    forall i | 0 <= i < |es| :: !es[i].Reload?
  }

  /** A reference is created only while none is remembered. */
  ghost predicate FirstIsUnknown(s: System) {
    s.stage.Creating? || s.stage.Deactivating? ==> s.pending.None?
  }

  lemma FirstStaysUnknown(s: System, e: Event)
    requires FirstIsUnknown(s) && Enabled(s, e)
    ensures FirstIsUnknown(Apply(s, e))
  {}

  lemma {:induction false} FirstUnknownOnRuns(s: System, es: seq<Event>)
    requires FirstIsUnknown(s) && Run(s, es)
    ensures FirstIsUnknown(End(s, es))
    decreases |es|
  {
    if es == [] {
    } else {
      FirstStaysUnknown(s, es[0]);
      FirstUnknownOnRuns(Apply(s, es[0]), es[1..]);
    }
  }

  /** No create is on the wire that was not there before. */
  ghost predicate NoNewCreate(s: System, s': System) {
    forall t | t in s'.wire && s'.wire[t].Create? :: t in s.wire && s.wire[t].Create?
  }

  lemma ReplyKeepsPending(s: System)
    requires FirstIsUnknown(s) && s.pending.Some? && Answered(s)
    ensures OnReply(s).pending == s.pending && NoNewCreate(s, OnReply(s))
  {}

  lemma PendingStays(s: System, e: Event)
    requires FirstIsUnknown(s) && s.pending.Some? && Enabled(s, e) && !e.Reload?
    ensures Apply(s, e).pending == s.pending && NoNewCreate(s, Apply(s, e))
  {
    match e
    case Reply => ReplyKeepsPending(s);
    case _ =>
  }

  /** Whenever the page is submitted, it sends the update of the reference it remembers, and nothing else. */
  ghost predicate SubmitsUpdate(s: System, id: RefId) {
    forall rows | Enabled(s, Submit(rows)) ::
      var t := Token(s.issued, 0);
      && Apply(s, Submit(rows)).stage == Updating(id, t)
      && Apply(s, Submit(rows)).wire == s.wire[t := Update(id)]
  }

  lemma {:induction false} RetriesUpdateFrom(s: System, es: seq<Event>, id: RefId)
    requires FirstIsUnknown(s) && s.pending == Some(id) && Run(s, es) && NoReload(es)
    ensures var s' := End(s, es);
            s'.pending == Some(id) && NoNewCreate(s, s') && SubmitsUpdate(s', id)
    decreases |es|
  {
    if es == [] {
    } else {
      assert forall i | 0 <= i < |es[1..]| :: es[1..][i] == es[i + 1];
      PendingStays(s, es[0]);
      FirstStaysUnknown(s, es[0]);
      RetriesUpdateFrom(Apply(s, es[0]), es[1..], id);
    }
  }

  /** Once the page remembers a reference, and until it is opened anew: it goes on remembering it, through any
      number of failures, compensations and retries; it never sends another create; and whenever it is
      submitted, what it sends is the update of that reference. */
  lemma RetriesUpdate(s: System, es: seq<Event>, more: seq<Event>, id: RefId)
    requires Init(s) && Run(s, es) && End(s, es).pending == Some(id)
    requires Run(End(s, es), more) && NoReload(more)
    ensures var s', s'' := End(s, es), End(End(s, es), more);
            s''.pending == Some(id) && NoNewCreate(s', s'') && SubmitsUpdate(s'', id)
  {
    FirstUnknownOnRuns(s, es);
    RetriesUpdateFrom(End(s, es), more, id);
  }

  /** A submission of a page that remembers nothing sends a create. */
  lemma FirstSubmissionCreates(s: System, rows: seq<Row>)
    requires Enabled(s, Submit(rows)) && s.pending.None?
    ensures var t := Token(s.issued, 0);
            && Apply(s, Submit(rows)).stage == Creating(t)
            && Apply(s, Submit(rows)).wire == s.wire[t := Create]
  {}

  lemma Compensate(s: System) returns (es: seq<Event>)
    requires s.stage.Uploading? && s.started.None? && s.stage.id in s.refs
    ensures Run(s, es)
    ensures var s' := End(s, es);
            && s'.stage.Idle? && s'.pending == s.pending
            && s.stage.id in s'.refs && !s'.refs[s.stage.id].active
  {
    var s1 := Apply(s, Failure);
    var land := Land(Token(s.issued, 0), 0);
    var s2 := Apply(s1, land);
    es := Prepend(s2, Reply, []);
    es := Prepend(s1, land, es);
    es := Prepend(s, Failure, es);
  }

  /** From the start: the upload of a first submission fails, its compensation succeeds, and the next
      submission updates the same reference, inactive by now. */
  lemma RetryAfterCompensation(s: System, rows: seq<Row>, again: seq<Row>, id: RefId) returns (es: seq<Event>)
    requires Init(s) && ValidRows(rows) && ValidRows(again)
    ensures Run(s, es)
    ensures var s' := End(s, es);
            && s'.stage.Updating? && s'.stage.id == id
            && s'.stage.token in s'.wire && s'.wire[s'.stage.token] == Update(id)
            && id in s'.refs && !s'.refs[id].active
  {
    es := FirstUpload(s, rows, id);
    var compensation := Compensate(End(s, es));
    es := Concat(s, es, compensation);
    var s1 := End(s, es);
    var last := Prepend(s1, Submit(again), []);
    es := Concat(s, es, last);
  }

  // ---- How a retry meets a stale request -----------------------------------------------------------------

  /** A first submission up to its photo upload. */
  lemma FirstUpload(s: System, rows: seq<Row>, id: RefId) returns (es: seq<Event>)
    requires Init(s) && ValidRows(rows)
    ensures Run(s, es)
    ensures var s' := End(s, es);
            && s'.stage.Uploading? && s'.stage.id == id && s'.started.None? && s'.pending == Some(id) && id in s'.refs
  {
    var n := s.issued;
    var s1 := Apply(s, Submit(rows));
    var s2 := Apply(s1, Land(Token(n, 0), id));
    var s3 := Apply(s2, Reply);
    var s4 := Apply(s3, Land(Token(n + 1, 0), 0));
    es := Prepend(s4, Reply, []);
    es := Prepend(s3, Land(Token(n + 1, 0), 0), es);
    es := Prepend(s2, Reply, es);
    es := Prepend(s1, Land(Token(n, 0), id), es);
    es := Prepend(s, Submit(rows), es);
  }

  /** The upload fails, and the compensation fails too as far as the page can tell. */
  lemma FailTwice(s: System) returns (es: seq<Event>)
    requires s.stage.Uploading? && s.started.None?
    ensures Run(s, es)
    ensures var s' := End(s, es);
            && s'.stage.Idle? && s'.pending == s.pending && s'.refs == s.refs
            && exists t :: t in s'.wire && StillThere(s', t, Deactivate(s.stage.id))
  {
    var s1 := Apply(s, Failure);
    var s2 := Apply(s1, Failure);
    assert Token(s.issued, 0) in s2.wire && StillThere(s2, Token(s.issued, 0), Deactivate(s.stage.id));
    es := Prepend(s1, Failure, []);
    es := Prepend(s, Failure, es);
  }

  lemma RetryReachesUpload(s: System, rows: seq<Row>, stale: Token) returns (es: seq<Event>)
    requires s.stage.Idle? && s.pending.Some? && ValidRows(rows)
    requires stale in s.wire && StillThere(s, stale, s.wire[stale])
    ensures Run(s, es)
    ensures var s' := End(s, es);
            && s'.stage.Uploading? && s'.stage.id == s.pending.value && s'.stage.token in s'.wire
            && s'.started == s.pending && StillThere(s', stale, s.wire[stale])
  {
    var s1 := Apply(s, Submit(rows));
    var s2 := Apply(s1, Land(Token(s.issued, 0), 0));
    es := Prepend(s2, Reply, []);
    es := Prepend(s1, Land(Token(s.issued, 0), 0), es);
    es := Prepend(s, Submit(rows), es);
  }

  /** From the start the page can get to a retry that sends its photo while the compensating deactivation
      of the first attempt is still on its way. */
  lemma StaleDeactivationIsReached(s: System, rows: seq<Row>, again: seq<Row>, id: RefId)
    returns (es: seq<Event>, stale: Token)
    requires Init(s) && ValidRows(rows) && ValidRows(again)
    ensures Run(s, es) && Inv(End(s, es))
    ensures var u := End(s, es);
            && u.stage.Uploading? && u.stage.id == id && u.stage.token in u.wire && u.started == Some(id)
            && stale in u.wire && StillThere(u, stale, Deactivate(id))
  {
    es := FirstUpload(s, rows, id);
    var failures := FailTwice(End(s, es));
    es := Concat(s, es, failures);
    var s1 := End(s, es);
    stale :| stale in s1.wire && StillThere(s1, stale, Deactivate(id));
    var more := RetryReachesUpload(s1, again, stale);
    es := Concat(s, es, more);
    InvHoldsOnRuns(s, es);
  }

  /** So a retry in which every request of its own succeeds can end with the reference published and
      inactive. */
  lemma PublishedYetInactive(s: System, rows: seq<Row>, again: seq<Row>, id: RefId) returns (es: seq<Event>)
    requires Init(s) && ValidRows(rows) && ValidRows(again)
    ensures Run(s, es)
    ensures var s' := End(s, es);
            s'.stage == Published(id) && id in s'.refs && !s'.refs[id].active
  {
    var stale;
    es, stale := StaleDeactivationIsReached(s, rows, again, id);
    var u := End(s, es);
    assert !Harmless(u.wire[stale], id, Wanted(u));
    var more := StaleRequestSpoils(u, stale);
    es := Concat(s, es, more);
  }

  // ---- A first attempt never meets a stale request ------------------------------------------------------

  ghost predicate OnlyAbout(s: System, id: RefId, own: Token) {
    forall t | t in s.wire && !s.wire[t].Create? && s.wire[t].id == id :: t == own
  }

  ghost predicate Unstocked(s: System, id: RefId) {
    id in s.refs && s.refs[id].stock == map[]
  }

  ghost predicate FirstAttemptClean(s: System) {
    match s.stage
    case Creating(t) => t in s.created ==> OnlyAbout(s, s.created[t], t) && Unstocked(s, s.created[t])
    case Deactivating(id, t) => OnlyAbout(s, id, t) && Unstocked(s, id)
    case Uploading(id, t) => s.started.None? ==> OnlyAbout(s, id, t) && Unstocked(s, id)
    case _ => true
  }

  lemma FirstAttemptCleanKept(s: System, e: Event)
    requires Inv(s) && FirstAttemptClean(s) && Enabled(s, e)
    ensures FirstAttemptClean(Apply(s, e))
  {
    match e
    case Reply => ReplyKeepsFirstAttempt(s);
    case Land(t, newId) => LandKeepsFirstAttempt(s, t, newId);
    case Submit(_) => assert Token(s.issued, 0) !in s.created;
    case _ =>
  }

  lemma ReplyKeepsFirstAttempt(s: System)
    requires Inv(s) && FirstAttemptClean(s) && Answered(s)
    ensures FirstAttemptClean(OnReply(s))
  {
    if s.stage.Creating? {
      assert s.stage.token !in s.wire;
    }
  }

  lemma LandKeepsFirstAttempt(s: System, t: Token, newId: RefId)
    requires Inv(s) && FirstAttemptClean(s) && Enabled(s, Land(t, newId))
    ensures FirstAttemptClean(Apply(s, Land(t, newId)))
  {
    var s' := Apply(s, Land(t, newId));
    assert forall u | u in s'.wire :: u in s.wire && s'.wire[u] == s.wire[u];
    forall id | Unstocked(s, id) && (s.wire[t].SetStock? ==> s.wire[t].id != id)
      ensures newId != id || !s.wire[t].Create?
      ensures Unstocked(s', id)
    {}
  }

  lemma {:induction false} FirstAttemptCleanOnRuns(s: System, es: seq<Event>)
    requires Inv(s) && FirstAttemptClean(s) && Run(s, es)
    ensures FirstAttemptClean(End(s, es))
    decreases |es|
  {
    if es == [] {
    } else {
      InvKept(s, es[0]);
      FirstAttemptCleanKept(s, es[0]);
      FirstAttemptCleanOnRuns(Apply(s, es[0]), es[1..]);
    }
  }

  lemma FirstUploadIsHarmless(u: System)
    requires Inv(u) && FirstAttemptClean(u) && u.stage.Uploading? && u.started.None?
    ensures Wanted(u) == Entered(u.rows) && HarmlessWire(u, u.stage.id, Wanted(u))
  {
    forall t | t in u.wire ensures Harmless(u.wire[t], u.stage.id, Wanted(u)) {
      assert u.wire[t].Create? || u.wire[t].id != u.stage.id || t == u.stage.token;
    }
  }

  /** A first submission that gets to the end leaves the reference active, with a photo and with
      exactly the entered stock, whatever is still on the wire then or lands afterwards. */
  lemma FirstSuccessIsExact(s: System, es: seq<Event>, more: seq<Event>)
    requires Init(s) && Run(s, es) && End(s, es).stage.Uploading? && End(s, es).started.None?
    requires Run(End(s, es), more) && NoSubmit(more) && End(End(s, es), more).stage.Published?
    ensures Exact(End(End(s, es), more), End(s, es).stage.id, Entered(End(s, es).rows))
  {
    InvHoldsOnRuns(s, es);
    FirstAttemptCleanOnRuns(s, es);
    FirstUploadIsHarmless(End(s, es));
    HarmlessMeansExact(End(s, es), more);
  }

  // ---- What a failed retry tells ---------------------------------------------------------------------------

  ghost predicate SafelyInactive(s: System, id: RefId) {
    && id in s.refs && !s.refs[id].active
    && forall t | t in s.wire :: s.wire[t] != Activate(id)
  }

  lemma {:induction false} StaysInactive(s: System, es: seq<Event>, id: RefId)
    requires s.stage.Idle? && SafelyInactive(s, id) && Run(s, es) && NoSubmit(es)
    ensures id in End(s, es).refs && !End(s, es).refs[id].active
    decreases |es|
  {
    if es == [] {
    } else {
      assert forall i | 0 <= i < |es[1..]| :: es[1..][i] == es[i + 1];
      StaysInactive(Apply(s, es[0]), es[1..], id);
    }
  }

  /** A retry that fails says that the reference is saved as inactive.  That is so, and stays so until
      the next submission, if and only if the reference is inactive at that moment and no activation of it,
      of this attempt or an earlier one, is still on its way. */
  lemma RetryTextIsTrueIff(s: System)
    requires Inv(s) && Awaiting(s.stage) && s.started.Some?
    ensures !s.stage.Creating? && Apply(s, Failure).stage.Idle?
    ensures (forall es | Run(Apply(s, Failure), es) && NoSubmit(es) ::
               var refs := End(Apply(s, Failure), es).refs;
               s.stage.id in refs && !refs[s.stage.id].active)
            <==>
            SafelyInactive(s, s.stage.id)
  {
    var s', id := Apply(s, Failure), s.stage.id;
    if SafelyInactive(s, id) {
      forall es | Run(s', es) && NoSubmit(es) ensures id in End(s', es).refs && !End(s', es).refs[id].active {
        StaysInactive(s', es, id);
      }
    } else if s.refs[id].active {
      assert Run(s', []) && NoSubmit([]) && End(s', []) == s';
    } else {
      var t :| t in s.wire && s.wire[t] == Activate(id);
      var es := Prepend(s', Land(t, 0), []);
      assert End(s', es).refs[id].active;
    }
  }

  lemma ActivationLands(s: System, stale: Token) returns (es: seq<Event>)
    requires Inv(s) && s.stage.Uploading? && s.stage.token in s.wire
    requires stale in s.wire && StillThere(s, stale, Deactivate(s.stage.id))
    ensures Run(s, es)
    ensures var v := End(s, es);
            && v.stage.Activating? && v.stage.id == s.stage.id && v.started == s.started
            && s.stage.id in v.refs && v.refs[s.stage.id].active
  {
    es := ReachActivation(s, stale);
    var a := End(s, es);
    var last := Prepend(a, Land(a.stage.token, 0), []);
    es := Concat(s, es, last);
  }

  /** The text can be false: from the start the page can get to a retry whose activation has taken effect
      while its reply is still out, and whose failure then leaves the reference active. */
  lemma FailedRetryMayLeaveItActive(s: System, rows: seq<Row>, again: seq<Row>, id: RefId) returns (es: seq<Event>)
    requires Init(s) && ValidRows(rows) && ValidRows(again)
    ensures Run(s, es)
    ensures var v := End(s, es);
            && v.stage.Activating? && v.stage.id == id && v.started == Some(id)
            && !SafelyInactive(v, id)
            && id in Apply(v, Failure).refs && Apply(v, Failure).refs[id].active
  {
    var stale;
    es, stale := StaleDeactivationIsReached(s, rows, again, id);
    var more := ActivationLands(End(s, es), stale);
    es := Concat(s, es, more);
  }
}
