// The page object: the form's checks, and `onSubmit` cut at its awaits.  Each method below runs
// from one await to the next and is one step of the saga.
module ReferenceCreatePages {
  import opened Wrappers
  import opened IntegerDigits
  import opened PublishSaga

  const MAX_PRICE_COP := 2_000_000_000
  const MAX_STOCK_QUANTITY := 2_000_000_000

  // ---- The form -------------------------------------------------------------------------------

  datatype Entry = Entry(size: Size, raw: string)

  /** `stock` is a record, so every size occurs once. */
  datatype Form = Form(priceCop: string, photo: bool, stock: seq<Entry>) {
    ghost predicate Valid() {
      forall i, j | 0 <= i < j < |stock| :: stock[i].size != stock[j].size
    }
  }

  datatype Message =
    | PriceInvalid | PhotoMissing | StockInvalid | NoStock
    | SubmitFailed(savedAsInactive: bool)

  datatype Checked = Rejected(message: Message) | Accepted(priceCop: nat, rows: seq<Row>)

  predicate IsSpace(c: char) {
    c in "\t\n\r \U{000B}\U{000C}\U{00A0}\U{FEFF}\U{1680}\U{2028}\U{2029}\U{202F}\U{205F}\U{3000}"
    || '\U{2000}' <= c <= '\U{200A}'
  }

  predicate IsBlank(raw: string) {
    forall i | 0 <= i < |raw| :: IsSpace(raw[i])
  }

  function Quantity(raw: string): Option<nat> {
    if IsBlank(raw) then Some(0)
    else ParseIntegerDigits(raw, 0, MAX_STOCK_QUANTITY)
  }

  /** A parsed entry; None stands for text that is not a quantity. */
  datatype StockRow = StockRow(size: Size, physicalQuantity: Option<nat>) {
    ghost predicate Is(r: Row) {
      size == r.size && physicalQuantity == Some(r.quantity) && r.quantity > 0
    }
  }

  function StockRows(stock: seq<Entry>): seq<StockRow> {
    seq(|stock|, i requires 0 <= i < |stock| => StockRow(stock[i].size, Quantity(stock[i].raw)))
  }

  /** The rows with a positive quantity, in order. */
  function InitialStock(stock: seq<StockRow>): seq<Row> {
    if stock == [] then []
    else
      var rest, last := InitialStock(stock[..|stock| - 1]), stock[|stock| - 1];
      if last.physicalQuantity.Some? && last.physicalQuantity.value > 0
      then rest + [Row(last.size, last.physicalQuantity.value)]
      else rest
  }

  function CheckForm(form: Form): Checked {
    var priceCop, stockRows := ParseIntegerDigits(form.priceCop, 1, MAX_PRICE_COP), StockRows(form.stock);
    if priceCop.None? then Rejected(PriceInvalid)
    else if !form.photo then Rejected(PhotoMissing)
    else if exists i | 0 <= i < |stockRows| :: stockRows[i].physicalQuantity.None? then Rejected(StockInvalid)
    else if InitialStock(stockRows) == [] then Rejected(NoStock)
    else Accepted(priceCop.value, InitialStock(stockRows))
  }

  ghost predicate RowOf(stock: seq<StockRow>, r: Row) {
    exists i | 0 <= i < |stock| :: stock[i].Is(r)
  }

  lemma {:induction false} InitialStockIs(stock: seq<StockRow>, r: Row)
    ensures r in InitialStock(stock) <==> RowOf(stock, r)
  {
    if stock == [] {
    } else {
      var init, last := stock[..|stock| - 1], stock[|stock| - 1];
      InitialStockIs(init, r);
      assert r in InitialStock(stock) <==> r in InitialStock(init) || last.Is(r);
      if RowOf(init, r) {
        var i :| 0 <= i < |init| && init[i].Is(r);
        assert stock[i].Is(r);
      }
      if RowOf(stock, r) && !last.Is(r) {
        var i :| 0 <= i < |stock| && stock[i].Is(r);
        assert init[i].Is(r);
      }
    }
  }

  lemma {:induction false} OneRowPerSize(stock: seq<StockRow>)
    requires forall i, j | 0 <= i < j < |stock| :: stock[i].size != stock[j].size
    ensures var rows := InitialStock(stock);
            forall j, k | 0 <= j < k < |rows| :: rows[j].size != rows[k].size
  {
    if stock == [] {
    } else {
      var init, last := stock[..|stock| - 1], stock[|stock| - 1];
      var rows := InitialStock(init);
      OneRowPerSize(init);
      forall k | 0 <= k < |rows| ensures rows[k].size != last.size {
        InitialStockIs(init, rows[k]);
        var i :| 0 <= i < |init| && init[i].Is(rows[k]);
        assert init[i] == stock[i];
      }
      assert InitialStock(stock) == rows || exists r: Row :: r.size == last.size && InitialStock(stock) == rows + [r];
    }
  }

  lemma RowsAreValid(stock: seq<StockRow>)
    requires forall i, j | 0 <= i < j < |stock| :: stock[i].size != stock[j].size
    ensures InitialStock(stock) != [] ==> ValidRows(InitialStock(stock))
  {
    OneRowPerSize(stock);
    var rows := InitialStock(stock);
    forall k | 0 <= k < |rows| ensures rows[k].quantity > 0 {
      InitialStockIs(stock, rows[k]);
    }
  }

  /** A blank entry counts as zero; any other must be digits, read exactly, and at most the maximum. */
  lemma QuantityIs(raw: string, n: nat)
    ensures Quantity(raw) == Some(n) <==>
            (IsBlank(raw) && n == 0) || (DigitsOnly(raw) && DecimalValue(raw) == n <= 2_000_000_000)
  {
    ParseIsExact(raw, 0, MAX_STOCK_QUANTITY, n);
    if DigitsOnly(raw) {
      assert IsDigit(raw[0]) && !IsSpace(raw[0]);
    }
  }

  ghost predicate PriceFits(form: Form) {
    DigitsOnly(form.priceCop) && 1 <= DecimalValue(form.priceCop) <= 2_000_000_000
  }

  ghost predicate EntryFits(e: Entry) {
    IsBlank(e.raw) || (DigitsOnly(e.raw) && DecimalValue(e.raw) <= 2_000_000_000)
  }

  /** The entry is the text of row r. */
  ghost predicate Enters(e: Entry, r: Row) {
    && e.size == r.size && DigitsOnly(e.raw) && DecimalValue(e.raw) == r.quantity
    && 0 < r.quantity <= 2_000_000_000
  }

  lemma RowOfEntry(e: Entry, r: Row)
    ensures StockRow(e.size, Quantity(e.raw)).Is(r) <==> Enters(e, r)
  {
    QuantityIs(e.raw, r.quantity);
  }

  lemma QuantityFits(e: Entry)
    ensures Quantity(e.raw).Some? <==> EntryFits(e)
  {
    if Quantity(e.raw).Some? {
      QuantityIs(e.raw, Quantity(e.raw).value);
    }
    if EntryFits(e) {
      QuantityIs(e.raw, if IsBlank(e.raw) then 0 else DecimalValue(e.raw));
    }
  }

  /** Some entry is the text of row r. */
  ghost predicate IsEntered(stock: seq<Entry>, r: Row) {
    exists i | 0 <= i < |stock| :: Enters(stock[i], r)
  }

  lemma RowsAreEntries(stock: seq<Entry>, r: Row)
    ensures RowOf(StockRows(stock), r) <==> IsEntered(stock, r)
  {
    var stockRows := StockRows(stock);
    forall i | 0 <= i < |stock| ensures stockRows[i].Is(r) <==> Enters(stock[i], r) {
      RowOfEntry(stock[i], r);
    }
    if i :| 0 <= i < |stock| && Enters(stock[i], r) {
      assert stockRows[i].Is(r);
    }
  }

  lemma InitialStockIsEntered(stock: seq<Entry>)
    ensures forall r :: r in InitialStock(StockRows(stock)) <==> IsEntered(stock, r)
    ensures InitialStock(StockRows(stock)) == [] <==> !exists r :: IsEntered(stock, r)
  {
    var rows := InitialStock(StockRows(stock));
    forall r ensures r in rows <==> IsEntered(stock, r) {
      InitialStockIs(StockRows(stock), r);
      RowsAreEntries(stock, r);
    }
    assert rows != [] ==> rows[0] in rows;
  }

  lemma EntriesFit(stock: seq<Entry>)
    ensures (exists i | 0 <= i < |stock| :: StockRows(stock)[i].physicalQuantity.None?) <==>
            !forall i | 0 <= i < |stock| :: EntryFits(stock[i])
  {
    forall i | 0 <= i < |stock| ensures StockRows(stock)[i].physicalQuantity.Some? <==> EntryFits(stock[i]) {
      QuantityFits(stock[i]);
    }
    if i :| 0 <= i < |stock| && !EntryFits(stock[i]) {
      assert StockRows(stock)[i].physicalQuantity.None?;
    }
  }

  /** The form is accepted exactly when the price is a whole number from 1 to the maximum, there is a
      photo, every stock entry is blank or a whole number up to the maximum, and one is positive; the
      rows are then exactly the positive entries, one per size.  A rejected form is told its first fault in
      this order. */
  lemma AcceptedExactly(form: Form)
    requires form.Valid()
    ensures var fits := forall i | 0 <= i < |form.stock| :: EntryFits(form.stock[i]);
            var some := exists r :: IsEntered(form.stock, r);
            match CheckForm(form)
            case Rejected(PriceInvalid) => !PriceFits(form)
            case Rejected(PhotoMissing) => PriceFits(form) && !form.photo
            case Rejected(StockInvalid) => PriceFits(form) && form.photo && !fits
            case Rejected(NoStock) => PriceFits(form) && form.photo && fits && !some
            case Rejected(SubmitFailed(_)) => false
            case Accepted(priceCop, rows) =>
              && PriceFits(form) && form.photo && fits && some
              && priceCop == DecimalValue(form.priceCop) && ValidRows(rows)
              && forall r :: r in rows <==> IsEntered(form.stock, r)
  {
    PriceIsExact(form.priceCop);
    EntriesFit(form.stock);
    InitialStockIsEntered(form.stock);
    RowsAreValid(StockRows(form.stock));
  }

  lemma PriceIsExact(raw: string)
    ensures var price := ParseIntegerDigits(raw, 1, MAX_PRICE_COP);
            && (price.Some? <==> DigitsOnly(raw) && 1 <= DecimalValue(raw) <= MAX_PRICE_COP)
            && (price.Some? ==> price.value == DecimalValue(raw))
  {
    var price := ParseIntegerDigits(raw, 1, MAX_PRICE_COP);
    if price.Some? {
      ParseIsExact(raw, 1, MAX_PRICE_COP, price.value);
    }
    if DigitsOnly(raw) {
      ParseIsExact(raw, 1, MAX_PRICE_COP, DecimalValue(raw));
    }
  }

  // ---- The network and the server -----------------------------------------------------------------

  class CatalogApi {
    var refs: map<RefId, Reference>
    var issued: nat
    var wire: map<Token, Request>
    var landed: map<Token, Request>
    var created: map<Token, RefId>

    constructor ()
      ensures refs == map[] && wire == map[] && landed == map[] && created == map[]
    {
      refs, issued, wire, landed, created := map[], 0, map[], map[], map[];
    }

    method Send(request: Request) returns (token: Token)
      modifies this`issued, this`wire
      ensures token == Token(old(issued), 0)
      ensures issued == old(issued) + 1 && wire == old(wire)[token := request]
    {
      token := Token(issued, 0);
      wire, issued := wire[token := request], issued + 1;
    }

    /** The requests of a Promise.all over the stock rows. */
    method SendStock(id: RefId, rows: seq<Row>) returns (call: nat)
      modifies this`issued, this`wire
      ensures call == old(issued) && issued == old(issued) + 1
      ensures wire == old(wire) + StockRequests(id, call, rows)
    {
      call := issued;
      wire, issued := wire + StockRequests(id, call, rows), issued + 1;
    }
  }

  // ---- The page -------------------------------------------------------------------------------------

  class ReferenceCreatePage {
    const api: CatalogApi
    var pendingReferenceId: Option<RefId>
    var submitting: bool
    var errorMessage: Option<Message>
    // Locals of the onSubmit call under way.
    var stage: Stage
    var rows: seq<Row>
    var started: Option<RefId>

    constructor (api: CatalogApi)
      ensures this.api == api && stage.Idle? && pendingReferenceId.None? && started.None? && !submitting
    {
      this.api := api;
      stage, rows, started := Idle, [], None;
      pendingReferenceId, submitting, errorMessage := None, false, None;
    }

    ghost function View(): System
      reads this, api
    {
      System(api.refs, stage, rows, pendingReferenceId, started, api.issued, api.wire, api.landed, api.created)
    }

    ghost predicate Valid()
      reads this
    {
      submitting <==> Awaiting(stage)
    }

    /** Up to the first await. */
    method OnSubmit(form: Form)
      requires Valid() && stage.Idle? && form.Valid()
      modifies this, api
      ensures Valid()
      ensures match CheckForm(form)
              case Rejected(message) => View() == old(View()) && errorMessage == Some(message)
              case Accepted(_, rows) =>
                && Enabled(old(View()), Submit(rows))
                && View() == Apply(old(View()), Submit(rows))
                && errorMessage == None
    {
      RowsAreValid(StockRows(form.stock));
      submitting, errorMessage := true, None;
      match CheckForm(form) {
        case Rejected(message) =>
          errorMessage, submitting := Some(message), false;
        case Accepted(_, accepted) =>
          rows, started := accepted, pendingReferenceId;
          if pendingReferenceId.None? {
            var t := api.Send(Create);
            stage := Creating(t);
          } else {
            var t := api.Send(Update(pendingReferenceId.value));
            stage := Updating(pendingReferenceId.value, t);
          }
      }
    }

    /** What is awaited has succeeded: on to the next await, or to the end. */
    method OnSuccess()
      requires Valid() && Answered(View())
      modifies this, api
      ensures Valid() && View() == OnReply(old(View()))
      ensures old(stage).Compensating? ==> errorMessage == Some(SubmitFailed(false))
      ensures !old(stage).Compensating? ==> errorMessage == old(errorMessage)
    {
      match stage {
        case Creating(t) =>
          var id := api.created[t];
          var next := api.Send(Deactivate(id));
          stage := Deactivating(id, next);
        case Deactivating(id, _) =>
          pendingReferenceId := Some(id);
          var next := api.Send(UploadPhoto(id));
          stage := Uploading(id, next);
        case Updating(id, _) =>
          var next := api.Send(UploadPhoto(id));
          stage := Uploading(id, next);
        case Uploading(id, _) =>
          var call := api.SendStock(id, rows);
          stage := Stocking(id, call);
        case Stocking(id, _) =>
          var next := api.Send(Activate(id));
          stage := Activating(id, next);
        case Activating(id, _) =>
          stage, submitting := Published(id), false;
        case Compensating(_, _) =>
          errorMessage, stage, submitting := Some(SubmitFailed(false)), Idle, false;
      }
    }

    /** What is awaited has failed: the catch block, up to its own await. */
    method OnError()
      requires Valid() && Awaiting(stage)
      modifies this, api
      ensures Valid() && View() == OnFailure(old(View()))
      ensures stage.Idle? ==> errorMessage == Some(SubmitFailed(old(started).Some? && !old(stage).Compensating?))
    {
      if stage.Creating? || stage.Compensating? || started.Some? {
        errorMessage := Some(SubmitFailed(started.Some? && !stage.Compensating?));
        stage, submitting := Idle, false;
      } else {
        var id := match stage
          case Deactivating(id, _) => id
          case Updating(id, _) => id
          case Uploading(id, _) => id
          case Stocking(id, _) => id
          case Activating(id, _) => id;
        var next := api.Send(Deactivate(id));
        stage := Compensating(id, next);
      }
    }
  }
}
