/**
 The transfer ledger as one atomic value: accounts, the transfers table, the audit log and the
 notifications, with every operation of the services as a step from one ledger to the next.
 */
module Ledger {
  import opened Money
  import opened Wrappers

  /** Times are microseconds. */
  const DAY: int := 86_400_000_000
  const TX_LIMIT_USD: int := 500_000_000
  const DAY_LIMIT_USD: int := 1_000_000_000
  const AML_THRESHOLD_USD: int := 100_000_000
  /** How often a plain transfer is repeated after a deadlock. */
  const MAX_RETRIES: nat := 3

  // ---- rows ----------------------------------------------------------------------------------

  datatype Status = Pending | Processing | Completed | Failed | Rejected

  datatype Account = Account(owner: string, currency: string, balance: int, active: bool, ownerHash: Option<string>)

  datatype CrossFields = CrossFields(sendingFee: int, receivingFee: int, snapshot: nat, amountUsd: int)

  /** A transfers row; its id is its position in the table. Plain transfers have no cross-currency fields. */
  datatype Transfer = Transfer(
    key: string, source: string, destination: string,
    sourceAmount: int, sourceCurrency: string,
    destinationAmount: int, destinationCurrency: string,
    storedRate: int, status: Status, caller: string, failureReason: Option<string>,
    cross: Option<CrossFields>, createdAt: int)

  datatype Operation =
    | AccountCreated | AccountDeleted | TransferCompleted
    | CrossInitiated | CrossCompleted | CrossFailed
    | NotificationDelivered | AmlScreening

  datatype AuditEntry = AuditEntry(
    operation: Operation, actor: string, accounts: seq<string>,
    amount: Option<int>, currency: Option<string>, success: bool,
    transfer: Option<nat>, requestId: Option<string>)

  datatype Notification = Notification(
    recipient: string, transfer: nat, sent: bool,
    sourceAmount: int, sourceCurrency: string, netAmount: int, netCurrency: string)

  datatype Ledger = Ledger(
    accounts: map<string, Account>, transfers: seq<Transfer>,
    audit: seq<AuditEntry>, notifications: seq<Notification>)

  const EMPTY: Ledger := Ledger(map[], [], [], [])

  // ---- requests and outcomes -----------------------------------------------------------------

  datatype CrossRequest = CrossRequest(
    source: string, destination: string, amount: int,
    sourceCurrency: string, destinationCurrency: string, snapshot: nat)

  datatype PlainRequest = PlainRequest(source: string, destination: string, amount: int)

  /** Who calls, under which idempotency key. */
  datatype Call = Call(caller: string, key: string, requestId: Option<string>)

  datatype Snapshot = Snapshot(id: nat, stale: bool, rates: map<(string, string), int>)

  /** What a transaction sees of the rate tables. */
  datatype FxView = FxView(latest: Option<Snapshot>, snapshots: map<nat, Snapshot>, activePairs: set<(string, string)>)

  datatype RateConfig = RateConfig(supported: set<string>, maxAmounts: map<string, int>, rates: map<(string, string), int>)

  datatype Error =
    | InvalidAmount | IdempotencyConflict | DuplicateKey
    | StaleRate | UnsupportedPair | RateDeviation
    | AccountNotFound(number: string) | Forbidden
    | LimitExceeded | DailyLimitExceeded | InsufficientFunds
    | UnsupportedCurrency | MissingConfig
    | NegativeOpening | DuplicateAccount | AccountHasBalance
    | Deadlock | Aborted

  datatype Outcome = Replayed(id: nat) | Executed(id: nat) | Refused(error: Error)

  // ---- shared reads --------------------------------------------------------------------------

  /** The row that holds an idempotency key. */
  function Find(rows: seq<Transfer>, key: string): (r: Option<nat>)
    ensures r.Some? ==> r.value < |rows| && rows[r.value].key == key
    ensures r.None? <==> forall i :: 0 <= i < |rows| ==> rows[i].key != key
  {
    if rows == [] then None
    else
      var n := |rows| - 1;
      assert rows == rows[..n] + [rows[n]];
      if rows[n].key == key then Some(n) else Find(rows[..n], key)
  }

  /** The account row, if it is there and active. */
  function ActiveRow(row: Option<Account>, number: string): Result<Account, Error> {
    if row.None? || !row.value.active then Err(AccountNotFound(number)) else Ok(row.value)
  }

  function RowOf(accounts: map<string, Account>, number: string): Option<Account> {
    if number in accounts then Some(accounts[number]) else None
  }

  function GetRate(rates: map<(string, string), int>, from: string, to: string): Result<int, Error> {
    if (from, to) in rates then Ok(rates[(from, to)]) else Err(UnsupportedPair)
  }

  /** The USD amount a row adds to its sender's volume. */
  function UsdOf(t: Transfer): int {
    if t.cross.Some? then t.cross.value.amountUsd else 0
  }

  /** The rolling volume query: completed and processing transfers sent since a moment. */
  function VolumeUsd(rows: seq<Transfer>, source: string, since: int): int {
    if rows == [] then 0
    else
      var t := rows[|rows| - 1];
      VolumeUsd(rows[..|rows| - 1], source, since)
      + (if t.source == source && (t.status.Completed? || t.status.Processing?) && since <= t.createdAt
         then UsdOf(t) else 0)
  }

  // ---- deciding a cross-currency transfer ----------------------------------------------------

  /** The current and the previewed snapshot, when both may be used for this pair. */
  function FxCheck(rq: CrossRequest, fx: FxView): Result<(Snapshot, Snapshot), Error> {
    if fx.latest.None? || fx.latest.value.stale then Err(StaleRate)
    else if rq.snapshot !in fx.snapshots || fx.snapshots[rq.snapshot].stale then Err(StaleRate)
    else if (rq.sourceCurrency, rq.destinationCurrency) !in fx.activePairs then Err(UnsupportedPair)
    else Ok((fx.latest.value, fx.snapshots[rq.snapshot]))
  }

  datatype CrossTerms = CrossTerms(amounts: Amounts, rate: int, amountUsd: int, snapshot: nat)

  function AmountInUsd(amount: int, currency: string, rates: map<(string, string), int>): Result<int, Error> {
    if currency == "USD" then Ok(amount)
    else
      match GetRate(rates, currency, "USD")
      case Err(e) => Err(e)
      case Ok(rate) => Ok(HalfUp(amount * rate, RATE_UNIT))
  }

  /** Everything checked once both rows are locked: owner, currency, rates, limits and funds. */
  function TermsOf(rq: CrossRequest, caller: string, current: Snapshot, preview: Snapshot,
                   source: Account, volume: int): Result<CrossTerms, Error>
  {
    if source.owner != caller then Err(Forbidden)
    else if source.currency != rq.sourceCurrency then Err(UnsupportedPair)
    else
      match GetRate(preview.rates, rq.sourceCurrency, rq.destinationCurrency)
      case Err(e) => Err(e)
      case Ok(previewRate) =>
        match GetRate(current.rates, rq.sourceCurrency, rq.destinationCurrency)
        case Err(e) => Err(e)
        case Ok(rate) =>
          if !RateConfirmed(previewRate, rate) then Err(RateDeviation)
          else
            var amounts := CalculateAmounts(rq.amount, rate);
            match AmountInUsd(rq.amount, rq.sourceCurrency, current.rates)
            case Err(e) => Err(e)
            case Ok(usd) =>
              if usd > TX_LIMIT_USD then Err(LimitExceeded)
              else if volume + usd > DAY_LIMIT_USD then Err(DailyLimitExceeded)
              else if source.balance < amounts.cost then Err(InsufficientFunds)
              else Ok(CrossTerms(amounts, rate, usd, current.id))
  }

  // ---- posting -------------------------------------------------------------------------------

  /** Debit, then credit. Both names may be the same row. */
  function Move(rows: map<string, Account>, source: string, destination: string, debit: int, credit: int): map<string, Account>
    requires source in rows && destination in rows
  {
    var debited := rows[source := rows[source].(balance := rows[source].balance - debit)];
    debited[destination := debited[destination].(balance := debited[destination].balance + credit)]
  }

  lemma WholeMove(accounts: map<string, Account>, source: string, destination: string, debit: int, credit: int)
    requires source in accounts && destination in accounts
    ensures accounts + Move(accounts, source, destination, debit, credit) == Move(accounts, source, destination, debit, credit)
  {
  }

  function CrossRow(rq: CrossRequest, call: Call, terms: CrossTerms, now: int): Transfer {
    Transfer(call.key, rq.source, rq.destination, rq.amount, rq.sourceCurrency,
             terms.amounts.net, rq.destinationCurrency, StoredRate(terms.rate), Completed, call.caller, None,
             Some(CrossFields(terms.amounts.sendingFee, terms.amounts.receivingFee, terms.snapshot, terms.amountUsd)), now)
  }

  /** One entry about the whole transfer. */
  function TransferEntry(op: Operation, id: nat, t: Transfer, success: bool, requestId: Option<string>): AuditEntry {
    AuditEntry(op, t.caller, [t.source, t.destination], Some(t.sourceAmount), Some(t.sourceCurrency), success, Some(id), requestId)
  }

  function NotificationFor(id: nat, t: Transfer, sent: bool): Notification {
    Notification(if sent then t.source else t.destination, id, sent,
                 t.sourceAmount, t.sourceCurrency, t.destinationAmount, t.destinationCurrency)
  }

  function DeliveryEntry(id: nat, t: Transfer, sent: bool, requestId: Option<string>): AuditEntry {
    AuditEntry(NotificationDelivered, t.caller, [if sent then t.source else t.destination],
               Some(t.destinationAmount), Some(t.destinationCurrency), true, Some(id), requestId)
  }

  function NotificationsFor(id: nat, t: Transfer): seq<Notification> {
    if t.source == t.destination then [] else [NotificationFor(id, t, true), NotificationFor(id, t, false)]
  }

  function DeliveriesFor(id: nat, t: Transfer, requestId: Option<string>): seq<AuditEntry> {
    if t.source == t.destination then [] else [DeliveryEntry(id, t, true, requestId), DeliveryEntry(id, t, false, requestId)]
  }

  function ScreeningFor(id: nat, t: Transfer, requestId: Option<string>): seq<AuditEntry> {
    if UsdOf(t) < AML_THRESHOLD_USD then []
    else [AuditEntry(AmlScreening, t.caller, [t.source, t.destination], Some(UsdOf(t)), Some("USD"), true, Some(id), requestId)]
  }

  /** The audit trail one cross-currency transfer leaves, in order. */
  function TrailOf(id: nat, t: Transfer, requestId: Option<string>): seq<AuditEntry> {
    [TransferEntry(CrossInitiated, id, t, true, requestId), TransferEntry(CrossCompleted, id, t, true, requestId)]
    + DeliveriesFor(id, t, requestId)
    + ScreeningFor(id, t, requestId)
  }

  /** Commit a cross-currency transfer decided on `rows`, the account rows its transaction read. */
  function PostCross(l: Ledger, rows: map<string, Account>, rq: CrossRequest, call: Call, terms: CrossTerms, now: int): Ledger
    requires rq.source in rows && rq.destination in rows
  {
    var id, t := |l.transfers|, CrossRow(rq, call, terms, now);
    Ledger(l.accounts + Move(rows, rq.source, rq.destination, terms.amounts.cost, terms.amounts.net),
           l.transfers + [t],
           l.audit + TrailOf(id, t, call.requestId),
           l.notifications + NotificationsFor(id, t))
  }

  // ---- plain transfers -----------------------------------------------------------------------

  datatype PlainTerms = PlainTerms(rate: int, credit: int)

  function ConfiguredRate(cfg: RateConfig, from: string, to: string): Result<int, Error> {
    if from == to then Ok(RATE_UNIT)
    else if from !in cfg.supported || to !in cfg.supported then Err(UnsupportedCurrency)
    else if (from, to) in cfg.rates then Ok(cfg.rates[(from, to)]) else Err(UnsupportedCurrency)
  }

  function PlainTermsOf(rq: PlainRequest, cfg: RateConfig, source: Account, destination: Account): Result<PlainTerms, Error> {
    if source.currency !in cfg.supported then Err(UnsupportedCurrency)
    else if source.currency !in cfg.maxAmounts then Err(MissingConfig)
    else if rq.amount > cfg.maxAmounts[source.currency] then Err(LimitExceeded)
    else if source.balance < rq.amount then Err(InsufficientFunds)
    else
      match ConfiguredRate(cfg, source.currency, destination.currency)
      case Err(e) => Err(e)
      case Ok(rate) => Ok(PlainTerms(rate, HalfEven(rq.amount * rate, RATE_UNIT)))
  }

  function PlainRow(rq: PlainRequest, call: Call, terms: PlainTerms, source: Account, destination: Account, now: int): Transfer {
    Transfer(call.key, rq.source, rq.destination, rq.amount, source.currency,
             terms.credit, destination.currency, StoredRate(terms.rate), Completed, call.caller, None, None, now)
  }

  /** The plain service's audit entry names no transfer id. */
  function PlainEntry(t: Transfer, requestId: Option<string>): AuditEntry {
    AuditEntry(TransferCompleted, t.caller, [t.source, t.destination], Some(t.sourceAmount), Some(t.sourceCurrency), true, None, requestId)
  }

  function PostPlain(l: Ledger, rows: map<string, Account>, rq: PlainRequest, call: Call, terms: PlainTerms, now: int): Ledger
    requires rq.source in rows && rq.destination in rows
  {
    var t := PlainRow(rq, call, terms, rows[rq.source], rows[rq.destination], now);
    Ledger(l.accounts + Move(rows, rq.source, rq.destination, rq.amount, terms.credit),
           l.transfers + [t], l.audit + [PlainEntry(t, call.requestId)], l.notifications)
  }

  // ---- the operations ------------------------------------------------------------------------

  /** What a call with a key already in the table gets. */
  function ReplayOf(rows: seq<Transfer>, id: nat, caller: string): Outcome
    requires id < |rows|
  {
    if rows[id].caller != caller then Refused(IdempotencyConflict) else Replayed(id)
  }

  /** All checks of a cross-currency transfer, in their order. */
  function CrossDecision(l: Ledger, rq: CrossRequest, caller: string, fx: FxView, now: int): (r: Result<CrossTerms, Error>)
    ensures r.Ok? ==> rq.source in l.accounts && rq.destination in l.accounts
  {
    match FxCheck(rq, fx)
    case Err(e) => Err(e)
    case Ok((current, preview)) =>
      match ActiveRow(RowOf(l.accounts, rq.source), rq.source)
      case Err(e) => Err(e)
      case Ok(source) =>
        match ActiveRow(RowOf(l.accounts, rq.destination), rq.destination)
        case Err(e) => Err(e)
        case Ok(_) => TermsOf(rq, caller, current, preview, source, VolumeUsd(l.transfers, rq.source, now - DAY))
  }

  /** The transaction of a cross-currency transfer whose key is new. */
  function CrossTransaction(l: Ledger, rq: CrossRequest, call: Call, fx: FxView, now: int): (Ledger, Outcome) {
    match CrossDecision(l, rq, call.caller, fx, now)
    case Err(e) => (l, Refused(e))
    case Ok(terms) => (PostCross(l, l.accounts, rq, call, terms, now), Executed(|l.transfers|))
  }

  function Initiate(l: Ledger, rq: CrossRequest, call: Call, fx: FxView, now: int): (Ledger, Outcome) {
    match Find(l.transfers, call.key)
    case Some(id) => (l, ReplayOf(l.transfers, id, call.caller))
    case None => CrossTransaction(l, rq, call, fx, now)
  }

  function PlainDecision(l: Ledger, rq: PlainRequest, cfg: RateConfig): (r: Result<PlainTerms, Error>)
    ensures r.Ok? ==> rq.source in l.accounts && rq.destination in l.accounts
  {
    match ActiveRow(RowOf(l.accounts, rq.source), rq.source)
    case Err(e) => Err(e)
    case Ok(source) =>
      match ActiveRow(RowOf(l.accounts, rq.destination), rq.destination)
      case Err(e) => Err(e)
      case Ok(destination) => PlainTermsOf(rq, cfg, source, destination)
  }

  /** The transaction of a plain transfer whose key is new. */
  function PlainTransaction(l: Ledger, rq: PlainRequest, call: Call, cfg: RateConfig, now: int): (Ledger, Outcome) {
    match PlainDecision(l, rq, cfg)
    case Err(e) => (l, Refused(e))
    case Ok(terms) => (PostPlain(l, l.accounts, rq, call, terms, now), Executed(|l.transfers|))
  }

  function ExecuteTransfer(l: Ledger, rq: PlainRequest, call: Call, cfg: RateConfig, now: int): (Ledger, Outcome) {
    if rq.amount <= 0 then (l, Refused(InvalidAmount))
    else
      match Find(l.transfers, call.key)
      case Some(id) => (l, ReplayOf(l.transfers, id, call.caller))
      case None => PlainTransaction(l, rq, call, cfg, now)
  }

  /** When every check passes, the transfer is posted on the current rows. */
  lemma InitiateSucceeds(l: Ledger, rq: CrossRequest, call: Call, fx: FxView, now: int, terms: CrossTerms)
    requires Find(l.transfers, call.key).None? && FxCheck(rq, fx).Ok?
    requires ActiveRow(RowOf(l.accounts, rq.source), rq.source).Ok? && ActiveRow(RowOf(l.accounts, rq.destination), rq.destination).Ok?
    requires TermsOf(rq, call.caller, FxCheck(rq, fx).value.0, FxCheck(rq, fx).value.1, l.accounts[rq.source],
                     VolumeUsd(l.transfers, rq.source, now - DAY)) == Ok(terms)
    ensures Initiate(l, rq, call, fx, now) == (PostCross(l, l.accounts, rq, call, terms, now), Executed(|l.transfers|))
  {
  }

  lemma ExecuteSucceeds(l: Ledger, rq: PlainRequest, call: Call, cfg: RateConfig, now: int, terms: PlainTerms)
    requires rq.amount > 0 && Find(l.transfers, call.key).None?
    requires ActiveRow(RowOf(l.accounts, rq.source), rq.source).Ok? && ActiveRow(RowOf(l.accounts, rq.destination), rq.destination).Ok?
    requires PlainTermsOf(rq, cfg, l.accounts[rq.source], l.accounts[rq.destination]) == Ok(terms)
    ensures ExecuteTransfer(l, rq, call, cfg, now) == (PostPlain(l, l.accounts, rq, call, terms, now), Executed(|l.transfers|))
  {
  }

  /** The first of the drawn account numbers that is free, or the last one drawn. */
  function PickNumber(accounts: map<string, Account>, drawn: seq<string>): string
    requires drawn != []
  {
    if |drawn| == 1 || drawn[0] !in accounts then drawn[0] else PickNumber(accounts, drawn[1..])
  }

  function CreateAccount(l: Ledger, owner: string, currency: string, opening: int, drawn: seq<string>,
                         actor: string, requestId: Option<string>, cfg: RateConfig): (Ledger, Result<string, Error>)
    requires drawn != []
  {
    var number := PickNumber(l.accounts, drawn);
    if currency !in cfg.supported then (l, Err(UnsupportedCurrency))
    else if opening < 0 then (l, Err(NegativeOpening))
    else if number in l.accounts then (l, Err(DuplicateAccount))
    else
      (l.(accounts := l.accounts[number := Account(owner, currency, opening, true, None)],
          audit := l.audit + [AuditEntry(AccountCreated, actor, [number], Some(opening), Some(currency), true, None, requestId)]),
       Ok(number))
  }

  /** The row of a closed account: the owner is replaced by a pseudonym made from its hash. */
  function ClosedRow(row: Account, hash: string): Account {
    row.(active := false, ownerHash := Some(hash), owner := "ANONYMIZED-" + (if |hash| <= 16 then hash else hash[..16]))
  }

  /** `hash` is the digest of the account's owner. */
  function DeleteAccount(l: Ledger, number: string, hash: string, actor: string, requestId: Option<string>): (Ledger, Option<Error>) {
    match ActiveRow(RowOf(l.accounts, number), number)
    case Err(e) => (l, Some(e))
    case Ok(row) =>
      if row.balance != 0 then (l, Some(AccountHasBalance))
      else (PostClose(l, row, number, hash, actor, requestId), None)
  }

  function PostClose(l: Ledger, row: Account, number: string, hash: string, actor: string, requestId: Option<string>): Ledger {
    l.(accounts := l.accounts[number := ClosedRow(row, hash)],
       audit := l.audit + [AuditEntry(AccountDeleted, actor, [number], None, Some(row.currency), true, None, requestId)])
  }

  datatype Op =
    | Create(owner: string, currency: string, opening: int, drawn: seq<string>, actor: string, requestId: Option<string>, cfg: RateConfig)
    | Close(number: string, hash: string, actor: string, requestId: Option<string>)
    | Cross(rq: CrossRequest, call: Call, fx: FxView, now: int)
    | Plain(plain: PlainRequest, call: Call, cfg: RateConfig, now: int)

  function Step(l: Ledger, op: Op): Ledger {
    match op
    case Create(owner, currency, opening, drawn, actor, requestId, cfg) =>
      if drawn == [] then l else CreateAccount(l, owner, currency, opening, drawn, actor, requestId, cfg).0
    case Close(number, hash, actor, requestId) => DeleteAccount(l, number, hash, actor, requestId).0
    case Cross(rq, call, fx, now) => Initiate(l, rq, call, fx, now).0
    case Plain(rq, call, cfg, now) => ExecuteTransfer(l, rq, call, cfg, now).0
  }

  function Run(l: Ledger, ops: seq<Op>): Ledger
    decreases |ops|
  {
    if ops == [] then l else Run(Step(l, ops[0]), ops[1..])
  }

  // ---- responses -----------------------------------------------------------------------------

  datatype Response = Response(
    id: nat, status: Status, sourceAmount: int, sourceCurrency: string, sendingFee: int, gross: int,
    receivingFee: int, net: int, destinationCurrency: string, storedRate: int, failureReason: Option<string>, snapshot: Option<nat>)

  /** The response for a row; without the converted amount at hand it is recomputed from the stored rate. */
  function ToResponse(id: nat, t: Transfer, gross: Option<int>): Response {
    Response(id, t.status, t.sourceAmount, t.sourceCurrency,
             if t.cross.Some? then t.cross.value.sendingFee else 0,
             if gross.Some? then gross.value else HalfUp(t.sourceAmount * (t.storedRate * STORED_RATE_STEP), RATE_UNIT),
             if t.cross.Some? then t.cross.value.receivingFee else 0,
             t.destinationAmount, t.destinationCurrency, t.storedRate, t.failureReason,
             if t.cross.Some? then Some(t.cross.value.snapshot) else None)
  }
}
