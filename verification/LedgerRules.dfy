/**
 When the services move money, and whose: the exact conditions under which each operation goes through, what it
 then changes, that everything else leaves the ledger alone, and that closing an account is final.
 */
module LedgerRules {
  import opened Money
  import opened Wrappers
  import opened Ledger
  import opened LedgerInvariants

  // ---- nothing half-done ---------------------------------------------------------------------

  /** Replays and refusals of every kind change nothing. */
  lemma CrossOnlyExecutes(l: Ledger, rq: CrossRequest, call: Call, fx: FxView, now: int)
    ensures !Initiate(l, rq, call, fx, now).1.Executed? ==> Initiate(l, rq, call, fx, now).0 == l
  {
  }

  lemma PlainOnlyExecutes(l: Ledger, rq: PlainRequest, call: Call, cfg: RateConfig, now: int)
    ensures !ExecuteTransfer(l, rq, call, cfg, now).1.Executed? ==> ExecuteTransfer(l, rq, call, cfg, now).0 == l
  {
  }

  // ---- when a transfer is executed -----------------------------------------------------------

  predicate Active(l: Ledger, number: string) {
    number in l.accounts && l.accounts[number].active
  }

  /** Both snapshots exist and are fresh, the pair is active and both quote it, and the rate has not moved too far. */
  predicate RateUsable(rq: CrossRequest, fx: FxView) {
    var pair := (rq.sourceCurrency, rq.destinationCurrency);
    && fx.latest.Some? && !fx.latest.value.stale
    && rq.snapshot in fx.snapshots && !fx.snapshots[rq.snapshot].stale
    && pair in fx.activePairs
    && pair in fx.snapshots[rq.snapshot].rates && pair in fx.latest.value.rates
    && RateConfirmed(fx.snapshots[rq.snapshot].rates[pair], fx.latest.value.rates[pair])
  }

  /** The transfer's value in dollars, where there is a rate for it. */
  function DollarValue(rq: CrossRequest, rates: map<(string, string), int>): Option<int> {
    if rq.sourceCurrency == "USD" then Some(rq.amount)
    else if (rq.sourceCurrency, "USD") in rates then Some(HalfUp(rq.amount * rates[(rq.sourceCurrency, "USD")], RATE_UNIT))
    else None
  }

  predicate WithinLimits(l: Ledger, rq: CrossRequest, fx: FxView, now: int)
    requires fx.latest.Some?
  {
    match DollarValue(rq, fx.latest.value.rates)
    case None => false
    case Some(usd) => usd <= TX_LIMIT_USD && VolumeUsd(l.transfers, rq.source, now - DAY) + usd <= DAY_LIMIT_USD
  }

  /**
   A cross-currency transfer moves money exactly when its key is new, its rate is usable, both accounts are active,
   the caller owns the source account, which is in the requested currency and covers amount and fee, and both
   limits are respected.
   */
  lemma CrossExecutesIff(l: Ledger, rq: CrossRequest, call: Call, fx: FxView, now: int)
    ensures Initiate(l, rq, call, fx, now).1.Executed?
       <==> && (forall i :: 0 <= i < |l.transfers| ==> l.transfers[i].key != call.key)
            && RateUsable(rq, fx)
            && Active(l, rq.source) && Active(l, rq.destination)
            && l.accounts[rq.source].owner == call.caller && l.accounts[rq.source].currency == rq.sourceCurrency
            && WithinLimits(l, rq, fx, now)
            && rq.amount + SendingFee(rq.amount) <= l.accounts[rq.source].balance
  {
    hide VolumeUsd, HalfUp, Quantize, RateConfirmed;
  }

  // ---- what counts towards the daily limit ----------------------------------------------------

  /** In a sound table without later rows the rolling query counts exactly the 24 hours up to now. */
  lemma {:induction false} VolumeIsWindow(rows: seq<Transfer>, source: string, now: int)
    requires SoundRows(rows) && Timely(rows, source, now)
    ensures VolumeUsd(rows, source, now - DAY) == WindowUsd(rows, source, now - DAY)
  {
    if rows != [] {
      VolumeIsWindow(rows[..|rows| - 1], source, now);
    }
  }

  /** Wherever it stands, a row counts exactly if it is the sender's, completed or under way, and not too old. */
  lemma {:induction false} RowCounts(before: seq<Transfer>, t: Transfer, later: seq<Transfer>, source: string, since: int)
    ensures VolumeUsd(before + [t] + later, source, since) - VolumeUsd(before + later, source, since)
         == if t.source == source && t.status in {Completed, Processing} && t.createdAt >= since then UsdOf(t) else 0
  {
    if later == [] {
      assert before + [t] + [] == before + [t] && (before + [t])[..|before|] == before && before + [] == before;
    } else {
      var last := |later| - 1;
      assert (before + [t] + later)[..|before| + 1 + last] == before + [t] + later[..last];
      assert (before + later)[..|before| + last] == before + later[..last];
      RowCounts(before, t, later[..last], source, since);
    }
  }

  // ---- why a transfer is refused -------------------------------------------------------------

  predicate RatesFresh(rq: CrossRequest, fx: FxView) {
    fx.latest.Some? && !fx.latest.value.stale && rq.snapshot in fx.snapshots && !fx.snapshots[rq.snapshot].stale
  }

  /** The rates are there for the pair, in dollars too. */
  predicate Quoted(rq: CrossRequest, fx: FxView)
    requires RatesFresh(rq, fx)
  {
    var pair := (rq.sourceCurrency, rq.destinationCurrency);
    pair in fx.snapshots[rq.snapshot].rates && pair in fx.latest.value.rates
  }

  /** The checks a request passes before its rates are compared. */
  predicate Admitted(l: Ledger, rq: CrossRequest, caller: string, fx: FxView) {
    && RatesFresh(rq, fx) && (rq.sourceCurrency, rq.destinationCurrency) in fx.activePairs
    && Active(l, rq.source) && Active(l, rq.destination)
    && l.accounts[rq.source].owner == caller && l.accounts[rq.source].currency == rq.sourceCurrency
    && Quoted(rq, fx)
  }

  /** The exact reason for each refusal of a request with a new key; of several the first in the order of the checks. */
  predicate CrossRefusal(l: Ledger, rq: CrossRequest, caller: string, fx: FxView, now: int, e: Error) {
    var pair := (rq.sourceCurrency, rq.destinationCurrency);
    match e
    case StaleRate => !RatesFresh(rq, fx)
    case AccountNotFound(n) =>
      && RatesFresh(rq, fx) && pair in fx.activePairs
      && ((n == rq.source && !Active(l, n)) || (n == rq.destination && Active(l, rq.source) && !Active(l, n)))
    case Forbidden =>
      && RatesFresh(rq, fx) && pair in fx.activePairs && Active(l, rq.source) && Active(l, rq.destination)
      && l.accounts[rq.source].owner != caller
    case UnsupportedPair =>
      && RatesFresh(rq, fx)
      && (|| pair !in fx.activePairs
          || (&& Active(l, rq.source) && Active(l, rq.destination) && l.accounts[rq.source].owner == caller
              && (l.accounts[rq.source].currency != rq.sourceCurrency || !Quoted(rq, fx)))
          || (Admitted(l, rq, caller, fx) && RateUsable(rq, fx) && DollarValue(rq, fx.latest.value.rates).None?))
    case RateDeviation => Admitted(l, rq, caller, fx) && !RateUsable(rq, fx)
    case LimitExceeded =>
      && Admitted(l, rq, caller, fx) && RateUsable(rq, fx)
      && DollarValue(rq, fx.latest.value.rates).Some? && DollarValue(rq, fx.latest.value.rates).value > TX_LIMIT_USD
    case DailyLimitExceeded =>
      && Admitted(l, rq, caller, fx) && RateUsable(rq, fx)
      && DollarValue(rq, fx.latest.value.rates).Some? && DollarValue(rq, fx.latest.value.rates).value <= TX_LIMIT_USD
      && VolumeUsd(l.transfers, rq.source, now - DAY) + DollarValue(rq, fx.latest.value.rates).value > DAY_LIMIT_USD
    case InsufficientFunds =>
      && Admitted(l, rq, caller, fx) && RateUsable(rq, fx) && WithinLimits(l, rq, fx, now)
      && rq.amount + SendingFee(rq.amount) > l.accounts[rq.source].balance
    case _ => false
  }

  /** Every refusal is for its own reason and nothing else refuses a new key. */
  lemma CrossRefusedIff(l: Ledger, rq: CrossRequest, call: Call, fx: FxView, now: int, e: Error)
    requires Find(l.transfers, call.key).None?
    ensures Initiate(l, rq, call, fx, now).1 == Refused(e) <==> CrossRefusal(l, rq, call.caller, fx, now, e)
  {
    hide TermsOf, VolumeUsd, HalfUp, RateConfirmed, WithinLimits, DollarValue;
    if RatesFresh(rq, fx) && (rq.sourceCurrency, rq.destinationCurrency) in fx.activePairs && Active(l, rq.source) && Active(l, rq.destination) {
      RefusedTerms(l, rq, call.caller, fx, now, e);
      hide CrossRefusal;
    }
  }

  lemma RefusedTerms(l: Ledger, rq: CrossRequest, caller: string, fx: FxView, now: int, e: Error)
    requires RatesFresh(rq, fx) && (rq.sourceCurrency, rq.destinationCurrency) in fx.activePairs && Active(l, rq.source) && Active(l, rq.destination)
    ensures var terms := TermsOf(rq, caller, fx.latest.value, fx.snapshots[rq.snapshot], l.accounts[rq.source],
                                 VolumeUsd(l.transfers, rq.source, now - DAY));
            terms == Err(e) <==> CrossRefusal(l, rq, caller, fx, now, e)
  {
    hide VolumeUsd, HalfUp, Quantize, RateConfirmed;
  }

  predicate PlainRefusal(l: Ledger, rq: PlainRequest, cfg: RateConfig, e: Error) {
    match e
    case InvalidAmount => rq.amount <= 0
    case AccountNotFound(n) =>
      rq.amount > 0 && ((n == rq.source && !Active(l, n)) || (n == rq.destination && Active(l, rq.source) && !Active(l, n)))
    case UnsupportedCurrency =>
      && rq.amount > 0 && Active(l, rq.source) && Active(l, rq.destination)
      && var from, to := l.accounts[rq.source].currency, l.accounts[rq.destination].currency;
         || from !in cfg.supported
         || (&& from in cfg.maxAmounts && rq.amount <= cfg.maxAmounts[from] && rq.amount <= l.accounts[rq.source].balance
             && from != to && (to !in cfg.supported || (from, to) !in cfg.rates))
    case MissingConfig =>
      && rq.amount > 0 && Active(l, rq.source) && Active(l, rq.destination)
      && l.accounts[rq.source].currency in cfg.supported && l.accounts[rq.source].currency !in cfg.maxAmounts
    case LimitExceeded =>
      && rq.amount > 0 && Active(l, rq.source) && Active(l, rq.destination)
      && var from := l.accounts[rq.source].currency;
         from in cfg.supported && from in cfg.maxAmounts && rq.amount > cfg.maxAmounts[from]
    case InsufficientFunds =>
      && rq.amount > 0 && Active(l, rq.source) && Active(l, rq.destination)
      && var from := l.accounts[rq.source].currency;
         from in cfg.supported && from in cfg.maxAmounts && rq.amount <= cfg.maxAmounts[from] && rq.amount > l.accounts[rq.source].balance
    case _ => false
  }

  lemma PlainRefusedIff(l: Ledger, rq: PlainRequest, call: Call, cfg: RateConfig, now: int, e: Error)
    requires Find(l.transfers, call.key).None?
    ensures ExecuteTransfer(l, rq, call, cfg, now).1 == Refused(e) <==> PlainRefusal(l, rq, cfg, e)
  {
    hide HalfEven;
  }

  /** A plain transfer moves money exactly under these conditions. */
  lemma PlainExecutesIff(l: Ledger, rq: PlainRequest, call: Call, cfg: RateConfig, now: int)
    ensures ExecuteTransfer(l, rq, call, cfg, now).1.Executed?
       <==> && rq.amount > 0
            && (forall i :: 0 <= i < |l.transfers| ==> l.transfers[i].key != call.key)
            && Active(l, rq.source) && Active(l, rq.destination)
            && var from, to := l.accounts[rq.source].currency, l.accounts[rq.destination].currency;
               && from in cfg.supported && from in cfg.maxAmounts && rq.amount <= cfg.maxAmounts[from]
               && rq.amount <= l.accounts[rq.source].balance
               && (from == to || (to in cfg.supported && (from, to) in cfg.rates))
  {
    hide HalfEven;
  }

  /** A known key is answered from its row: for its own caller as a replay, for any other as a conflict. */
  lemma KnownKeyAnswers(l: Ledger, rq: CrossRequest, plain: PlainRequest, call: Call, fx: FxView, cfg: RateConfig, now: int, id: nat)
    requires UniqueKeys(l.transfers) && id < |l.transfers| && l.transfers[id].key == call.key
    ensures Initiate(l, rq, call, fx, now)
         == (l, if l.transfers[id].caller == call.caller then Replayed(id) else Refused(IdempotencyConflict))
    ensures plain.amount > 0 ==>
              ExecuteTransfer(l, plain, call, cfg, now)
              == (l, if l.transfers[id].caller == call.caller then Replayed(id) else Refused(IdempotencyConflict))
  {
    var found := Find(l.transfers, call.key).value;
    assert l.transfers[found].key == l.transfers[id].key;
  }

  // ---- what an executed transfer changes -----------------------------------------------------

  /** Only the two balances move: the source pays, the destination receives, and one row does both for itself. */
  ghost predicate MovesOnly(before: map<string, Account>, after: map<string, Account>, source: string, destination: string, paid: int, received: int) {
    && after.Keys == before.Keys && source in before && destination in before
    && (forall n :: n in before ==> after[n].(balance := before[n].balance) == before[n])
    && (forall n :: n in before && n != source && n != destination ==> after[n].balance == before[n].balance)
    && (if source == destination then after[source].balance == before[source].balance - paid + received
        else after[source].balance == before[source].balance - paid && after[destination].balance == before[destination].balance + received)
  }

  lemma MoveMovesOnly(accounts: map<string, Account>, source: string, destination: string, debit: int, credit: int)
    requires source in accounts && destination in accounts
    ensures MovesOnly(accounts, Move(accounts, source, destination, debit, credit), source, destination, debit, credit)
  {
  }

  /** The sender pays amount and sending fee, the receiver gets the conversion at the current rate less the receiving fee. */
  lemma CrossMoves(l: Ledger, rq: CrossRequest, call: Call, fx: FxView, now: int)
    requires Initiate(l, rq, call, fx, now).1.Executed?
    ensures RateUsable(rq, fx)
    ensures var rate := fx.latest.value.rates[(rq.sourceCurrency, rq.destinationCurrency)];
            MovesOnly(l.accounts, Initiate(l, rq, call, fx, now).0.accounts, rq.source, rq.destination,
                      rq.amount + SendingFee(rq.amount), NetOf(HalfUp(rq.amount * rate, RATE_UNIT)))
  {
    CrossExecutesIff(l, rq, call, fx, now);
    var terms := CrossDecision(l, rq, call.caller, fx, now).value;
    CrossAmounts(l, rq, call.caller, fx, now);
    hide CrossDecision, CalculateAmounts, RateUsable, HalfUp;
    WholeMove(l.accounts, rq.source, rq.destination, terms.amounts.cost, terms.amounts.net);
    MoveMovesOnly(l.accounts, rq.source, rq.destination, terms.amounts.cost, terms.amounts.net);
  }

  lemma CrossAmounts(l: Ledger, rq: CrossRequest, caller: string, fx: FxView, now: int)
    requires CrossDecision(l, rq, caller, fx, now).Ok? && RateUsable(rq, fx)
    ensures var a, rate := CrossDecision(l, rq, caller, fx, now).value.amounts, fx.latest.value.rates[(rq.sourceCurrency, rq.destinationCurrency)];
            a.cost == rq.amount + SendingFee(rq.amount) && a.net == NetOf(HalfUp(rq.amount * rate, RATE_UNIT))
  {
    hide VolumeUsd, HalfUp, RateConfirmed;
  }

  /** A plain transfer pays no fee; the receiver gets the amount at the configured rate. */
  lemma PlainMoves(l: Ledger, rq: PlainRequest, call: Call, cfg: RateConfig, now: int)
    requires ExecuteTransfer(l, rq, call, cfg, now).1.Executed?
    ensures Active(l, rq.source) && Active(l, rq.destination)
    ensures var from, to := l.accounts[rq.source].currency, l.accounts[rq.destination].currency;
            && (from != to ==> (from, to) in cfg.rates)
            && MovesOnly(l.accounts, ExecuteTransfer(l, rq, call, cfg, now).0.accounts, rq.source, rq.destination, rq.amount,
                         if from == to then rq.amount else HalfEven(rq.amount * cfg.rates[(from, to)], RATE_UNIT))
  {
    var terms := PlainDecision(l, rq, cfg).value;
    HalfEvenExact(rq.amount, RATE_UNIT);
    hide HalfEven;
    WholeMove(l.accounts, rq.source, rq.destination, rq.amount, terms.credit);
    MoveMovesOnly(l.accounts, rq.source, rq.destination, rq.amount, terms.credit);
  }

  // ---- what an executed transfer leaves on record --------------------------------------------

  /** The one new row, field by field; its dollar value is that of the amount sent, at the current rates. */
  lemma CrossRecords(l: Ledger, rq: CrossRequest, call: Call, fx: FxView, now: int)
    requires Initiate(l, rq, call, fx, now).1.Executed?
    ensures RateUsable(rq, fx) && DollarValue(rq, fx.latest.value.rates).Some?
    ensures var rate := fx.latest.value.rates[(rq.sourceCurrency, rq.destinationCurrency)];
            var gross := HalfUp(rq.amount * rate, RATE_UNIT);
            Initiate(l, rq, call, fx, now).0.transfers
            == l.transfers + [Transfer(call.key, rq.source, rq.destination, rq.amount, rq.sourceCurrency, NetOf(gross), rq.destinationCurrency,
                                       StoredRate(rate), Completed, call.caller, None,
                                       Some(CrossFields(SendingFee(rq.amount), HalfUp(gross * 3, 1000), fx.latest.value.id,
                                                        DollarValue(rq, fx.latest.value.rates).value)), now)]
  {
    hide VolumeUsd, HalfUp, Quantize, RateConfirmed, StoredRate;
  }

  /** Sender and receiver, if they are two, are notified of the same amounts, and the log names the request's parties. */
  lemma CrossTells(l: Ledger, rq: CrossRequest, call: Call, fx: FxView, now: int)
    requires Initiate(l, rq, call, fx, now).1.Executed?
    ensures var l', id := Initiate(l, rq, call, fx, now).0, |l.transfers|;
            && |l'.transfers| == id + 1
            && var net, usd := l'.transfers[id].destinationAmount, UsdOf(l'.transfers[id]);
               var parties := [rq.source, rq.destination];
               && l'.notifications
                  == l.notifications
                     + (if rq.source == rq.destination then []
                        else [Notification(rq.source, id, true, rq.amount, rq.sourceCurrency, net, rq.destinationCurrency),
                              Notification(rq.destination, id, false, rq.amount, rq.sourceCurrency, net, rq.destinationCurrency)])
               && l'.audit
                  == l.audit
                     + ([AuditEntry(CrossInitiated, call.caller, parties, Some(rq.amount), Some(rq.sourceCurrency), true, Some(id), call.requestId),
                         AuditEntry(CrossCompleted, call.caller, parties, Some(rq.amount), Some(rq.sourceCurrency), true, Some(id), call.requestId)]
                        + (if rq.source == rq.destination then []
                           else [AuditEntry(NotificationDelivered, call.caller, [rq.source], Some(net), Some(rq.destinationCurrency), true, Some(id), call.requestId),
                                 AuditEntry(NotificationDelivered, call.caller, [rq.destination], Some(net), Some(rq.destinationCurrency), true, Some(id), call.requestId)])
                        + (if usd < AML_THRESHOLD_USD then []
                           else [AuditEntry(AmlScreening, call.caller, parties, Some(usd), Some("USD"), true, Some(id), call.requestId)]))
  {
    hide CrossDecision;
  }

  /** The same for a plain transfer, whose one log entry names no row. */
  lemma PlainRecords(l: Ledger, rq: PlainRequest, call: Call, cfg: RateConfig, now: int)
    requires ExecuteTransfer(l, rq, call, cfg, now).1.Executed?
    ensures Active(l, rq.source) && Active(l, rq.destination)
    ensures var from, to := l.accounts[rq.source].currency, l.accounts[rq.destination].currency;
            && (from != to ==> (from, to) in cfg.rates)
            && var rate := if from == to then RATE_UNIT else cfg.rates[(from, to)];
               var l' := ExecuteTransfer(l, rq, call, cfg, now).0;
               && l'.transfers
                  == l.transfers + [Transfer(call.key, rq.source, rq.destination, rq.amount, from, HalfEven(rq.amount * rate, RATE_UNIT), to,
                                             StoredRate(rate), Completed, call.caller, None, None, now)]
               && l'.notifications == l.notifications
               && l'.audit == l.audit + [AuditEntry(TransferCompleted, call.caller, [rq.source, rq.destination], Some(rq.amount), Some(from), true, None, call.requestId)]
  {
    hide HalfEven, StoredRate;
  }

  /** The response to an execution: what was sent and charged, and a converted amount that is what was credited and kept. */
  lemma ResponseShowsTransfer(l: Ledger, rq: CrossRequest, call: Call, fx: FxView, now: int)
    requires Initiate(l, rq, call, fx, now).1.Executed?
    ensures var l', id := Initiate(l, rq, call, fx, now).0, |l.transfers|;
            && |l'.transfers| == id + 1 && RateUsable(rq, fx)
            && var rate := fx.latest.value.rates[(rq.sourceCurrency, rq.destinationCurrency)];
               var r := ToResponse(id, l'.transfers[id], Some(HalfUp(rq.amount * rate, RATE_UNIT)));
               && r.id == id && r.status == Completed && r.failureReason == None && r.snapshot == Some(fx.latest.value.id)
               && r.sourceAmount == rq.amount && r.sourceCurrency == rq.sourceCurrency && r.destinationCurrency == rq.destinationCurrency
               && r.sendingFee == SendingFee(rq.amount) && r.net + r.receivingFee == r.gross && r.net == NetOf(r.gross)
               && r.storedRate == StoredRate(rate)
  {
    hide Initiate, HalfUp, Quantize, RateConfirmed, StoredRate;
    CrossRecords(l, rq, call, fx, now);
  }

  /** A plain transfer's row answers without fees and without a snapshot. */
  lemma ResponseShowsPlainTransfer(l: Ledger, rq: PlainRequest, call: Call, cfg: RateConfig, now: int)
    requires ExecuteTransfer(l, rq, call, cfg, now).1.Executed?
    ensures var l', id := ExecuteTransfer(l, rq, call, cfg, now).0, |l.transfers|;
            && |l'.transfers| == id + 1
            && var t, r := l'.transfers[id], ToResponse(id, l'.transfers[id], None);
               && r.id == id && r.status == Completed && r.failureReason == None && r.snapshot == None && r.sendingFee == r.receivingFee == 0
               && r.sourceAmount == rq.amount && r.sourceCurrency == t.sourceCurrency && r.destinationCurrency == t.destinationCurrency
               && r.net == t.destinationAmount && r.storedRate == t.storedRate
               && r.gross == HalfUp(rq.amount * (t.storedRate * STORED_RATE_STEP), RATE_UNIT)
  {
    hide ExecuteTransfer, HalfUp, HalfEven, StoredRate;
    PlainRecords(l, rq, call, cfg, now);
  }

  // ---- opening and closing -------------------------------------------------------------------

  /** An account is closed exactly when it is active and empty, and then only loses its owner and its activity. */
  lemma ClosesIff(l: Ledger, number: string, hash: string, actor: string, requestId: Option<string>)
    ensures var (l', e) := DeleteAccount(l, number, hash, actor, requestId);
            && (e.None? <==> Active(l, number) && l.accounts[number].balance == 0)
            && (e.Some? ==> l' == l)
            && (e.None? ==>
                  && l'.transfers == l.transfers && l'.accounts.Keys == l.accounts.Keys && !Active(l', number) && l'.accounts[number].balance == 0
                  && l'.accounts[number].currency == l.accounts[number].currency
                  && forall n :: n in l.accounts && n != number ==> l'.accounts[n] == l.accounts[n])
  {
  }

  /** What a closed account shows of its owner is made from the digest alone. */
  lemma ClosedIsAnonymous(row: Account, other: string, hash: string)
    ensures ClosedRow(row.(owner := other), hash) == ClosedRow(row, hash)
    ensures ClosedRow(row, hash).ownerHash == Some(hash) && "ANONYMIZED-" <= ClosedRow(row, hash).owner
    ensures ClosedRow(row, hash).owner[|"ANONYMIZED-"|..] <= hash
    ensures |ClosedRow(row, hash).owner| == |"ANONYMIZED-"| + if |hash| < 16 then |hash| else 16
  {
    var owner := ClosedRow(row, hash).owner;
    assert owner[|"ANONYMIZED-"|..] == if |hash| <= 16 then hash else hash[..16];
  }

  /** An account is opened exactly in a supported currency, with a non-negative balance, under a number that was free. */
  lemma OpensIff(l: Ledger, owner: string, currency: string, opening: int, drawn: seq<string>, actor: string, requestId: Option<string>, cfg: RateConfig)
    requires drawn != []
    ensures var (l', r) := CreateAccount(l, owner, currency, opening, drawn, actor, requestId, cfg);
            && (r.Ok? <==> currency in cfg.supported && opening >= 0 && exists n :: n in drawn && n !in l.accounts)
            && (r.Err? ==> l' == l)
            && (r.Ok? ==>
                  && r.value in drawn && r.value !in l.accounts
                  && l' == l.(accounts := l.accounts[r.value := Account(owner, currency, opening, true, None)],
                              audit := l.audit + [AuditEntry(AccountCreated, actor, [r.value], Some(opening), Some(currency), true, None, requestId)]))
  {
    PickIsFirstFree(l.accounts, drawn);
    hide PickNumber;
  }

  /** Rows from some point on that do not involve an account. */
  ghost predicate Uninvolved(transfers: seq<Transfer>, from: nat, number: string) {
    forall i :: from <= i < |transfers| ==> transfers[i].source != number && transfers[i].destination != number
  }

  /** One operation on a ledger with a closed account leaves its row alone and adds no transfer from or to it. */
  lemma StepKeepsClosed(l: Ledger, op: Op, number: string)
    requires number in l.accounts && !l.accounts[number].active
    ensures var l' := Step(l, op);
            && number in l'.accounts && l'.accounts[number] == l.accounts[number]
            && l.transfers <= l'.transfers && Uninvolved(l'.transfers, |l.transfers|, number)
  {
    hide Initiate, ExecuteTransfer, DeleteAccount, RateUsable, HalfUp, HalfEven, MovesOnly, Find;
    match op {
      case Create(_, _, _, _, _, _, _) =>
      case Close(n, hash, actor, requestId) =>
        ClosesIff(l, n, hash, actor, requestId);
      case Cross(rq, call, fx, now) =>
        CrossExecutesIff(l, rq, call, fx, now);
        CrossOnlyExecutes(l, rq, call, fx, now);
        if Initiate(l, rq, call, fx, now).1.Executed? {
          CrossMoves(l, rq, call, fx, now);
          CrossRowEnds(l, rq, call, fx, now);
          BystanderKept(l.accounts, Initiate(l, rq, call, fx, now).0.accounts, rq.source, rq.destination, number);
        }
      case Plain(rq, call, cfg, now) =>
        PlainExecutesIff(l, rq, call, cfg, now);
        PlainOnlyExecutes(l, rq, call, cfg, now);
        if ExecuteTransfer(l, rq, call, cfg, now).1.Executed? {
          PlainMoves(l, rq, call, cfg, now);
          PlainRowEnds(l, rq, call, cfg, now);
          BystanderKept(l.accounts, ExecuteTransfer(l, rq, call, cfg, now).0.accounts, rq.source, rq.destination, number);
        }
    }
  }

  lemma BystanderKept(before: map<string, Account>, after: map<string, Account>, source: string, destination: string, number: string)
    requires number in before && number != source && number != destination
    requires exists paid: int, received: int :: MovesOnly(before, after, source, destination, paid, received)
    ensures number in after && after[number] == before[number]
  {
    var paid: int, received: int :| MovesOnly(before, after, source, destination, paid, received);
    assert after[number].(balance := before[number].balance) == before[number];
  }

  lemma CrossRowEnds(l: Ledger, rq: CrossRequest, call: Call, fx: FxView, now: int)
    requires Initiate(l, rq, call, fx, now).1.Executed?
    ensures var rows := Initiate(l, rq, call, fx, now).0.transfers;
            && |rows| == |l.transfers| + 1 && l.transfers <= rows
            && rows[|l.transfers|].source == rq.source && rows[|l.transfers|].destination == rq.destination
  {
    hide CrossDecision;
  }

  lemma PlainRowEnds(l: Ledger, rq: PlainRequest, call: Call, cfg: RateConfig, now: int)
    requires ExecuteTransfer(l, rq, call, cfg, now).1.Executed?
    ensures var rows := ExecuteTransfer(l, rq, call, cfg, now).0.transfers;
            && |rows| == |l.transfers| + 1 && l.transfers <= rows
            && rows[|l.transfers|].source == rq.source && rows[|l.transfers|].destination == rq.destination
  {
    hide PlainDecision;
  }

  lemma {:induction false} RunKeepsClosed(l: Ledger, ops: seq<Op>, number: string)
    requires number in l.accounts && !l.accounts[number].active
    ensures var l' := Run(l, ops);
            && number in l'.accounts && l'.accounts[number] == l.accounts[number]
            && l.transfers <= l'.transfers && Uninvolved(l'.transfers, |l.transfers|, number)
    decreases |ops|
  {
    hide Step;
    if ops != [] {
      StepKeepsClosed(l, ops[0], number);
      RunKeepsClosed(Step(l, ops[0]), ops[1..], number);
    }
  }

  /**
   Closing is for good: whatever is run afterwards, the account stays empty under its pseudonym, its number is not
   given out again, and no transfer from or to it is executed.
   */
  lemma ClosedIsForever(l: Ledger, number: string, hash: string, actor: string, requestId: Option<string>, ops: seq<Op>)
    requires DeleteAccount(l, number, hash, actor, requestId).1.None?
    ensures var end := Run(DeleteAccount(l, number, hash, actor, requestId).0, ops);
            && number in l.accounts && number in end.accounts
            && end.accounts[number] == ClosedRow(l.accounts[number], hash) && end.accounts[number].balance == 0
            && l.transfers <= end.transfers && Uninvolved(end.transfers, |l.transfers|, number)
  {
    ClosesIff(l, number, hash, actor, requestId);
    RunKeepsClosed(DeleteAccount(l, number, hash, actor, requestId).0, ops, number);
  }

  /** An opened account was not there before; the only drawn number that is used is the first free one. */
  lemma {:induction false} PickIsFirstFree(accounts: map<string, Account>, drawn: seq<string>)
    requires drawn != []
    ensures var n := PickNumber(accounts, drawn);
            if n !in accounts then exists i :: 0 <= i < |drawn| && drawn[i] == n && forall j :: 0 <= j < i ==> drawn[j] in accounts
            else n == drawn[|drawn| - 1] && forall j :: 0 <= j < |drawn| ==> drawn[j] in accounts
  {
    if |drawn| > 1 && drawn[0] in accounts {
      var rest := drawn[1..];
      PickIsFirstFree(accounts, rest);
      var n := PickNumber(accounts, drawn);
      if n !in accounts {
        var i :| 0 <= i < |rest| && rest[i] == n && forall j :: 0 <= j < i ==> rest[j] in accounts;
        assert drawn[i + 1] == n;
        forall j | 0 <= j < i + 1 ensures drawn[j] in accounts { if j > 0 { assert drawn[j] == rest[j - 1]; } }
      } else {
        forall j | 0 <= j < |drawn| ensures drawn[j] in accounts { if j > 0 { assert drawn[j] == rest[j - 1]; } }
      }
    } else {
      assert drawn[0] == PickNumber(accounts, drawn);
    }
  }
}
