/**
 The transfer and account services as sequences of assignments on one session, each tied to its atomic
 operation: the row goes from pending through processing to completed while the balances move.
 */
module TransferServices {
  import opened Money
  import opened Wrappers
  import opened Ledger
  import Atomic = Ledger
  import opened TransferSession
  import LedgerRules

  /** The row as it is first inserted. */
  function PendingRow(rq: CrossRequest, call: Call, terms: CrossTerms, now: int): Transfer {
    CrossRow(rq, call, terms, now).(status := Pending)
  }

  /** What the status steps of a posted transfer come to. */
  lemma StatusSteps(l: Ledger, t: Transfer, requestId: Option<string>)
    requires t.status.Completed? && t.cross.Some?
    ensures var id := |l.transfers|;
            var pending := l.(transfers := l.transfers + [t.(status := Pending)]);
            && UpdateStatus(pending, id, Processing, None, requestId) == Ok(l.(transfers := l.transfers + [t.(status := Processing)]))
            && UpdateStatus(l.(transfers := l.transfers + [t.(status := Processing)]), id, Completed, None, requestId)
               == Ok(l.(transfers := l.transfers + [t], audit := l.audit + [TransferEntry(CrossCompleted, id, t, true, requestId)]))
  {
    var id := |l.transfers|;
    assert (l.transfers + [t.(status := Pending)])[id := t.(status := Processing)] == l.transfers + [t.(status := Processing)];
    assert (l.transfers + [t.(status := Processing)])[id := t] == l.transfers + [t];
    assert l.audit + [] == l.audit;
  }

  /** An execution answers with the freshly converted amount, a replay recomputes it from the stored row. */
  ghost predicate Answered(l: Ledger, rq: CrossRequest, fx: FxView, outcome: Outcome, response: Option<Response>) {
    match outcome
    case Refused(_) => response == None
    case Replayed(id) => id < |l.transfers| && response == Some(ToResponse(id, l.transfers[id], None))
    case Executed(id) =>
      && id < |l.transfers| && FxCheck(rq, fx).Ok?
      && (rq.sourceCurrency, rq.destinationCurrency) in FxCheck(rq, fx).value.0.rates
      && var rate := FxCheck(rq, fx).value.0.rates[(rq.sourceCurrency, rq.destinationCurrency)];
         response == Some(ToResponse(id, l.transfers[id], Some(HalfUp(rq.amount * rate, RATE_UNIT))))
  }

  /** The steps of a posting add up to the atomic one. */
  lemma PostedInSteps(before: Ledger, after: Ledger, rq: CrossRequest, call: Call, terms: CrossTerms, now: int)
    requires rq.source in before.accounts && rq.destination in before.accounts
    requires var t, id := CrossRow(rq, call, terms, now), |before.transfers|;
             && after.accounts == Move(before.accounts, rq.source, rq.destination, terms.amounts.cost, terms.amounts.net)
             && after.transfers == before.transfers + [t]
             && after.audit == before.audit + [TransferEntry(CrossInitiated, id, t, true, call.requestId)]
                               + [TransferEntry(CrossCompleted, id, t, true, call.requestId)]
                               + DeliveriesFor(id, t, call.requestId) + ScreeningFor(id, t, call.requestId)
             && after.notifications == before.notifications + NotificationsFor(id, t)
    ensures after == PostCross(before, before.accounts, rq, call, terms, now)
  {
    var t, id := CrossRow(rq, call, terms, now), |before.transfers|;
    WholeMove(before.accounts, rq.source, rq.destination, terms.amounts.cost, terms.amounts.net);
    assert after.audit == before.audit + TrailOf(id, t, call.requestId);
  }

  /** Decided terms convert at the current snapshot's rate. */
  lemma TermsUseCurrentRate(l: Ledger, rq: CrossRequest, caller: string, fx: FxView, now: int)
    requires CrossDecision(l, rq, caller, fx, now).Ok?
    ensures FxCheck(rq, fx).Ok? && (rq.sourceCurrency, rq.destinationCurrency) in FxCheck(rq, fx).value.0.rates
    ensures CrossDecision(l, rq, caller, fx, now).value.amounts.gross
         == HalfUp(rq.amount * FxCheck(rq, fx).value.0.rates[(rq.sourceCurrency, rq.destinationCurrency)], RATE_UNIT)
  {
  }

  class CrossCurrencyTransferService {
    const session: Session

    constructor (session: Session)
      ensures this.session == session
    {
      this.session := session;
    }

    method Initiate(rq: CrossRequest, call: Call, fx: FxView, now: int) returns (outcome: Outcome, response: Option<Response>)
      requires session.Valid()
      modifies session, session.accounts.Values
      ensures session.Valid()
      ensures (session.View(), outcome) == Atomic.Initiate(old(session.View()), rq, call, fx, now)
      ensures Answered(session.View(), rq, fx, outcome, response)
      ensures !outcome.Executed? ==> session.View() == old(session.View())
    {
      hide CrossTransaction;
      LedgerRules.CrossOnlyExecutes(session.View(), rq, call, fx, now);
      var existing := session.GetIdempotencyRecord(call.key);
      if existing.Some? {
        var row := existing.value;
        if row.columns.caller != call.caller {
          return Refused(IdempotencyConflict), None;
        }
        return Replayed(row.id), Some(ToResponse(row.id, row.View(), None));
      }
      outcome, response := Transact(rq, call, fx, now);
    }

    method Transact(rq: CrossRequest, call: Call, fx: FxView, now: int) returns (outcome: Outcome, response: Option<Response>)
      requires session.Valid() && Find(session.TransfersView(), call.key).None?
      modifies session, session.accounts.Values
      ensures session.Valid()
      ensures (session.View(), outcome) == CrossTransaction(old(session.View()), rq, call, fx, now)
      ensures Answered(session.View(), rq, fx, outcome, response)
    {
      hide PostCross, FxCheck, TermsOf, CalculateAmounts, VolumeUsd, CrossDecision;
      var decided := Decide(rq, call.caller, fx, now);
      if decided.Err? {
        return Refused(decided.error), None;
      }
      TermsUseCurrentRate(session.View(), rq, call.caller, fx, now);
      var source, destination := session.accounts[rq.source], session.accounts[rq.destination];
      var id := Post(rq, call, decided.value, now, source, destination);
      return Executed(id), Some(ToResponse(id, session.transfers[id].View(), Some(decided.value.amounts.gross)));
    }

    method Decide(rq: CrossRequest, caller: string, fx: FxView, now: int) returns (r: Result<CrossTerms, Error>)
      requires session.Valid()
      ensures r == CrossDecision(session.View(), rq, caller, fx, now)
    {
      var snapshots := FxCheck(rq, fx);
      if snapshots.Err? {
        return Err(snapshots.error);
      }
      var source := session.LoadAccount(rq.source);
      if source.Err? {
        return Err(source.error);
      }
      var destination := session.LoadAccount(rq.destination);
      if destination.Err? {
        return Err(destination.error);
      }
      var volume := session.GetDailyTransferVolumeUsd(rq.source, now - DAY);
      return TermsOf(rq, caller, snapshots.value.0, snapshots.value.1, source.value.View(), volume);
    }

    /** Insert, process, move the money, complete, notify and screen. */
    method Post(rq: CrossRequest, call: Call, terms: CrossTerms, now: int, source: AccountRow, destination: AccountRow) returns (id: nat)
      requires session.Valid() && Find(session.TransfersView(), call.key).None?
      requires rq.source in session.accounts && session.accounts[rq.source] == source
      requires rq.destination in session.accounts && session.accounts[rq.destination] == destination
      modifies session, session.accounts.Values
      ensures session.Valid() && id == |old(session.transfers)| < |session.transfers|
      ensures session.View() == PostCross(old(session.View()), old(session.View()).accounts, rq, call, terms, now)
    {
      ghost var before := session.View();
      ghost var t := CrossRow(rq, call, terms, now);
      id := InsertProcessing(PendingRow(rq, call, terms, now), call.requestId);
      Settle(id, source, destination, terms.amounts.cost, terms.amounts.net);
      Complete(t, id, call.requestId);
      Announce(id, session.transfers[id].View(), source.number, destination.number, call.requestId);
      PostedInSteps(before, session.View(), rq, call, terms, now);
    }

    /** Move the money and record what was credited on the row being processed. */
    method Settle(id: nat, source: AccountRow, destination: AccountRow, debit: int, credit: int)
      requires session.Valid() && |session.transfers| == id + 1
      requires source.number in session.accounts && session.accounts[source.number] == source
      requires destination.number in session.accounts && session.accounts[destination.number] == destination
      requires session.TransfersView()[id].destinationAmount == credit
      modifies source`balance, destination`balance, session.transfers[id]
      ensures session.Valid()
      ensures session.View() == old(session.View()).(accounts := Move(old(session.AccountsView()), source.number, destination.number, debit, credit))
    {
      session.MoveMoney(source, destination, debit, credit);
      session.transfers[id].destinationAmount := credit;
      assert session.TransfersView() == old(session.TransfersView());
    }

    method InsertProcessing(columns: Transfer, requestId: Option<string>) returns (id: nat)
      requires session.Valid() && Find(session.TransfersView(), columns.key).None?
      requires columns.status.Pending? && columns.cross.Some?
      modifies session`transfers, session`audit
      ensures session.Valid() && id == |old(session.transfers)|
      ensures |session.transfers| == id + 1 && fresh(session.transfers[id]) && session.transfers[..id] == old(session.transfers)
      ensures session.View() == old(session.View()).(transfers := old(session.TransfersView()) + [columns.(status := Processing)],
                audit := old(session.audit) + [TransferEntry(CrossInitiated, id, columns, true, requestId)])
    {
      ghost var before := session.View();
      var row := session.CreateCrossCurrencyTransfer(columns, requestId);
      StatusSteps(before.(audit := session.audit), columns.(status := Completed), requestId);
      var e := session.UpdateTransferStatus(row.id, Processing, None, requestId);
      return row.id;
    }

    /** Finish the processing row `t` is to become. */
    method Complete(ghost t: Transfer, id: nat, requestId: Option<string>)
      requires session.Valid() && |session.transfers| == id + 1 && t.status.Completed? && t.cross.Some?
      requires session.TransfersView()[id] == t.(status := Processing)
      modifies session`audit, session.transfers[id]
      ensures session.Valid()
      ensures session.View() == old(session.View()).(transfers := old(session.TransfersView())[..id] + [t],
                audit := old(session.audit) + [TransferEntry(CrossCompleted, id, t, true, requestId)])
    {
      ghost var before := session.View().(transfers := session.TransfersView()[..id]);
      assert session.TransfersView() == before.transfers + [t.(status := Processing)];
      StatusSteps(before, t, requestId);
      var e := session.UpdateTransferStatus(id, Completed, None, requestId);
    }

    method Announce(id: nat, t: Transfer, source: string, destination: string, requestId: Option<string>)
      requires session.Valid() && source == t.source && destination == t.destination
      modifies session`notifications, session`audit
      ensures session.Valid()
      ensures session.View() == old(session.View()).(
                notifications := old(session.notifications) + NotificationsFor(id, t),
                audit := old(session.audit) + DeliveriesFor(id, t, requestId) + ScreeningFor(id, t, requestId))
    {
      if source != destination {
        session.CreateTransferNotifications(id, t, requestId);
      }
      session.AmlKycCheck(id, t, requestId);
    }
  }

  lemma PlainPostedInSteps(before: Ledger, after: Ledger, rq: PlainRequest, call: Call, terms: PlainTerms, now: int)
    requires rq.source in before.accounts && rq.destination in before.accounts
    requires var t := PlainRow(rq, call, terms, before.accounts[rq.source], before.accounts[rq.destination], now);
             && after.accounts == Move(before.accounts, rq.source, rq.destination, rq.amount, terms.credit)
             && after.transfers == before.transfers + [t]
             && after.audit == before.audit + [PlainEntry(t, call.requestId)]
             && after.notifications == before.notifications
    ensures after == PostPlain(before, before.accounts, rq, call, terms, now)
  {
    WholeMove(before.accounts, rq.source, rq.destination, rq.amount, terms.credit);
  }

  class TransferService {
    const session: Session

    constructor (session: Session)
      ensures this.session == session
    {
      this.session := session;
    }

    method ExecuteTransfer(rq: PlainRequest, call: Call, cfg: RateConfig, now: int) returns (outcome: Outcome)
      requires session.Valid()
      modifies session, session.accounts.Values
      ensures session.Valid()
      ensures (session.View(), outcome) == Atomic.ExecuteTransfer(old(session.View()), rq, call, cfg, now)
      ensures !outcome.Executed? ==> session.View() == old(session.View())
    {
      hide PlainTransaction;
      LedgerRules.PlainOnlyExecutes(session.View(), rq, call, cfg, now);
      if rq.amount <= 0 {
        return Refused(InvalidAmount);
      }
      var existing := session.GetIdempotencyRecord(call.key);
      if existing.Some? {
        return if existing.value.columns.caller != call.caller then Refused(IdempotencyConflict) else Replayed(existing.value.id);
      }
      outcome := Transact(rq, call, cfg, now);
    }

    method Transact(rq: PlainRequest, call: Call, cfg: RateConfig, now: int) returns (outcome: Outcome)
      requires session.Valid() && Find(session.TransfersView(), call.key).None?
      modifies session, session.accounts.Values
      ensures session.Valid()
      ensures (session.View(), outcome) == PlainTransaction(old(session.View()), rq, call, cfg, now)
    {
      hide PostPlain;
      var decided := Decide(rq, cfg);
      if decided.Err? {
        return Refused(decided.error);
      }
      var source, destination := session.accounts[rq.source], session.accounts[rq.destination];
      var id := Post(rq, call, decided.value, now, source, destination);
      return Executed(id);
    }

    method Decide(rq: PlainRequest, cfg: RateConfig) returns (r: Result<PlainTerms, Error>)
      requires session.Valid()
      ensures r == PlainDecision(session.View(), rq, cfg)
    {
      var source := session.LoadAccount(rq.source);
      if source.Err? {
        return Err(source.error);
      }
      var destination := session.LoadAccount(rq.destination);
      if destination.Err? {
        return Err(destination.error);
      }
      return PlainTermsOf(rq, cfg, source.value.View(), destination.value.View());
    }

    method Record(columns: Transfer, requestId: Option<string>) returns (id: nat)
      requires session.Valid() && Find(session.TransfersView(), columns.key).None?
      modifies session`transfers, session`audit
      ensures session.Valid() && id == |old(session.transfers)|
      ensures session.View() == old(session.View()).(transfers := old(session.TransfersView()) + [columns],
                                                     audit := old(session.audit) + [PlainEntry(columns, requestId)])
    {
      var row := session.InsertTransfer(columns);
      session.WriteAuditLog(PlainEntry(columns, requestId));
      return row.id;
    }

    /** The balances move before the row is inserted. */
    method Post(rq: PlainRequest, call: Call, terms: PlainTerms, now: int, source: AccountRow, destination: AccountRow) returns (id: nat)
      requires session.Valid() && Find(session.TransfersView(), call.key).None?
      requires rq.source in session.accounts && session.accounts[rq.source] == source
      requires rq.destination in session.accounts && session.accounts[rq.destination] == destination
      modifies session, session.accounts.Values
      ensures session.Valid() && id == |old(session.transfers)|
      ensures session.View() == PostPlain(old(session.View()), old(session.View()).accounts, rq, call, terms, now)
    {
      ghost var before := session.View();
      var columns := PlainRow(rq, call, terms, source.View(), destination.View(), now);
      session.MoveMoney(source, destination, rq.amount, terms.credit);
      assert session.TransfersView() == before.transfers;
      id := Record(columns, call.requestId);
      PlainPostedInSteps(before, session.View(), rq, call, terms, now);
    }

    /**
     The retry wrapper: attempts whose number is in `victims` are picked as deadlock victims and rolled back;
     up to MAX_RETRIES of them are repeated.
     */
    method ExecuteWithRetry(rq: PlainRequest, call: Call, cfg: RateConfig, now: int, victims: set<nat>) returns (outcome: Outcome)
      requires session.Valid()
      modifies session, session.accounts.Values
      ensures session.Valid()
      ensures (session.View(), outcome)
           == if forall attempt: nat :: attempt <= MAX_RETRIES ==> attempt in victims then (old(session.View()), Refused(Deadlock))
              else Atomic.ExecuteTransfer(old(session.View()), rq, call, cfg, now)
    {
      for attempt := 0 to MAX_RETRIES + 1
        invariant session.Valid() && session.accounts == old(session.accounts) && session.View() == old(session.View())
        invariant forall earlier: nat :: earlier < attempt ==> earlier in victims
      {
        if attempt !in victims {
          outcome := ExecuteTransfer(rq, call, cfg, now);
          return;
        }
      }
      return Refused(Deadlock);
    }
  }

  class AccountService {
    const session: Session

    constructor (session: Session)
      ensures this.session == session
    {
      this.session := session;
    }

    /** Try the drawn numbers in turn and keep the first free one. */
    method DrawNumber(drawn: seq<string>) returns (number: string)
      requires session.Valid() && drawn != []
      ensures number == PickNumber(session.AccountsView(), drawn)
    {
      number := drawn[0];
      var i := 1;
      while i < |drawn| && number in session.accounts
        invariant 1 <= i <= |drawn| && number == drawn[i - 1]
        invariant PickNumber(session.AccountsView(), drawn) == PickNumber(session.AccountsView(), drawn[i - 1..])
      {
        assert drawn[i - 1..][1..] == drawn[i..];
        number := drawn[i];
        i := i + 1;
      }
    }

    method CreateAccount(owner: string, currency: string, opening: int, drawn: seq<string>,
                         actor: string, requestId: Option<string>, cfg: RateConfig) returns (r: Result<string, Error>)
      requires session.Valid() && drawn != []
      modifies session
      ensures session.Valid()
      ensures (session.View(), r) == Atomic.CreateAccount(old(session.View()), owner, currency, opening, drawn, actor, requestId, cfg)
    {
      if currency !in cfg.supported {
        return Err(UnsupportedCurrency);
      }
      if opening < 0 {
        return Err(NegativeOpening);
      }
      var number := DrawNumber(drawn);
      if number in session.accounts {
        return Err(DuplicateAccount);
      }
      ghost var before := session.View();
      var row := new AccountRow(number, owner, currency, opening);
      session.accounts := session.accounts[number := row];
      session.WriteAuditLog(AuditEntry(AccountCreated, actor, [number], Some(opening), Some(currency), true, None, requestId));
      assert session.TransfersView() == before.transfers;
      assert session.AccountsView() == before.accounts[number := Account(owner, currency, opening, true, None)];
      return Ok(number);
    }

    method DeleteAccount(number: string, hash: string, actor: string, requestId: Option<string>) returns (e: Option<Error>)
      requires session.Valid()
      modifies session`audit, session.accounts.Values
      ensures session.Valid()
      ensures (session.View(), e) == Atomic.DeleteAccount(old(session.View()), number, hash, actor, requestId)
    {
      var loaded := session.LoadAccount(number);
      if loaded.Err? {
        return Some(loaded.error);
      }
      var row := loaded.value;
      if row.balance != 0 {
        return Some(AccountHasBalance);
      }
      Anonymise(number, row, hash);
      session.WriteAuditLog(AuditEntry(AccountDeleted, actor, [number], None, Some(row.currency), true, None, requestId));
      return None;
    }

    /** The row stays, without its owner. */
    method Anonymise(number: string, row: AccountRow, hash: string)
      requires session.Valid() && number in session.accounts && session.accounts[number] == row
      modifies row
      ensures session.Valid()
      ensures session.View() == old(session.View()).(accounts := old(session.AccountsView())[number := ClosedRow(old(session.AccountsView())[number], hash)])
    {
      ghost var before := session.View();
      row.active := false;
      row.ownerHash := Some(hash);
      row.owner := "ANONYMIZED-" + (if |hash| <= 16 then hash else hash[..16]);
      assert session.TransfersView() == before.transfers;
      assert session.AccountsView() == before.accounts[number := ClosedRow(before.accounts[number], hash)];
    }
  }
}
