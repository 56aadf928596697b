/**
 What a sender was quoted against what is executed, and what the services leave to their callers: the sign of
 the amount and the currency of the destination account.
 */
module LedgerQuotes {
  import opened Money
  import opened Wrappers
  import opened Ledger
  import opened LedgerInvariants
  import opened LedgerRules

  // ---- quotes --------------------------------------------------------------------------------

  datatype Quote = Quote(snapshot: nat, rate: int, amounts: Amounts)

  /** The quote for a conversion, from the latest snapshot. */
  function PreviewConversion(from: string, to: string, amount: int, fx: FxView): Result<Quote, Error> {
    if fx.latest.None? || fx.latest.value.stale then Err(StaleRate)
    else if (from, to) !in fx.activePairs then Err(UnsupportedPair)
    else
      match GetRate(fx.latest.value.rates, from, to)
      case Err(e) => Err(e)
      case Ok(rate) => Ok(Quote(fx.latest.value.id, rate, CalculateAmounts(amount, rate)))
  }

  /**
   A transfer executed against the snapshot it was quoted on credits the quoted net amount up to 1.00005% of the
   quoted conversion and 1.0050005 units; when the rate has not moved since, it costs and credits exactly the quote.
   */
  lemma ExecutionHonoursQuote(l: Ledger, rq: CrossRequest, call: Call, quoted: FxView, fx: FxView, now: int)
    requires PreviewConversion(rq.sourceCurrency, rq.destinationCurrency, rq.amount, quoted).Ok?
    requires rq.snapshot == quoted.latest.value.id
    requires rq.snapshot in fx.snapshots ==> fx.snapshots[rq.snapshot].rates == quoted.latest.value.rates
    requires rq.amount >= 0 && PositiveFx(quoted)
    requires Initiate(l, rq, call, fx, now).1.Executed?
    ensures var quote := PreviewConversion(rq.sourceCurrency, rq.destinationCurrency, rq.amount, quoted).value;
            var rows := Initiate(l, rq, call, fx, now).0.transfers;
            && |rows| == |l.transfers| + 1
            && var t := rows[|l.transfers|];
               && 2_000_000 * Abs(t.destinationAmount - quote.amounts.net) <= 20_001 * quote.amounts.gross + 2_010_001
               && DebitOf(t) == quote.amounts.cost
               && (FxCheck(rq, fx).value.0.rates == quoted.latest.value.rates ==>
                     t.destinationAmount == quote.amounts.net && t.cross.value.receivingFee == quote.amounts.receivingFee)
  {
    var preview := quoted.latest.value.rates[(rq.sourceCurrency, rq.destinationCurrency)];
    var rate := ExecutedAtCurrentRate(l, rq, call, fx, now);
    hide Initiate, CalculateAmounts, RateConfirmed, FxCheck;
    ExecutedNetNearPreview(rq.amount, preview, rate);
    SendingFeeIgnoresRate(rq.amount, preview, rate);
  }

  /** A quote can be taken up at once: it names the snapshot to confirm, and the unmoved rate passes. */
  lemma QuoteIsUsable(rq: CrossRequest, fx: FxView)
    requires fx.latest.Some? ==> fx.latest.value.id in fx.snapshots && fx.snapshots[fx.latest.value.id] == fx.latest.value
    ensures var quote := PreviewConversion(rq.sourceCurrency, rq.destinationCurrency, rq.amount, fx);
            && (quote.Ok? ==> RateUsable(rq.(snapshot := quote.value.snapshot), fx))
            && (fx.latest.Some? && RateUsable(rq.(snapshot := fx.latest.value.id), fx) ==> quote.Ok?)
  {
    hide CalculateAmounts, HalfUp;
    if PreviewConversion(rq.sourceCurrency, rq.destinationCurrency, rq.amount, fx).Ok? {
      UnmovedIsConfirmed(fx.latest.value.rates[(rq.sourceCurrency, rq.destinationCurrency)]);
    }
  }

  lemma UnmovedIsConfirmed(rate: int)
    ensures RateConfirmed(rate, rate)
  {
    if rate != 0 { HalfUpExact(0, Abs(rate)); }
  }

  lemma SendingFeeIgnoresRate(amount: int, rate: int, other: int)
    ensures CalculateAmounts(amount, rate).cost == CalculateAmounts(amount, other).cost
  {
  }

  /** An executed transfer converts at the current rate, which the deviation check has compared with the previewed one. */
  lemma ExecutedAtCurrentRate(l: Ledger, rq: CrossRequest, call: Call, fx: FxView, now: int) returns (rate: int)
    requires Initiate(l, rq, call, fx, now).1.Executed?
    ensures FxCheck(rq, fx).Ok? && rq.snapshot in fx.snapshots
    ensures var pair := (rq.sourceCurrency, rq.destinationCurrency);
            && pair in FxCheck(rq, fx).value.0.rates && rate == FxCheck(rq, fx).value.0.rates[pair]
            && pair in fx.snapshots[rq.snapshot].rates && RateConfirmed(fx.snapshots[rq.snapshot].rates[pair], rate)
    ensures var rows, a := Initiate(l, rq, call, fx, now).0.transfers, CalculateAmounts(rq.amount, rate);
            && |rows| == |l.transfers| + 1
            && var t := rows[|l.transfers|];
               t.destinationAmount == a.net && DebitOf(t) == a.cost && t.cross.Some? && t.cross.value.receivingFee == a.receivingFee
  {
    hide HalfUp, Quantize, VolumeUsd, DeviationPct;
    rate := CrossDecision(l, rq, call.caller, fx, now).value.rate;
  }

  // ---- the sign of the amount ----------------------------------------------------------------

  /** Whatever the ledger, the rates and the request, this amount never leaves a balance negative. */
  ghost predicate KeepsSolvency(amount: int) {
    forall l: Ledger, rq: CrossRequest, call: Call, fx: FxView, now: int ::
      Solvent(l.accounts) && PositiveFx(fx) && rq.amount == amount ==> Solvent(Initiate(l, rq, call, fx, now).0.accounts)
  }

  /** The request schema lets any amount through; solvency survives exactly the non-negative ones. */
  lemma SolvencyIffNonNegative(amount: int)
    ensures KeepsSolvency(amount) <==> amount >= 0
  {
    if amount >= 0 {
      forall l: Ledger, rq: CrossRequest, call: Call, fx: FxView, now: int
        | Solvent(l.accounts) && PositiveFx(fx) && rq.amount == amount
        ensures Solvent(Initiate(l, rq, call, fx, now).0.accounts)
      {
        if Initiate(l, rq, call, fx, now).1.Executed? {
          var terms := CrossDecision(l, rq, call.caller, fx, now).value;
          AmountsInRange(amount, terms.rate);
          SolventKept(l.accounts, rq.source, rq.destination, terms.amounts.cost, terms.amounts.net);
          WholeMove(l.accounts, rq.source, rq.destination, terms.amounts.cost, terms.amounts.net);
        }
      }
    } else {
      NegativeAmountDrainsDestination(amount);
    }
  }

  /** Two empty dollar accounts. */
  const TWO_EMPTY: map<string, Account> := map["S" := Account("ada", "USD", 0, true, None), "D" := Account("bob", "USD", 0, true, None)]

  const AT_PAR: Snapshot := Snapshot(0, false, map[("USD", "USD") := RATE_UNIT])

  /** A negative amount at par debits and credits negative amounts. */
  lemma NegativeTerms(amount: int, caller: string)
    requires amount < 0
    ensures var a := CalculateAmounts(amount, RATE_UNIT);
            && a.net < 0 && a.cost < 0
            && TermsOf(CrossRequest("S", "D", amount, "USD", "USD", 0), caller, AT_PAR, AT_PAR, Account(caller, "USD", 0, true, None), 0)
               == Ok(CrossTerms(a, RATE_UNIT, amount, 0))
  {
    HalfUpExact(amount, RATE_UNIT);
    assert DeviationPct(RATE_UNIT, RATE_UNIT) == 0;
  }

  lemma NegativeAmountDrainsDestination(amount: int)
    requires amount < 0
    ensures !KeepsSolvency(amount)
  {
    var l := EMPTY.(accounts := TWO_EMPTY);
    var fx := FxView(Some(AT_PAR), map[0 := AT_PAR], {("USD", "USD")});
    var rq, call := CrossRequest("S", "D", amount, "USD", "USD", 0), Call("ada", "k", None);
    assert "S" != "D" by { assert "S"[0] != "D"[0]; }
    NegativeTerms(amount, "ada");
    hide TermsOf, CalculateAmounts;
    var a := CalculateAmounts(amount, RATE_UNIT);
    InitiateSucceeds(l, rq, call, fx, 0, CrossTerms(a, RATE_UNIT, amount, 0));
    assert Initiate(l, rq, call, fx, 0).0.accounts["D"].balance == a.net;
    assert Solvent(l.accounts) && PositiveFx(fx);
  }

  // ---- totals per currency -------------------------------------------------------------------

  /** The sum of the listed accounts' balances in one currency. */
  function Total(accounts: map<string, Account>, names: seq<string>, currency: string): int
    requires forall n :: n in names ==> n in accounts
  {
    if names == [] then 0
    else (if accounts[names[0]].currency == currency then accounts[names[0]].balance else 0) + Total(accounts, names[1..], currency)
  }

  /** Every account once. */
  ghost predicate Lists(names: seq<string>, accounts: map<string, Account>) {
    && (forall n :: n in accounts <==> n in names)
    && (forall i, j :: 0 <= i < j < |names| ==> names[i] != names[j])
  }

  /** What a row says it takes out of and puts into a currency. */
  function RowEffect(t: Transfer, currency: string): int {
    (if t.destinationCurrency == currency then t.destinationAmount else 0) - (if t.sourceCurrency == currency then DebitOf(t) else 0)
  }

  lemma {:induction false} TotalWithBalance(accounts: map<string, Account>, names: seq<string>, number: string, balance: int, currency: string)
    requires number in accounts && forall n :: n in names ==> n in accounts
    requires forall i, j :: 0 <= i < j < |names| ==> names[i] != names[j]
    ensures Total(accounts[number := accounts[number].(balance := balance)], names, currency)
         == Total(accounts, names, currency)
            + if number in names && accounts[number].currency == currency then balance - accounts[number].balance else 0
  {
    if names != [] {
      TotalWithBalance(accounts, names[1..], number, balance, currency);
      assert number in names <==> number == names[0] || number in names[1..];
    }
  }

  lemma TotalAfterMove(accounts: map<string, Account>, names: seq<string>, source: string, destination: string,
                       debit: int, credit: int, currency: string)
    requires Lists(names, accounts) && source in accounts && destination in accounts
    ensures Total(Move(accounts, source, destination, debit, credit), names, currency)
         == Total(accounts, names, currency)
            - (if accounts[source].currency == currency then debit else 0)
            + (if accounts[destination].currency == currency then credit else 0)
  {
    var debited := accounts[source := accounts[source].(balance := accounts[source].balance - debit)];
    TotalWithBalance(accounts, names, source, accounts[source].balance - debit, currency);
    TotalWithBalance(debited, names, destination, debited[destination].balance + credit, currency);
  }

  /**
   An executed cross-currency transfer changes every currency's total by what its row says exactly when the
   destination account is held in the requested destination currency, or the amount converts to nothing. Only the
   source side of this is checked by the service.
   */
  lemma TotalsFollowRowIff(l: Ledger, rq: CrossRequest, call: Call, fx: FxView, now: int, names: seq<string>)
    requires Lists(names, l.accounts) && Initiate(l, rq, call, fx, now).1.Executed?
    ensures var l' := Initiate(l, rq, call, fx, now).0;
            && |l'.transfers| == |l.transfers| + 1 && rq.destination in l.accounts
            && (forall n :: n in names ==> n in l'.accounts)
            && fx.latest.Some? && (rq.sourceCurrency, rq.destinationCurrency) in fx.latest.value.rates
            && var rate := fx.latest.value.rates[(rq.sourceCurrency, rq.destinationCurrency)];
               ((forall currency :: Total(l'.accounts, names, currency)
                                    == Total(l.accounts, names, currency) + RowEffect(l'.transfers[|l.transfers|], currency))
                <==> (l.accounts[rq.destination].currency == rq.destinationCurrency || NetOf(HalfUp(rq.amount * rate, RATE_UNIT)) == 0))
  {
    hide Initiate, Total, HalfUp, NetOf, CalculateAmounts;
    var l', t := ExecutedRow(l, rq, call, fx, now);
    CreditIsNet(l, rq, call, fx, now);
    forall currency
      ensures Total(l'.accounts, names, currency)
           == Total(l.accounts, names, currency) + RowEffect(t, currency)
              + (if l.accounts[rq.destination].currency == currency then t.destinationAmount else 0)
              - (if rq.destinationCurrency == currency then t.destinationAmount else 0)
    {
      TotalAfterMove(l.accounts, names, rq.source, rq.destination, DebitOf(t), t.destinationAmount, currency);
    }
    if l.accounts[rq.destination].currency != rq.destinationCurrency && t.destinationAmount != 0 {
      assert Total(l'.accounts, names, rq.destinationCurrency) != Total(l.accounts, names, rq.destinationCurrency) + RowEffect(t, rq.destinationCurrency);
    }
  }

  /** A dollar account that can pay for the amount, and a euro account. */
  function DollarsAndEuros(amount: int): map<string, Account> {
    map["S" := Account("ada", "USD", amount + SendingFee(amount), true, None), "D" := Account("bob", "EUR", 0, true, None)]
  }

  lemma ParTerms(amount: int)
    requires 0 < amount <= TX_LIMIT_USD
    ensures var a := CalculateAmounts(amount, RATE_UNIT);
            && a.net == NetOf(amount) > 0
            && TermsOf(CrossRequest("S", "D", amount, "USD", "USD", 0), "ada", AT_PAR, AT_PAR, DollarsAndEuros(amount)["S"], 0)
               == Ok(CrossTerms(a, RATE_UNIT, amount, 0))
  {
    assert "S" != "D" by { assert "S"[0] != "D"[0]; }
    HalfUpExact(amount, RATE_UNIT);
    assert DeviationPct(RATE_UNIT, RATE_UNIT) == 0;
  }

  /** Dollars are accepted for a euro account: every amount up to the limit can be credited there, unit for unit after the fee. */
  lemma WrongCurrencyIsCredited(amount: int)
    requires 0 < amount <= TX_LIMIT_USD
    ensures var l, rq := EMPTY.(accounts := DollarsAndEuros(amount)), CrossRequest("S", "D", amount, "USD", "USD", 0);
            var (l', outcome) := Initiate(l, rq, Call("ada", "k", None), FxView(Some(AT_PAR), map[0 := AT_PAR], {("USD", "USD")}), 0);
            && outcome.Executed? && "D" in l'.accounts && l'.accounts["D"].currency == "EUR"
            && l'.accounts["D"].balance == NetOf(amount) > 0
  {
    var l, rq, call := EMPTY.(accounts := DollarsAndEuros(amount)), CrossRequest("S", "D", amount, "USD", "USD", 0), Call("ada", "k", None);
    var fx := FxView(Some(AT_PAR), map[0 := AT_PAR], {("USD", "USD")});
    assert "S" != "D" by { assert "S"[0] != "D"[0]; }
    ParTerms(amount);
    hide TermsOf, CalculateAmounts, NetOf;
    var a := CalculateAmounts(amount, RATE_UNIT);
    InitiateSucceeds(l, rq, call, fx, 0, CrossTerms(a, RATE_UNIT, amount, 0));
  }

  /** What an executed cross-currency transfer credits. */
  lemma CreditIsNet(l: Ledger, rq: CrossRequest, call: Call, fx: FxView, now: int)
    requires Initiate(l, rq, call, fx, now).1.Executed?
    ensures fx.latest.Some? && (rq.sourceCurrency, rq.destinationCurrency) in fx.latest.value.rates
    ensures var rows := Initiate(l, rq, call, fx, now).0.transfers;
            var rate := fx.latest.value.rates[(rq.sourceCurrency, rq.destinationCurrency)];
            |rows| == |l.transfers| + 1 && rows[|l.transfers|].destinationAmount == NetOf(HalfUp(rq.amount * rate, RATE_UNIT))
  {
    var rate := ExecutedAtCurrentRate(l, rq, call, fx, now);
    hide Initiate, HalfUp, Quantize, RateConfirmed;
  }

  /** The ledger and the row an executed cross-currency transfer leaves. */
  lemma ExecutedRow(l: Ledger, rq: CrossRequest, call: Call, fx: FxView, now: int) returns (l': Ledger, t: Transfer)
    requires Initiate(l, rq, call, fx, now).1.Executed?
    ensures l' == Initiate(l, rq, call, fx, now).0 && l'.transfers == l.transfers + [t]
    ensures rq.source in l.accounts && rq.destination in l.accounts && l.accounts[rq.source].currency == rq.sourceCurrency
    ensures t.sourceCurrency == rq.sourceCurrency && t.destinationCurrency == rq.destinationCurrency
    ensures l'.accounts == Move(l.accounts, rq.source, rq.destination, DebitOf(t), t.destinationAmount)
  {
    var terms := CrossDecision(l, rq, call.caller, fx, now).value;
    l' := Initiate(l, rq, call, fx, now).0;
    t := CrossRow(rq, call, terms, now);
    ExecutedTerms(l, rq, call.caller, fx, now);
    hide CrossDecision, CalculateAmounts;
    WholeMove(l.accounts, rq.source, rq.destination, terms.amounts.cost, terms.amounts.net);
  }

  /** Decided terms cost the amount and its fee, from an account in the requested currency. */
  lemma ExecutedTerms(l: Ledger, rq: CrossRequest, caller: string, fx: FxView, now: int)
    requires CrossDecision(l, rq, caller, fx, now).Ok?
    ensures var a := CrossDecision(l, rq, caller, fx, now).value.amounts; a.cost == rq.amount + a.sendingFee
    ensures rq.source in l.accounts && l.accounts[rq.source].currency == rq.sourceCurrency
  {
    hide VolumeUsd, HalfUp, Quantize;
  }

  /** A plain transfer reads both currencies from the accounts, so totals always follow its row; within one currency they are conserved. */
  lemma PlainTotals(l: Ledger, rq: PlainRequest, call: Call, cfg: RateConfig, now: int, names: seq<string>, currency: string)
    requires Lists(names, l.accounts) && ExecuteTransfer(l, rq, call, cfg, now).1.Executed?
    ensures var l' := ExecuteTransfer(l, rq, call, cfg, now).0;
            && |l'.transfers| == |l.transfers| + 1 && rq.source in l.accounts && rq.destination in l.accounts
            && (forall n :: n in names ==> n in l'.accounts)
            && Total(l'.accounts, names, currency) == Total(l.accounts, names, currency) + RowEffect(l'.transfers[|l.transfers|], currency)
            && (l.accounts[rq.source].currency == l.accounts[rq.destination].currency ==>
                  Total(l'.accounts, names, currency) == Total(l.accounts, names, currency))
  {
    var terms := PlainDecision(l, rq, cfg).value;
    WholeMove(l.accounts, rq.source, rq.destination, rq.amount, terms.credit);
    TotalAfterMove(l.accounts, names, rq.source, rq.destination, rq.amount, terms.credit, currency);
    if l.accounts[rq.source].currency == l.accounts[rq.destination].currency {
      assert terms.rate == RATE_UNIT;
      HalfEvenExact(rq.amount, RATE_UNIT);
    }
  }
}
