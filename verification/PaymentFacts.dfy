/** What a passing audit establishes about the records it read, in terms of the records alone. */
module PaymentFacts {
  import opened Wrappers
  import opened Payments
  import opened PaymentAudit
  import opened PaymentTheorems
  import Counting

  /** Within half a cent. */
  predicate Cents(a: real, b: real) {
    -0.005 < a - b < 0.005
  }

  // ---------- each payment ----------

  /** Invoice, wizard, payment and final record of a payment name one company, one partner and one
      currency; the company is the scenario's; the bank line names that company and partner; and wizard
      and payment use the frozen journal. */
  lemma OneIdentity(d: Trace, i: nat)
    requires Passing(d) && i < |CreatesOf(d)|
    ensures var v := ViewAt(d, i).value;
            && Rid(v.invoice.parties.company) == Rid(v.wizard.parties.company) == Rid(v.payment.parties.company)
               == Rid(v.final.parties.company) == Rid(v.bank.company) == Some(d.company)
            && Rid(v.invoice.parties.partner) == Rid(v.wizard.parties.partner) == Rid(v.payment.parties.partner)
               == Rid(v.final.parties.partner) == Rid(v.bank.partner)
            && Rid(v.invoice.parties.currency) == Rid(v.wizard.parties.currency)
               == Rid(v.payment.parties.currency) == Rid(v.final.parties.currency)
            && Rid(v.wizard.journal) == Rid(v.payment.journal) == Some(d.journal)
  {
    assert PaymentPasses(d, i);
  }

  /** Money direction, partner type and document type, scenario by scenario. */
  function Terms(s: Scenario): (string, string, string) {
    match s
    case CustomerCollection => ("inbound", "customer", "out_invoice")
    case VendorPayment => ("outbound", "supplier", "in_invoice")
    case CustomerRefund => ("outbound", "customer", "out_refund")
    case VendorRefund => ("inbound", "supplier", "in_refund")
    case Unsupported => ("", "", "")
  }

  lemma TermsAre(d: Trace)
    requires d.scenario != Unsupported
    ensures Terms(d.scenario) == (Direction(d), PartnerType(d), MoveType(d))
  {
    assert "customer" != "supplier" by { assert "customer"[0] != "supplier"[0]; }
    assert "out_" + "invoice" == "out_invoice" && "in_" + "invoice" == "in_invoice";
    assert "out_" + "refund" == "out_refund" && "in_" + "refund" == "in_refund";
  }

  lemma DirectionFollowsScenario(d: Trace, i: nat)
    requires Passing(d) && i < |CreatesOf(d)|
    ensures var v := ViewAt(d, i).value;
            var (direction, partner, document) := Terms(d.scenario);
            && d.scenario != Unsupported
            && v.wizard.paymentType == v.payment.paymentType == direction
            && v.wizard.partnerType == v.payment.partnerType == partner
            && v.invoice.moveType == document
  {
    TermsAre(d);
    assert PaymentPasses(d, i);
  }

  /** The payment settles one posted document: the frozen invoice, or, for a refund, the one credit note
      that reverses it. */
  lemma SourceIsFrozen(d: Trace, i: nat)
    requires Passing(d) && i < |CreatesOf(d)|
    ensures var v := ViewAt(d, i).value;
            var refund := d.scenario == CustomerRefund || d.scenario == VendorRefund;
            && |CreatesOf(d)[i].evidence.invoices| == 1 && v.invoice == CreatesOf(d)[i].evidence.invoices[0]
            && v.invoice.state == "posted" && v.payment.invoices == [v.invoice.id]
            && (!refund ==> v.invoice.id == d.invoiceId)
            && (refund ==>
                  && |d.credits| == 1 && Rid(d.credits[0].reversedEntry) == Some(d.invoiceId)
                  && v.invoice.id == d.credits[0].id && Rid(v.invoice.reversedEntry) == Some(d.invoiceId))
  {
    assert PaymentPasses(d, i);
  }

  /** What the scenario says the payment at this position should be. */
  function Expected(d: Trace, i: nat): real
    requires Cardinality(d) && i < |CreatesOf(d)|
  {
    if d.scenario == CustomerRefund || d.scenario == VendorRefund then d.refundAmount else d.paymentAmounts[i]
  }

  /** What the bank line should be: the expected amount, negative when the money goes out. */
  function Booked(d: Trace, i: nat): real
    requires Cardinality(d) && i < |CreatesOf(d)|
  {
    if Terms(d.scenario).0 == "inbound" then Expected(d, i) else -Expected(d, i)
  }

  lemma BookedIsSigned(d: Trace, i: nat)
    requires PaymentsReadable(d) && Cardinality(d) && i < |CreatesOf(d)| && ViewAt(d, i).Some?
    requires d.scenario != Unsupported
    ensures Signed(d, ViewAt(d, i).value.amount) == Booked(d, i)
  {
    assert "inbound" != "outbound" by { assert "inbound"[0] != "outbound"[0]; }
  }

  /** Wizard, payment and final record are of the expected amount and the bank line is too, negative when
      the money goes out; nothing is written off, and the invoice goes down by that amount. */
  lemma AmountsAgree(d: Trace, i: nat)
    requires Passing(d) && i < |CreatesOf(d)|
    ensures var v, a := ViewAt(d, i).value, Expected(d, i);
            && Cents(v.wizard.amount, a) && Cents(v.payment.amount, a) && Cents(v.final.amount, a)
            && Cents(v.bank.amount, Booked(d, i))
            && v.wizard.handling == "open" && Cents(CreatesOf(d)[i].evidence.reduction, a)
  {
    assert PaymentPasses(d, i);
    BookedIsSigned(d, i);
  }

  /** The final record lists the bank line and nothing else, and both are settled. */
  lemma SettledOnItsLine(d: Trace, i: nat)
    requires Passing(d) && i < |CreatesOf(d)|
    ensures var v := ViewAt(d, i).value;
            && v.final in d.finalPayments && v.final.id == v.payment.id
            && v.bank in d.bank && v.bank.id == d.bankIds[i]
            && v.final.statementLines == [d.bankIds[i]]
            && v.final.matched && v.final.reconciled && v.final.state == "paid" && v.bank.reconciled
  {
    assert PaymentPasses(d, i);
    FinalByIdFound(d.finalPayments, PaymentAt(d, i).id);
    BankByIdFound(d.bank, d.bankIds[i]);
  }

  // ---------- its reconcile action ----------

  /** The two lines of the reconcile action of a payment: which one is the payment's and which one the
      bank's, that they belong to the same account and parties, cancel each other, and are linked once. */
  ghost predicate OppositeLines(d: Trace, v: View, a: Action, amount: real, pl: MoveLine, bl: MoveLine)
    requires a.evidence.ReconcileEvidence?
  {
    && |a.evidence.lines| == 2 && pl in a.evidence.lines && bl in a.evidence.lines && pl.id != bl.id
    && Rid(pl.payment) == Some(v.payment.id) && Rid(bl.move) == Rid(v.bank.move)
    && Rid(pl.move) == Rid(v.payment.move) == Rid(v.final.move)
    && Rid(pl.account) == Rid(bl.account)
    && (forall l | l in a.evidence.lines ::
          && Rid(l.parties.company) == Some(d.company)
          && Rid(l.parties.partner) == Rid(v.invoice.parties.partner)
          && Rid(l.parties.currency) == Rid(v.invoice.parties.currency)
          && l.parentState == "posted" && l.reconciled
          && Cents(l.residual, 0.0) && Cents(l.residualCurrency, 0.0))
    && Cents(pl.balance, amount) && Cents(bl.balance, -amount)
    && pl.fullReconcile !in {Unset, Plain(0)} && Rid(pl.fullReconcile) == Rid(bl.fullReconcile)
    && LinkedOnce(pl, bl)
  }

  /** The partial reconciliation is a debit of one line and a credit of the other. */
  predicate LinkedBy(pl: MoveLine, bl: MoveLine, link: int) {
    (link in pl.debits && link in bl.credits) || (link in pl.credits && link in bl.debits)
  }

  ghost predicate LinkedOnce(pl: MoveLine, bl: MoveLine) {
    && (exists x :: LinkedBy(pl, bl, x))
    && forall x, y | LinkedBy(pl, bl, x) && LinkedBy(pl, bl, y) :: x == y
  }

  lemma ReconciledOpposite(d: Trace, i: nat) returns (pl: MoveLine, bl: MoveLine)
    requires Passing(d) && i < |CreatesOf(d)|
    ensures var a := ReconcilesOf(d)[MatchOf(d, i)];
            && a.evidence.ReconcileEvidence? && a.evidence.bankVerified
            && a.evidence.statementLines == [(d.bankIds[i], true)]
            && CreatesOf(d)[i].finished < a.sent
            && OppositeLines(d, ViewAt(d, i).value, a, Booked(d, i), pl, bl)
  {
    var a := MatchChecked(d, i);
    OneIdentity(d, i);
    BookedIsSigned(d, i);
    pl, bl := PassingLines(d, ViewAt(d, i).value, a);
  }

  lemma MatchChecked(d: Trace, i: nat) returns (a: Action)
    requires Passing(d) && i < |CreatesOf(d)|
    ensures a == ReconcilesOf(d)[MatchOf(d, i)] && MatchPasses(d, ViewAt(d, i).value, a)
  {
    assert PaymentPasses(d, i);
    a := ReconcilesOf(d)[MatchOf(d, i)];
  }

  lemma PassingLines(d: Trace, v: View, a: Action) returns (pl: MoveLine, bl: MoveLine)
    requires MatchPasses(d, v, a) && Rid(v.invoice.parties.company) == Some(d.company)
    ensures OppositeLines(d, v, a, Signed(d, v.amount), pl, bl)
  {
    var lines := a.evidence.lines;
    pl, bl := PaymentLines(lines, v.payment.id)[0], BankMoveLines(lines, Rid(v.bank.move))[0];
    LinesAreLines(lines, v.payment.id, Rid(v.bank.move));
    assert pl in PaymentLines(lines, v.payment.id) && bl in BankMoveLines(lines, Rid(v.bank.move));
    OneLink(pl, bl);
  }

  lemma OneLink(pl: MoveLine, bl: MoveLine)
    requires |Counting.Elements(pl.debits) * Counting.Elements(bl.credits)
              + Counting.Elements(pl.credits) * Counting.Elements(bl.debits)| == 1
    ensures LinkedOnce(pl, bl)
  {
    var shared := Counting.Elements(pl.debits) * Counting.Elements(bl.credits)
                  + Counting.Elements(pl.credits) * Counting.Elements(bl.debits);
    assert forall x :: LinkedBy(pl, bl, x) <==> x in shared;
    assert shared != {};
    forall x, y | x in shared && y in shared
      ensures x == y
    {
      Counting.SubsetSize({x, y}, shared);
    }
  }

  // ---------- the log as a whole ----------

  lemma {:induction false} ActionsListed(actions: seq<Action>, a: Action)
    ensures a in Creates(actions) <==>
            a in actions && a.model == "account.payment.register" && a.verb == "action_create_payments"
    ensures a in Reconciles(actions) <==> a in actions && a.model == "account.move.line" && a.verb == "reconcile"
  {
    if actions != [] {
      var n := |actions| - 1;
      ActionsListed(actions[..n], a);
      assert actions == actions[..n] + [actions[n]];
    }
  }

  /** Which logged actions are payments and which are reconciliations; the payments in the order they were
      sent. */
  lemma ActionsMean(d: Trace)
    ensures forall a :: a in CreatesOf(d) <==>
              a in d.actions && a.model == "account.payment.register" && a.verb == "action_create_payments"
    ensures forall a :: a in ReconcilesOf(d) <==>
              a in d.actions && a.model == "account.move.line" && a.verb == "reconcile"
    ensures forall i, j | 0 <= i < j < |CreatesOf(d)| :: CreatesOf(d)[i].sent <= CreatesOf(d)[j].sent
  {
    forall a
      ensures a in CreatesOf(d) <==> a in Creates(d.actions)
      ensures a in Creates(d.actions) <==>
              a in d.actions && a.model == "account.payment.register" && a.verb == "action_create_payments"
      ensures a in ReconcilesOf(d) <==> a in d.actions && a.model == "account.move.line" && a.verb == "reconcile"
    {
      ActionsListed(d.actions, a);
      SortIsStable(Creates(d.actions), 0);
      assert a in multiset(CreatesOf(d)) <==> a in multiset(Creates(d.actions));
    }
    SortIsStable(Creates(d.actions), 0);
  }

  /** Every payment and every reconciliation was verified, approved and sent in order. */
  lemma EveryActionApproved(d: Trace, a: Action)
    requires Passing(d) && (a in CreatesOf(d) || a in ReconcilesOf(d))
    ensures a.status == "verified" && a.verdict == "satisfied" && a.created <= a.sent <= a.finished
    ensures exists p | p in d.approvals ::
              && p.ok && p.status == "approved" && p.actionId == p.decisionActionId == a.id && p.runId == a.runId
  {
    assert Approved(d, a);
    var i :| 0 <= i < |d.approvals| &&
             var p := d.approvals[i];
             p.ok && p.status == "approved" && p.decisionActionId == p.actionId
             && p.actionId == a.id && p.runId == a.runId;
    assert d.approvals[i] in d.approvals;
  }

  /** The run is of the frozen fixtures, each action made one payment, the payments come in the expected
      order and amounts, and there is exactly one of everything. */
  lemma LogIsComplete(d: Trace)
    requires Passing(d)
    ensures d.recordedFixtures == d.fixtures
    ensures var n := |CreatesOf(d)|;
            && n == |ReconcilesOf(d)| == |d.bankIds| == |d.finalPayments| == |d.bank|
            && n == if d.scenario == CustomerRefund || d.scenario == VendorRefund then 1 else |d.paymentAmounts|
    ensures forall i | 0 <= i < |CreatesOf(d)| ::
              && CreatesOf(d)[i].evidence.payments == [ViewAt(d, i).value.payment]
              && CreatesOf(d)[i].evidence.wizard == ViewAt(d, i).value.wizard
              && Cents(ViewAt(d, i).value.payment.amount, Expected(d, i))
    ensures forall i, j | 0 <= i < j < |CreatesOf(d)| ::
              && ViewAt(d, i).value.payment.id != ViewAt(d, j).value.payment.id
              && d.bankIds[i] != d.bankIds[j]
  {
    DistinctIds(d);
    forall i | 0 <= i < |CreatesOf(d)|
      ensures CreatesOf(d)[i].evidence.payments == [ViewAt(d, i).value.payment]
      ensures Cents(ViewAt(d, i).value.payment.amount, Expected(d, i))
    {
      assert PaymentOrder(d);
    }
    forall i, j | 0 <= i < j < |CreatesOf(d)|
      ensures ViewAt(d, i).value.payment.id != ViewAt(d, j).value.payment.id
    {
      assert Ids(d)[i] != Ids(d)[j];
    }
  }

  // ---------- every row of the final records ----------

  /** Where a bank line of the final records belongs: the payment that is settled on it. */
  lemma BankLineOf(d: Trace, k: nat) returns (i: nat)
    requires Passing(d) && k < |d.bank|
    ensures i < |CreatesOf(d)| && ViewAt(d, i).value.bank == d.bank[k]
  {
    FinalsCovered(d);
    i :| 0 <= i < |d.bankIds| && d.bankIds[i] == d.bank[k].id;
    SettledOnItsLine(d, i);
    var b := ViewAt(d, i).value.bank;
    var m :| 0 <= m < |d.bank| && d.bank[m] == b;
    DistinctFinals(d);
    assert BankRowIds(d)[m] == BankRowIds(d)[k];
  }

  /** Where a final payment belongs. */
  lemma FinalPaymentOf(d: Trace, k: nat) returns (i: nat)
    requires Passing(d) && k < |d.finalPayments|
    ensures i < |CreatesOf(d)| && ViewAt(d, i).value.final == d.finalPayments[k]
  {
    FinalsCovered(d);
    assert FinalUsed(d, k);
    i :| 0 <= i < |CreatesOf(d)| && PaymentAt(d, i).id == d.finalPayments[k].id;
    SettledOnItsLine(d, i);
    var p := ViewAt(d, i).value.final;
    var m :| 0 <= m < |d.finalPayments| && d.finalPayments[m] == p;
    DistinctFinals(d);
    assert FinalIdList(d)[m] == FinalIdList(d)[k];
  }

  /** No row of a passing trace is of another company: neither a bank line nor a final payment. */
  lemma NothingForeign(d: Trace)
    requires Passing(d)
    ensures forall k | 0 <= k < |d.bank| :: Rid(d.bank[k].company) == Some(d.company) && d.bank[k].reconciled
    ensures forall k | 0 <= k < |d.finalPayments| ::
              var p := d.finalPayments[k];
              Rid(p.parties.company) == Some(d.company) && p.matched && p.reconciled && p.state == "paid"
  {
    forall k | 0 <= k < |d.bank|
      ensures Rid(d.bank[k].company) == Some(d.company) && d.bank[k].reconciled
    {
      var i := BankLineOf(d, k);
      OneIdentity(d, i);
      SettledOnItsLine(d, i);
    }
    forall k | 0 <= k < |d.finalPayments|
      ensures var p := d.finalPayments[k];
              Rid(p.parties.company) == Some(d.company) && p.matched && p.reconciled && p.state == "paid"
    {
      var i := FinalPaymentOf(d, k);
      OneIdentity(d, i);
      SettledOnItsLine(d, i);
    }
  }

  // ---------- what the report says ----------

  /** The pairs of a passing report: for each payment in turn its bank line, its action, its reconcile
      action, and the two lines of that action. */
  lemma PairsNamed(d: Trace, i: nat, report: Report) returns (pl: MoveLine, bl: MoveLine)
    requires Passing(d) && Reported(d, report) && i < |CreatesOf(d)|
    ensures |report.pairs| == |CreatesOf(d)|
    ensures var v, p, a := ViewAt(d, i).value, report.pairs[i], ReconcilesOf(d)[MatchOf(d, i)];
            && p.paymentId == v.payment.id && p.bankId == d.bankIds[i]
            && p.paymentAction == CreatesOf(d)[i].id && p.reconcileAction == a.id
            && a.evidence.ReconcileEvidence? && pl in a.evidence.lines && bl in a.evidence.lines
            && p.lineIds == (pl.id, bl.id) && pl.id != bl.id
            && Rid(pl.payment) == Some(v.payment.id) && Rid(bl.move) == Rid(v.bank.move)
  {
    var v, p, a := ViewAt(d, i).value, report.pairs[i], ReconcilesOf(d)[MatchOf(d, i)];
    assert PairAt(d, i, p);
    pl :| pl in a.evidence.lines && pl.id == p.lineIds.0 && Rid(pl.payment) == Some(v.payment.id);
    bl :| bl in a.evidence.lines && bl.id == p.lineIds.1 && Rid(bl.move) == Rid(v.bank.move);
  }

  /** A record that is not as it should be shows under the name of its check. */
  lemma ChecksAreNamed(d: Trace, i: nat, report: Report)
    requires Readable(d) && i < |CreatesOf(d)| && Reported(d, report)
    ensures var v, table := ViewAt(d, i).value, report.checks;
            && (v.invoice.state != "posted" ==> Noted(table, RecordCheck(i, Source), false))
            && (Rid(v.bank.company) != Some(d.company) ==> Noted(table, RecordCheck(i, Identity), false))
            && (v.wizard.handling != "open" ==> Noted(table, RecordCheck(i, Amount), false))
            && (!Cents(v.invoice.residual, Remaining(d, i)) ==>
                  Noted(table, RecordCheck(i, ResidualTransition), false))
            && (v.final.statementLines != [d.bankIds[i]] ==> Noted(table, RecordCheck(i, OneToOneBank), false))
  {
    assert PaymentNoted(d, i, report.checks);
    var v, r := ViewAt(d, i).value, Remaining(d, i);
    assert forall k :: Noted(report.checks, RecordCheck(i, k), RecordValue(d, v, r, k));
  }

  // ---------- a changed record is noticed ----------

  /** The trace with one bank line moved to another company. */
  function MovedLine(d: Trace, k: nat, company: Ref): Trace
    requires k < |d.bank|
  {
    d.(bank := d.bank[k := d.bank[k].(company := company)])
  }

  lemma {:induction false} MovedLookup(bank: seq<BankLine>, k: nat, company: Ref, id: int)
    requires k < |bank|
    ensures var moved := bank[k := bank[k].(company := company)];
            match BankById(bank, id)
            case None => BankById(moved, id) == None
            case Some(b) => BankById(moved, id).Some? && (BankById(moved, id).value == b || b == bank[k])
  {
    var n := |bank| - 1;
    var moved := bank[k := bank[k].(company := company)];
    if k < n {
      MovedLookup(bank[..n], k, company, id);
      assert moved[..n] == bank[..n][k := bank[..n][k].(company := company)];
    } else {
      assert moved[..n] == bank[..n];
    }
  }

  /** The audit still reads every payment of the moved trace, and finds the moved line at its payment. */
  lemma MovedReadable(d: Trace, k: nat, company: Ref) returns (i: nat)
    requires Passing(d) && k < |d.bank|
    ensures Readable(MovedLine(d, k, company)) && i < |CreatesOf(MovedLine(d, k, company))|
    ensures ViewAt(MovedLine(d, k, company), i).value.bank == d.bank[k].(company := company)
    ensures i < |CreatesOf(d)| && ViewAt(d, i).value.bank == d.bank[k]
  {
    i := BankLineOf(d, k);
    var d' := MovedLine(d, k, company);
    assert CreatesOf(d') == CreatesOf(d) && Entered(d');
    forall j | 0 <= j < |CreatesOf(d')|
      ensures ViewAt(d', j).Some?
    {
      assert ViewAt(d, j).Some?;
      MovedLookup(d.bank, k, company, d.bankIds[j]);
    }
    SettledOnItsLine(d, i);
    BankByIdFound(d'.bank, d.bankIds[i]);
    var b := ViewAt(d', i).value.bank;
    var m :| 0 <= m < |d'.bank| && d'.bank[m] == b;
    DistinctFinals(d);
    assert BankRowIds(d)[m] == b.id == d.bank[k].id == BankRowIds(d)[k];
  }

  /** Moving any bank line of a passing trace to another company makes every report on it fail, on the
      identity of the payment settled on that line. */
  lemma MovedLineNoticed(d: Trace, k: nat, company: Ref, report: Report) returns (i: nat)
    requires Passing(d) && k < |d.bank| && Rid(company) != Some(d.company)
    requires Reported(MovedLine(d, k, company), report)
    ensures !report.passed
    ensures i < |CreatesOf(d)| && ViewAt(d, i).value.bank == d.bank[k]
    ensures Noted(report.checks, RecordCheck(i, Identity), false)
  {
    i := MovedReadable(d, k, company);
    ChecksAreNamed(MovedLine(d, k, company), i, report);
    if Passing(MovedLine(d, k, company)) {
      OneIdentity(MovedLine(d, k, company), i);
    }
  }
}
