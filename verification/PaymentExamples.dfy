/** Traces that pass the audit, in every scenario and for every list of payments it can have: the audit
    is satisfiable in all of them, and its controls can be blind. */
module PaymentExamples {
  import opened Wrappers
  import opened Payments
  import opened PaymentTheorems
  import opened PaymentControls
  import opened PaymentFacts
  import Counting

  const PARTIES := Parties(Plain(1), Plain(1), Plain(1))

  predicate Refunds(s: Scenario) {
    s == CustomerRefund || s == VendorRefund
  }

  /** The amount as the bank sees it. */
  function Flow(s: Scenario, amount: real): real {
    match s
    case CustomerCollection => amount
    case VendorRefund => amount
    case _ => -amount
  }

  /** The frozen invoice; what is paid is document 1, which for a refund is the credit note of invoice 9. */
  function InvoiceId(s: Scenario): int {
    if Refunds(s) then 9 else 1
  }

  /** Payment `i` of an example, sent at time `10 * i`. */
  function Created(s: Scenario, i: nat, amount: real, residual: real): Action {
    var (direction, partner, document) := Terms(s);
    var wizard := Wizard(PARTIES, Plain(1), direction, partner, amount, "open");
    var invoice := Invoice(1, PARTIES, "posted", document, if Refunds(s) then Plain(9) else Unset, residual);
    var payment := Payment(i, PARTIES, Plain(1), direction, partner, amount, [1], Plain(i));
    Action("", "", "account.payment.register", "action_create_payments", "verified", "satisfied",
           10 * i, 10 * i, 10 * i + 1, PaymentEvidence(wizard, [invoice], [payment], amount))
  }

  /** A line of a reconcile action: the payment's or the bank's. */
  function Line(payment: Ref, move: int, balance: real, debits: seq<int>, credits: seq<int>): MoveLine {
    MoveLine(move, payment, Plain(move), PARTIES, Plain(1), "posted", true, 0.0, 0.0, balance,
             Plain(1), debits, credits)
  }

  /** The reconcile action of payment `i` with bank line `b`, where `flow` came in. */
  function Reconciled(i: nat, b: int, flow: real): Action {
    Action("", "", "account.move.line", "reconcile", "verified", "satisfied", 10 * i + 2, 10 * i + 2,
           10 * i + 2,
           ReconcileEvidence([Line(Plain(i), i, flow, [], [5]), Line(Unset, -1 - i, -flow, [5], [])],
                             true, [(b, true)]))
  }

  function Settled(i: nat, b: int, amount: real): FinalPayment {
    FinalPayment(i, PARTIES, amount, Plain(i), [b], true, true, "paid")
  }

  function Booked(i: nat, b: int, flow: real): BankLine {
    BankLine(b, Plain(1), Plain(1), flow, Plain(-1 - i), true)
  }

  predicate IsPair(c: Action, r: Action) {
    && IsCreate(c) && !IsReconcile(c) && SentByMethod(c)
    && IsReconcile(r) && !IsCreate(r) && !SentByMethod(r)
  }

  lemma Kinds(s: Scenario, i: nat, amount: real, residual: real, b: int, flow: real)
    ensures IsPair(Created(s, i, amount, residual), Reconciled(i, b, flow))
  {
    assert |"account.payment.register"| != |"account.move.line"|;
    assert |"action_create_payments"| != |"reconcile"|;
  }

  // ---------- one payment ----------

  function ExampleView(s: Scenario, i: nat, b: int, amount: real, residual: real): View {
    var a := Created(s, i, amount, residual);
    View(a, a.evidence.payments[0], amount, b, a.evidence.wizard, a.evidence.invoices[0], 1, Settled(i, b, amount),
         Booked(i, b, Flow(s, amount)), amount)
  }

  /** The trace is of payments of this company in this scenario. */
  predicate Example(d: Trace, s: Scenario) {
    && s != Unsupported && d.scenario == s && d.company == 1 && d.journal == 1 && d.invoiceId == InvoiceId(s)
    && (Refunds(s) ==> d.credits == [Credit(1, Plain(9))])
  }

  lemma ExampleRecords(d: Trace, s: Scenario, i: nat, b: int, amount: real, residual: real)
    requires Example(d, s)
    ensures RecordsPass(d, ExampleView(s, i, b, amount, residual), residual)
  {
    var v := ExampleView(s, i, b, amount, residual);
    TermsAre(d);
    ExampleSign(d, s, amount);
    assert SourceOk(d, v) && PartiesOk(d, v) && AmountOk(d, v);
  }

  lemma ExampleSign(d: Trace, s: Scenario, amount: real)
    requires Example(d, s)
    ensures Signed(d, amount) == Flow(s, amount)
  {
  }

  lemma ExampleLines(v: View, i: nat, b: int, flow: real)
    requires v.payment.id == i && v.bank.move == Plain(-1 - i)
    ensures ExactPair(v, Reconciled(i, b, flow).evidence.lines)
    ensures var lines := Reconciled(i, b, flow).evidence.lines;
            && PaymentLines(lines, i) == [lines[0]]
            && BankMoveLines(lines, Some(-1 - i)) == [lines[1]]
  {
    var lines := Reconciled(i, b, flow).evidence.lines;
    var x, y := lines[0], lines[1];
    assert lines[1..] == [y] && [y][1..] == [];
    assert PaymentLines([], i) == [] && BankMoveLines([], Some(-1 - i)) == [];
    assert PaymentLines([y], i) == [] && BankMoveLines([y], Some(-1 - i)) == [y];
    assert PaymentLines(lines, i) == [x] + [] && BankMoveLines(lines, Some(-1 - i)) == [] + [y];
  }

  lemma ExampleMatch(d: Trace, s: Scenario, i: nat, b: int, amount: real, residual: real)
    requires Example(d, s)
    ensures MatchPasses(d, ExampleView(s, i, b, amount, residual), Reconciled(i, b, Flow(s, amount)))
  {
    var v, a := ExampleView(s, i, b, amount, residual), Reconciled(i, b, Flow(s, amount));
    ExampleLines(v, i, b, Flow(s, amount));
    assert BankReadback(v, a) && LineIdentity(v, a.evidence.lines);
    ExampleSign(d, s, amount);
    assert PostedOpposite(d, v, a.evidence.lines);
    var shared := Counting.Elements<int>([]) * Counting.Elements([]) + Counting.Elements([5]) * Counting.Elements([5]);
    assert shared == {5};
    assert PartialLink(v, a.evidence.lines);
  }

  // ---------- a trace for every list of payments ----------

  /** The bank line and the amount of a payment. */
  datatype Row = Row(bank: int, amount: real)

  function AmountsOf(rows: seq<Row>): seq<real> {
    seq(|rows|, i requires 0 <= i < |rows| => rows[i].amount)
  }

  function BanksOf(rows: seq<Row>): seq<int> {
    seq(|rows|, i requires 0 <= i < |rows| => rows[i].bank)
  }

  /** What is left to pay before payment `i`. */
  function Due(rows: seq<Row>, i: nat): real
    requires i <= |rows|
  {
    Sum(AmountsOf(rows)[i..])
  }

  function CreateAt(s: Scenario, rows: seq<Row>, i: nat): Action
    requires i < |rows|
  {
    Created(s, i, rows[i].amount, Due(rows, i))
  }

  function ReconcileAt(s: Scenario, rows: seq<Row>, i: nat): Action
    requires i < |rows|
  {
    Reconciled(i, rows[i].bank, Flow(s, rows[i].amount))
  }

  function CreatesList(s: Scenario, rows: seq<Row>): seq<Action> {
    seq(|rows|, i requires 0 <= i < |rows| => CreateAt(s, rows, i))
  }

  function ReconcilesList(s: Scenario, rows: seq<Row>): seq<Action> {
    seq(|rows|, i requires 0 <= i < |rows| => ReconcileAt(s, rows, i))
  }

  /** Each action of the first list followed by its partner in the second. */
  function Alternate(cs: seq<Action>, rs: seq<Action>): seq<Action>
    requires |cs| == |rs|
  {
    if cs == [] then []
    else
      var n := |cs| - 1;
      Alternate(cs[..n], rs[..n]) + [cs[n], rs[n]]
  }

  function Finals(rows: seq<Row>): seq<FinalPayment> {
    seq(|rows|, i requires 0 <= i < |rows| => Settled(i, rows[i].bank, rows[i].amount))
  }

  function Statement(s: Scenario, rows: seq<Row>): seq<BankLine> {
    seq(|rows|, i requires 0 <= i < |rows| => Booked(i, rows[i].bank, Flow(s, rows[i].amount)))
  }

  /** A list of payments the scenario can have: on different bank lines, and a single one for a refund. */
  predicate Possible(s: Scenario, rows: seq<Row>) {
    s != Unsupported && rows != [] && Counting.NoRepeats(BanksOf(rows)) && (Refunds(s) ==> |rows| == 1)
  }

  /** The payments of the list made one after the other, each settled on its bank line. */
  function Paid(s: Scenario, rows: seq<Row>): Trace {
    Trace(s, 1, 1, InvoiceId(s), BanksOf(rows), AmountsOf(rows), if rows == [] then 0.0 else rows[0].amount, "", "",
          Alternate(CreatesList(s, rows), ReconcilesList(s, rows)), [Approval("", "", "", true, "approved")],
          if Refunds(s) then [Credit(1, Plain(9))] else [], Finals(rows), Statement(s, rows))
  }

  function ViewOf(s: Scenario, rows: seq<Row>, i: nat): View
    requires i < |rows|
  {
    ExampleView(s, i, rows[i].bank, rows[i].amount, Due(rows, i))
  }

  lemma AppendPair(front: seq<Action>, c: Action, r: Action)
    requires IsPair(c, r)
    ensures Creates(front + [c, r]) == Creates(front) + [c]
    ensures Reconciles(front + [c, r]) == Reconciles(front) + [r]
    ensures |SentPositions(front + [c, r])| == |SentPositions(front)| + 1
  {
    var one := front + [c];
    assert one[..|front|] == front && front + [c, r] == one + [r] && (one + [r])[..|one|] == one;
  }

  predicate Pairs(cs: seq<Action>, rs: seq<Action>) {
    |cs| == |rs| && forall i | 0 <= i < |cs| :: IsPair(cs[i], rs[i])
  }

  lemma {:induction false} AlternateByKind(cs: seq<Action>, rs: seq<Action>)
    requires Pairs(cs, rs)
    ensures Creates(Alternate(cs, rs)) == cs && Reconciles(Alternate(cs, rs)) == rs
    ensures |SentPositions(Alternate(cs, rs))| == |cs|
  {
    if cs != [] {
      var n := |cs| - 1;
      var front, c, r := Alternate(cs[..n], rs[..n]), cs[n], rs[n];
      assert Pairs(cs[..n], rs[..n]) && IsPair(c, r);
      AlternateByKind(cs[..n], rs[..n]);
      AppendPair(front, c, r);
      assert Alternate(cs, rs) == front + [c, r];
      assert cs[..n] + [c] == cs && rs[..n] + [r] == rs;
    }
  }

  lemma {:induction false} AlreadySorted(actions: seq<Action>)
    requires InOrder(actions)
    ensures SortBySent(actions) == actions
  {
    if actions != [] {
      var n := |actions| - 1;
      AlreadySorted(actions[..n]);
      assert n > 0 ==> actions[..n][n - 1].sent <= actions[n].sent;
      assert InsertBySent(actions[..n], actions[n]) == actions[..n] + [actions[n]] == actions;
    }
  }

  /** The logged actions by kind. */
  lemma PaidActions(s: Scenario, rows: seq<Row>)
    ensures CreatesOf(Paid(s, rows)) == CreatesList(s, rows) && ReconcilesOf(Paid(s, rows)) == ReconcilesList(s, rows)
    ensures |SentPositions(Paid(s, rows).actions)| == |rows|
  {
    forall i | 0 <= i < |rows|
      ensures IsPair(CreateAt(s, rows, i), ReconcileAt(s, rows, i))
    {
      Kinds(s, i, rows[i].amount, Due(rows, i), rows[i].bank, Flow(s, rows[i].amount));
    }
    AlternateByKind(CreatesList(s, rows), ReconcilesList(s, rows));
    AlreadySorted(CreatesList(s, rows));
  }

  lemma PaidEntered(s: Scenario, rows: seq<Row>)
    requires Possible(s, rows)
    ensures Entered(Paid(s, rows)) && |CreatesOf(Paid(s, rows))| == |rows|
    ensures forall i | 0 <= i < |rows| :: PaymentAt(Paid(s, rows), i) == ViewOf(s, rows, i).payment
    ensures Amounts(Paid(s, rows)) == AmountsOf(rows)
  {
    PaidActions(s, rows);
  }

  /** Each final payment and each bank line is found under its id. */
  lemma PaidLookup(s: Scenario, rows: seq<Row>, i: nat)
    requires Possible(s, rows) && i < |rows|
    ensures FinalById(Finals(rows), i) == Some(Settled(i, rows[i].bank, rows[i].amount))
    ensures BankById(Statement(s, rows), rows[i].bank) ==
            Some(Booked(i, rows[i].bank, Flow(s, rows[i].amount)))
  {
    FinalByIdFound(Finals(rows), i);
    assert Finals(rows)[i] in Finals(rows);
    BankByIdFound(Statement(s, rows), rows[i].bank);
    assert Statement(s, rows)[i] in Statement(s, rows);
    assert forall j | 0 <= j < |rows| :: Statement(s, rows)[j].id == BanksOf(rows)[j];
  }

  lemma PaidView(s: Scenario, rows: seq<Row>, i: nat)
    requires Possible(s, rows) && i < |rows|
    ensures Entered(Paid(s, rows)) && |CreatesOf(Paid(s, rows))| == |rows|
    ensures ViewAt(Paid(s, rows), i) == Some(ViewOf(s, rows, i))
  {
    PaidActions(s, rows);
    PaidEntered(s, rows);
    PaidLookup(s, rows, i);
  }

  lemma TouchesOwn(i: nat, b: int, flow: real, k: nat)
    ensures Touches(Reconciled(i, b, flow), k) <==> k == i
  {
    var lines := Reconciled(i, b, flow).evidence.lines;
    assert lines[0] in lines;
  }

  lemma {:induction false} OwnMatch(reconciles: seq<Action>, k: nat)
    requires forall i | 0 <= i < |reconciles| :: reconciles[i].evidence.ReconcileEvidence?
    requires forall i | 0 <= i < |reconciles| :: Touches(reconciles[i], k) <==> i == k
    ensures MatchesFor(reconciles, k) == if k < |reconciles| then [k] else []
  {
    if reconciles != [] {
      OwnMatch(reconciles[..|reconciles| - 1], k);
    }
  }

  lemma PaidMatch(s: Scenario, rows: seq<Row>, i: nat)
    requires i < |rows|
    ensures MatchesFor(ReconcilesList(s, rows), i) == [i]
  {
    forall j | 0 <= j < |rows|
      ensures Touches(ReconcileAt(s, rows, j), i) <==> j == i
    {
      TouchesOwn(j, rows[j].bank, Flow(s, rows[j].amount), i);
    }
    OwnMatch(ReconcilesList(s, rows), i);
  }

  lemma PaidReadable(s: Scenario, rows: seq<Row>, i: nat)
    requires Possible(s, rows) && i <= |rows|
    ensures ReadableUpTo(Paid(s, rows), i)
  {
    PaidActions(s, rows);
    PaidEntered(s, rows);
    forall k | 0 <= k < i
      ensures ViewAt(Paid(s, rows), k).Some?
    {
      PaidView(s, rows, k);
    }
  }

  lemma {:induction false} PaidRemaining(s: Scenario, rows: seq<Row>, i: nat)
    requires Possible(s, rows) && i <= |rows|
    ensures ReadableUpTo(Paid(s, rows), i) && Remaining(Paid(s, rows), i) == Due(rows, i)
  {
    PaidReadable(s, rows, i);
    PaidEntered(s, rows);
    if i == 0 {
      assert AmountsOf(rows)[0..] == AmountsOf(rows);
    } else {
      PaidRemaining(s, rows, i - 1);
      PaidView(s, rows, i - 1);
      SumStep(AmountsOf(rows), i - 1);
    }
  }

  lemma PaidMatched(d: Trace, s: Scenario, rows: seq<Row>, i: nat)
    requires Example(d, s) && i < |rows|
    ensures MatchedOnce(d, ViewOf(s, rows, i), ReconcilesList(s, rows))
  {
    PaidMatch(s, rows, i);
    ExampleMatch(d, s, i, rows[i].bank, rows[i].amount, Due(rows, i));
  }

  lemma PaidRecord(s: Scenario, rows: seq<Row>, i: nat)
    requires Possible(s, rows) && i < |rows|
    ensures ReadableUpTo(Paid(s, rows), i + 1) && PaymentPasses(Paid(s, rows), i)
  {
    PaidRemaining(s, rows, i + 1);
    PaidRemaining(s, rows, i);
    PaidView(s, rows, i);
    PaidActions(s, rows);
    PaidMatched(Paid(s, rows), s, rows, i);
    ExampleRecords(Paid(s, rows), s, i, rows[i].bank, rows[i].amount, Due(rows, i));
  }

  lemma PaidIds(s: Scenario, rows: seq<Row>)
    requires Possible(s, rows)
    ensures Entered(Paid(s, rows)) && PaymentIds(Paid(s, rows)) == FinalIds(Paid(s, rows))
    ensures |PaymentIds(Paid(s, rows))| == |rows|
  {
    var d, ids := Paid(s, rows), seq(|rows|, i => i);
    PaidEntered(s, rows);
    Counting.ElementsSize(ids);
    forall i | 0 <= i < |rows|
      ensures i in ids && PaymentAt(d, i).id == i && i in FinalIds(d)
    {
      assert ids[i] == i && Finals(rows)[i] in d.finalPayments;
    }
    assert PaymentIds(d) == Counting.Elements(ids);
  }

  lemma PaidBankIds(s: Scenario, rows: seq<Row>)
    ensures FinalBankIds(Paid(s, rows)) == BankIds(Paid(s, rows))
  {
    forall i | 0 <= i < |rows|
      ensures BanksOf(rows)[i] in FinalBankIds(Paid(s, rows)) && Statement(s, rows)[i].id in BanksOf(rows)
    {
      assert Statement(s, rows)[i] in Statement(s, rows) && Statement(s, rows)[i].id == BanksOf(rows)[i];
    }
  }

  lemma PaidSets(s: Scenario, rows: seq<Row>)
    requires Possible(s, rows)
    ensures Entered(Paid(s, rows)) && UniqueIds(Paid(s, rows)) && SetsPass(Paid(s, rows))
  {
    PaidEntered(s, rows);
    PaidIds(s, rows);
    PaidBankIds(s, rows);
    Counting.ElementsSize(BanksOf(rows));
  }

  lemma PaidVerified(s: Scenario, rows: seq<Row>)
    requires Possible(s, rows)
    ensures AllVerified(Paid(s, rows)) && VerifiedBeforeNext(Paid(s, rows))
  {
    var d := Paid(s, rows);
    PaidActions(s, rows);
    assert d.approvals[0] == Approval("", "", "", true, "approved");
    forall i | 0 <= i < |rows|
      ensures ActionVerified(d, CreateAt(s, rows, i)) && ActionVerified(d, ReconcileAt(s, rows, i))
    {
    }
  }

  lemma PaidLog(s: Scenario, rows: seq<Row>)
    requires Possible(s, rows)
    ensures Entered(Paid(s, rows)) && LogPasses(Paid(s, rows))
  {
    PaidVerified(s, rows);
    PaidSets(s, rows);
    PaidEntered(s, rows);
    PaidSingle(s, rows);
  }

  lemma PaidSingle(s: Scenario, rows: seq<Row>)
    requires Possible(s, rows)
    ensures PaymentsReadable(Paid(s, rows)) && SinglePayments(Paid(s, rows)) && PaymentOrder(Paid(s, rows))
  {
    PaidActions(s, rows);
    PaidEntered(s, rows);
  }

  /** For every list of payments on different bank lines there is a trace that passes; with two payments
      they are interchangeable exactly if their amounts are within the tolerance of each other. */
  lemma EveryListPasses(s: Scenario, rows: seq<Row>)
    requires Possible(s, rows)
    ensures var d := Paid(s, rows);
            && Passing(d) && d.bankIds == BanksOf(rows)
            && |CreatesOf(d)| == |SentPositions(d.actions)| == |rows|
            && (|rows| == 2 ==> (Interchangeable(d) <==> Near(rows[0].amount, rows[1].amount)))
  {
    var d := Paid(s, rows);
    PaidActions(s, rows);
    PaidEntered(s, rows);
    PaidLog(s, rows);
    PaidSets(s, rows);
    PaidRemaining(s, rows, |rows|);
    forall i | 0 <= i < |rows|
      ensures PaymentPasses(d, i)
    {
      PaidRecord(s, rows, i);
    }
  }

  // ---------- the controls on such traces ----------

  /** A passing trace for which the second control reports that the wrong bank line went unnoticed:
      its only bank line is the stand-in -1, so that redirecting to it changes nothing. */
  lemma BlindBankControl(s: Scenario, amount: real)
    requires s != Unsupported
    ensures var d := Paid(s, [Row(-1, amount)]);
            Passing(d) && d.finalPayments != [] && RedirectFirst(d) == d
  {
    var d := Paid(s, [Row(-1, amount)]);
    EveryListPasses(s, [Row(-1, amount)]);
    assert d.bankIds == [-1];
    var k := RedirectNoticed(d);
  }

  /** The swap control on such traces: it reports that the swap went unnoticed exactly if the amounts
      are within the tolerance of each other, for instance if they are equal. */
  method SwapControlAnswers(s: Scenario, first: Row, second: Row) returns (r: Option<Controls>)
    requires s == CustomerCollection || s == VendorPayment
    requires first.bank != second.bank
    ensures Passing(Paid(s, [first, second]))
    ensures r.Some? && r.value.reversedOrderRejected == Some(!Near(first.amount, second.amount))
  {
    EveryListPasses(s, [first, second]);
    r := NegativeControls(Paid(s, [first, second]));
  }
}
