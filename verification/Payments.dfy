/** The supplementary audit of logged payment runs: its data, its checks, and when it passes. */
module Payments {
  import opened Wrappers
  import Counting

  // ---------- logged data ----------

  /** A many-to-one field: unset, an id, or an id with its display name. */
  datatype Ref = Unset | Plain(id: int) | Labelled(id: int, name: string)

  function Rid(r: Ref): Option<int> {
    match r
    case Unset => None
    case Plain(id) => Some(id)
    case Labelled(id, _) => Some(id)
  }

  /** Python truth of such a field. */
  predicate Truthy(r: Ref) {
    r.Labelled? || (r.Plain? && r.id != 0)
  }

  /** Amounts agree to the cent, roughly: the relation is not transitive. */
  predicate Near(a: real, b: real) {
    -0.005 < a - b < 0.005
  }

  datatype Parties = Parties(company: Ref, partner: Ref, currency: Ref)

  predicate SameParties(a: Parties, b: Parties) {
    && Rid(a.company) == Rid(b.company)
    && Rid(a.partner) == Rid(b.partner)
    && Rid(a.currency) == Rid(b.currency)
  }

  datatype Wizard = Wizard(parties: Parties, journal: Ref, paymentType: string, partnerType: string,
                           amount: real, handling: string)

  datatype Invoice = Invoice(id: int, parties: Parties, state: string, moveType: string,
                             reversedEntry: Ref, residual: real)

  datatype Payment = Payment(id: int, parties: Parties, journal: Ref, paymentType: string,
                             partnerType: string, amount: real, invoices: seq<int>, move: Ref)

  datatype FinalPayment = FinalPayment(id: int, parties: Parties, amount: real, move: Ref,
                                       statementLines: seq<int>, matched: bool, reconciled: bool,
                                       state: string)

  datatype BankLine = BankLine(id: int, company: Ref, partner: Ref, amount: real, move: Ref,
                               reconciled: bool)

  datatype MoveLine = MoveLine(id: int, payment: Ref, move: Ref, parties: Parties, account: Ref,
                               parentState: string, reconciled: bool, residual: real,
                               residualCurrency: real, balance: real, fullReconcile: Ref,
                               debits: seq<int>, credits: seq<int>)

  datatype Credit = Credit(id: int, reversedEntry: Ref)

  /** What an action's verification logged, with the wizard and invoices read before it. */
  datatype Evidence =
    | PaymentEvidence(wizard: Wizard, invoices: seq<Invoice>, payments: seq<Payment>, reduction: real)
    | ReconcileEvidence(lines: seq<MoveLine>, bankVerified: bool, statementLines: seq<(int, bool)>)
    | OtherEvidence

  datatype Action = Action(id: string, runId: string, model: string, verb: string, status: string,
                           verdict: string, created: int, sent: int, finished: int,
                           evidence: Evidence)

  datatype Approval = Approval(actionId: string, decisionActionId: string, runId: string, ok: bool,
                               status: string)

  datatype Scenario = CustomerCollection | VendorPayment | CustomerRefund | VendorRefund | Unsupported

  datatype Trace = Trace(scenario: Scenario, company: int, journal: int, invoiceId: int,
                         bankIds: seq<int>, paymentAmounts: seq<real>, refundAmount: real,
                         recordedFixtures: string, fixtures: string,
                         actions: seq<Action>, approvals: seq<Approval>,
                         credits: seq<Credit>, finalPayments: seq<FinalPayment>, bank: seq<BankLine>)

  // ---------- what the scenario fixes ----------

  predicate IsRefund(d: Trace) {
    d.scenario == CustomerRefund || d.scenario == VendorRefund
  }

  function Amounts(d: Trace): seq<real> {
    if IsRefund(d) then [d.refundAmount] else d.paymentAmounts
  }

  predicate IsInbound(d: Trace) {
    d.scenario == CustomerCollection || d.scenario == VendorRefund
  }

  function Direction(d: Trace): string {
    if IsInbound(d) then "inbound" else "outbound"
  }

  function PartnerType(d: Trace): string {
    if d.scenario == CustomerCollection || d.scenario == CustomerRefund then "customer" else "supplier"
  }

  function MoveType(d: Trace): string {
    (if PartnerType(d) == "customer" then "out_" else "in_") + (if IsRefund(d) then "refund" else "invoice")
  }

  function Signed(d: Trace, amount: real): real {
    if IsInbound(d) then amount else -amount
  }

  function SourceId(d: Trace): int
    requires IsRefund(d) ==> d.credits != []
  {
    if IsRefund(d) then d.credits[0].id else d.invoiceId
  }

  // ---------- the actions ----------

  predicate IsCreate(a: Action) {
    a.model == "account.payment.register" && a.verb == "action_create_payments"
  }

  predicate IsReconcile(a: Action) {
    a.model == "account.move.line" && a.verb == "reconcile"
  }

  function Creates(actions: seq<Action>): seq<Action> {
    if actions == [] then []
    else
      var last := actions[|actions| - 1];
      Creates(actions[..|actions| - 1]) + if IsCreate(last) then [last] else []
  }

  function Reconciles(actions: seq<Action>): seq<Action> {
    if actions == [] then []
    else
      var last := actions[|actions| - 1];
      Reconciles(actions[..|actions| - 1]) + if IsReconcile(last) then [last] else []
  }

  /** Insertion behind every action sent no later. */
  function InsertBySent(sorted: seq<Action>, a: Action): (r: seq<Action>)
    ensures |r| == |sorted| + 1
  {
    if sorted == [] || sorted[|sorted| - 1].sent <= a.sent then sorted + [a]
    else InsertBySent(sorted[..|sorted| - 1], a) + [sorted[|sorted| - 1]]
  }

  /** `sort(key=sent_at)`: stable. */
  function SortBySent(actions: seq<Action>): (r: seq<Action>)
    ensures |r| == |actions|
  {
    if actions == [] then []
    else InsertBySent(SortBySent(actions[..|actions| - 1]), actions[|actions| - 1])
  }

  /** The payment-creating actions in the order they were sent. */
  function CreatesOf(d: Trace): seq<Action> {
    SortBySent(Creates(d.actions))
  }

  function ReconcilesOf(d: Trace): seq<Action> {
    Reconciles(d.actions)
  }

  predicate Approved(d: Trace, a: Action) {
    exists i | 0 <= i < |d.approvals| ::
      var p := d.approvals[i];
      p.ok && p.status == "approved" && p.decisionActionId == p.actionId
      && p.actionId == a.id && p.runId == a.runId
  }

  predicate ActionVerified(d: Trace, a: Action) {
    && a.status == "verified" && a.verdict == "satisfied" && Approved(d, a)
    && a.created <= a.sent <= a.finished
  }

  predicate AllVerified(d: Trace) {
    var creates, reconciles := CreatesOf(d), ReconcilesOf(d);
    && |creates| + |reconciles| > 0
    && (forall i | 0 <= i < |creates| :: ActionVerified(d, creates[i]))
    && (forall i | 0 <= i < |reconciles| :: ActionVerified(d, reconciles[i]))
  }

  // ---------- the first payment of an action ----------

  /** Reading `records[0]` of every creating action does not raise. */
  predicate PaymentsReadable(d: Trace) {
    forall i | 0 <= i < |CreatesOf(d)| ::
      CreatesOf(d)[i].evidence.PaymentEvidence? && CreatesOf(d)[i].evidence.payments != []
  }

  function PaymentAt(d: Trace, i: nat): Payment
    requires PaymentsReadable(d) && i < |CreatesOf(d)|
  {
    CreatesOf(d)[i].evidence.payments[0]
  }

  predicate SinglePayments(d: Trace)
    requires PaymentsReadable(d)
  {
    forall i | 0 <= i < |CreatesOf(d)| :: |CreatesOf(d)[i].evidence.payments| == 1
  }

  predicate Cardinality(d: Trace) {
    |CreatesOf(d)| == |ReconcilesOf(d)| == |Amounts(d)| == |d.bankIds| == |d.finalPayments| == |d.bank|
  }

  predicate PaymentOrder(d: Trace)
    requires PaymentsReadable(d)
  {
    && |CreatesOf(d)| == |Amounts(d)|
    && forall i | 0 <= i < |Amounts(d)| :: Near(PaymentAt(d, i).amount, Amounts(d)[i])
  }

  predicate VerifiedBeforeNext(d: Trace) {
    var creates := CreatesOf(d);
    forall i, j | 0 <= i < |creates| && 0 <= j < |creates| && j == i + 1 :: creates[i].finished < creates[j].sent
  }

  function PaymentIds(d: Trace): set<int>
    requires PaymentsReadable(d)
  {
    set i | 0 <= i < |CreatesOf(d)| :: PaymentAt(d, i).id
  }

  function BankIds(d: Trace): set<int> {
    Counting.Elements(d.bankIds)
  }

  predicate UniqueIds(d: Trace)
    requires PaymentsReadable(d)
  {
    |PaymentIds(d)| == |CreatesOf(d)| && |BankIds(d)| == |d.bankIds|
  }

  function FinalIds(d: Trace): set<int> {
    set p | p in d.finalPayments :: p.id
  }

  function FinalBankIds(d: Trace): set<int> {
    set b | b in d.bank :: b.id
  }

  /** `{p["id"]: p for p in payments}[id]`: the last record with that id. */
  function FinalById(payments: seq<FinalPayment>, id: int): Option<FinalPayment> {
    if payments == [] then None
    else if payments[|payments| - 1].id == id then Some(payments[|payments| - 1])
    else FinalById(payments[..|payments| - 1], id)
  }

  function BankById(bank: seq<BankLine>, id: int): Option<BankLine> {
    if bank == [] then None
    else if bank[|bank| - 1].id == id then Some(bank[|bank| - 1])
    else BankById(bank[..|bank| - 1], id)
  }

  predicate CreditOrigin(d: Trace)
    requires d.credits != []
  {
    |d.credits| == 1 && Rid(d.credits[0].reversedEntry) == Some(d.invoiceId)
  }

  // ---------- one payment ----------

  /** What the audit looks at for the payment at position `index`. */
  datatype View = View(action: Action, payment: Payment, amount: real, bankId: int,
                       wizard: Wizard, invoice: Invoice, invoices: nat, final: FinalPayment,
                       bank: BankLine, reduction: real)

  /** None where looking it up raises. */
  function ViewAt(d: Trace, i: nat): Option<View>
    requires PaymentsReadable(d) && Cardinality(d) && i < |CreatesOf(d)|
  {
    var action, payment := CreatesOf(d)[i], PaymentAt(d, i);
    var e := action.evidence;
    if e.invoices == [] then None
    else
      match (FinalById(d.finalPayments, payment.id), BankById(d.bank, d.bankIds[i]))
      case (Some(fp), Some(bank)) =>
        Some(View(action, payment, Amounts(d)[i], d.bankIds[i], e.wizard, e.invoices[0],
                  |e.invoices|, fp, bank, e.reduction))
      case _ => None
  }

  predicate SourceOk(d: Trace, v: View)
    requires IsRefund(d) ==> d.credits != []
  {
    && v.invoices == 1 && v.invoice.id == SourceId(d) && v.payment.invoices == [SourceId(d)]
    && v.invoice.state == "posted" && v.invoice.moveType == MoveType(d)
    && (IsRefund(d) ==> Rid(v.invoice.reversedEntry) == Some(d.invoiceId))
  }

  predicate PartiesOk(d: Trace, v: View) {
    && Rid(v.invoice.parties.company) == Some(d.company)
    && SameParties(v.wizard.parties, v.invoice.parties)
    && SameParties(v.payment.parties, v.invoice.parties)
    && SameParties(v.final.parties, v.invoice.parties)
    && Rid(v.bank.company) == Rid(v.invoice.parties.company)
    && Rid(v.bank.partner) == Rid(v.invoice.parties.partner)
    && Rid(v.wizard.journal) == Some(d.journal) && Rid(v.payment.journal) == Some(d.journal)
    && v.wizard.paymentType == Direction(d) && v.payment.paymentType == Direction(d)
    && v.wizard.partnerType == PartnerType(d) && v.payment.partnerType == PartnerType(d)
  }

  predicate AmountOk(d: Trace, v: View) {
    && Near(v.wizard.amount, v.amount) && Near(v.payment.amount, v.amount)
    && Near(v.final.amount, v.amount) && Near(v.bank.amount, Signed(d, v.amount))
    && v.wizard.handling == "open"
  }

  predicate ResidualOk(v: View, remaining: real) {
    Near(v.invoice.residual, remaining) && Near(v.reduction, v.amount)
  }

  predicate BankPairOk(v: View) {
    && v.final.statementLines == [v.bankId] && v.final.matched && v.final.reconciled
    && v.bank.reconciled && v.final.state == "paid"
  }

  /** The checks of one payment that need no reconcile action. */
  predicate RecordsPass(d: Trace, v: View, remaining: real)
    requires IsRefund(d) ==> d.credits != []
  {
    SourceOk(d, v) && PartiesOk(d, v) && AmountOk(d, v) && ResidualOk(v, remaining) && BankPairOk(v)
  }

  predicate ReconcilesReadable(d: Trace) {
    forall k | 0 <= k < |ReconcilesOf(d)| :: ReconcilesOf(d)[k].evidence.ReconcileEvidence?
  }

  /** The reconcile action has a line of that payment. */
  predicate Touches(a: Action, payment: int)
    requires a.evidence.ReconcileEvidence?
  {
    exists l | l in a.evidence.lines :: Rid(l.payment) == Some(payment)
  }

  /** The reconcile actions with a line of that payment, by position. */
  function MatchesFor(reconciles: seq<Action>, payment: int): (r: seq<nat>)
    requires forall k | 0 <= k < |reconciles| :: reconciles[k].evidence.ReconcileEvidence?
    ensures forall k :: k in r <==> 0 <= k < |reconciles| && Touches(reconciles[k], payment)
    ensures forall j | 0 <= j < |r| :: r[j] < |reconciles|
  {
    if reconciles == [] then []
    else
      var n := |reconciles| - 1;
      MatchesFor(reconciles[..n], payment) + if Touches(reconciles[n], payment) then [n] else []
  }

  predicate BankReadback(v: View, match_: Action)
    requires match_.evidence.ReconcileEvidence?
  {
    && match_.evidence.bankVerified
    && match_.evidence.statementLines == [(v.bankId, true)]
    && v.action.finished < match_.sent
  }

  function PaymentLines(lines: seq<MoveLine>, payment: int): seq<MoveLine> {
    if lines == [] then []
    else (if Rid(lines[0].payment) == Some(payment) then [lines[0]] else []) + PaymentLines(lines[1..], payment)
  }

  function BankMoveLines(lines: seq<MoveLine>, move: Option<int>): seq<MoveLine> {
    if lines == [] then []
    else (if Rid(lines[0].move) == move then [lines[0]] else []) + BankMoveLines(lines[1..], move)
  }

  predicate ExactPair(v: View, lines: seq<MoveLine>) {
    var pl, bl := PaymentLines(lines, v.payment.id), BankMoveLines(lines, Rid(v.bank.move));
    |lines| == 2 && |pl| == 1 && |bl| == 1 && pl[0].id != bl[0].id
  }

  predicate LineIdentity(v: View, lines: seq<MoveLine>)
    requires ExactPair(v, lines)
  {
    var pl, bl := PaymentLines(lines, v.payment.id)[0], BankMoveLines(lines, Rid(v.bank.move))[0];
    && (forall l | l in lines :: SameParties(l.parties, v.invoice.parties))
    && Rid(pl.account) == Rid(bl.account)
    && Rid(pl.move) == Rid(v.payment.move) == Rid(v.final.move)
  }

  predicate PostedOpposite(d: Trace, v: View, lines: seq<MoveLine>)
    requires ExactPair(v, lines)
  {
    var pl, bl := PaymentLines(lines, v.payment.id)[0], BankMoveLines(lines, Rid(v.bank.move))[0];
    && (forall l | l in lines ::
          l.parentState == "posted" && l.reconciled && Near(l.residual, 0.0) && Near(l.residualCurrency, 0.0))
    && Near(pl.balance, Signed(d, v.amount)) && Near(bl.balance, -Signed(d, v.amount))
    && Truthy(pl.fullReconcile) && Rid(pl.fullReconcile) == Rid(bl.fullReconcile)
  }

  predicate PartialLink(v: View, lines: seq<MoveLine>)
    requires ExactPair(v, lines)
  {
    var pl, bl := PaymentLines(lines, v.payment.id)[0], BankMoveLines(lines, Rid(v.bank.move))[0];
    var shared := Counting.Elements(pl.debits) * Counting.Elements(bl.credits)
                  + Counting.Elements(pl.credits) * Counting.Elements(bl.debits);
    |shared| == 1
  }

  // ---------- passing ----------

  function Sum(s: seq<real>): real {
    if s == [] then 0.0 else s[0] + Sum(s[1..])
  }

  /** The audit reaches its payment loop. */
  predicate Entered(d: Trace) {
    && d.scenario != Unsupported
    && (IsRefund(d) ==> d.credits != [])
    && PaymentsReadable(d) && Cardinality(d)
  }

  /** Nothing the audit reads for its first `n` payments is missing. */
  predicate ReadableUpTo(d: Trace, n: nat) {
    && Entered(d) && n <= |CreatesOf(d)|
    && (forall i | 0 <= i < n :: ViewAt(d, i).Some?)
    && (n > 0 ==> ReconcilesReadable(d))
  }

  /** Nothing the audit reads is missing, so it reaches its end. */
  predicate Readable(d: Trace) {
    ReadableUpTo(d, |CreatesOf(d)|)
  }

  /** What is left to pay before the payment at position `i`, by the logged reductions. */
  function Remaining(d: Trace, i: nat): real
    requires ReadableUpTo(d, i)
  {
    if i == 0 then Sum(Amounts(d)) else Remaining(d, i - 1) - ViewAt(d, i - 1).value.reduction
  }

  /** The checks on the logged actions as a whole. */
  predicate LogPasses(d: Trace)
    requires Entered(d)
  {
    && d.recordedFixtures == d.fixtures && AllVerified(d) && SinglePayments(d) && PaymentOrder(d)
    && VerifiedBeforeNext(d) && UniqueIds(d)
  }

  /** The checks on the final records as a whole. */
  predicate SetsPass(d: Trace)
    requires Entered(d)
  {
    && FinalIds(d) == PaymentIds(d) && FinalBankIds(d) == BankIds(d)
    && (IsRefund(d) ==> CreditOrigin(d))
  }

  predicate MatchPasses(d: Trace, v: View, a: Action) {
    && a.evidence.ReconcileEvidence? && BankReadback(v, a) && ExactPair(v, a.evidence.lines)
    && LineIdentity(v, a.evidence.lines) && PostedOpposite(d, v, a.evidence.lines)
    && PartialLink(v, a.evidence.lines)
  }

  /** The reconcile action of a payment, if it is the only one with a line of it. */
  predicate MatchedOnce(d: Trace, v: View, reconciles: seq<Action>)
    requires forall k | 0 <= k < |reconciles| :: reconciles[k].evidence.ReconcileEvidence?
  {
    var found := MatchesFor(reconciles, v.payment.id);
    |found| == 1 && MatchPasses(d, v, reconciles[found[0]])
  }

  predicate PaymentPasses(d: Trace, i: nat)
    requires ReadableUpTo(d, i + 1)
  {
    && RecordsPass(d, ViewAt(d, i).value, Remaining(d, i))
    && MatchedOnce(d, ViewAt(d, i).value, ReconcilesOf(d))
  }

  /** Every check of the audit holds. */
  predicate Passing(d: Trace) {
    && Readable(d) && LogPasses(d) && SetsPass(d)
    && (forall i | 0 <= i < |CreatesOf(d)| :: PaymentPasses(d, i))
    && Near(Remaining(d, |CreatesOf(d)|), 0.0)
  }
}
