/** The audit as it runs: a table of named checks filled in order, and the pairs it reports. */
module PaymentAudit {
  import opened Wrappers
  import opened Payments

  datatype RecordKind = Source | Identity | Amount | ResidualTransition | OneToOneBank

  datatype MatchKind = OneReconcile | Readback | Pair | Lines | Posted | Link

  datatype Check =
    | SameFixture | VerifiedActions | SinglePayment | ExpectedCardinality | OrderOfPayments
    | PreviousVerified | UniqueRecords | FinalPaymentSet | SpecifiedBankSet | OriginOfCredit
    | RecordCheck(index: nat, record: RecordKind)
    | MatchCheck(index: nat, match_: MatchKind)
    | ResidualZero | EvidencePresent

  datatype PairRecord = PairRecord(paymentId: int, bankId: int, paymentAction: string,
                                   reconcileAction: string, lineIds: (int, int))

  datatype Report = Report(passed: bool, checks: map<Check, bool>, pairs: seq<PairRecord>)

  predicate AllTrue(checks: map<Check, bool>) {
    forall c | c in checks :: checks[c]
  }

  /** `check(name, value)` */
  method Note(checks: map<Check, bool>, name: Check, value: bool) returns (after: map<Check, bool>)
    requires name !in checks
    ensures after == checks[name := value]
    ensures AllTrue(after) <==> AllTrue(checks) && value
  {
    after := checks[name := value];
    assert after[name] == value;
    assert forall c | c in checks :: after[c] == checks[c];
  }

  /** The check is in the table, with this value. */
  ghost predicate Noted(checks: map<Check, bool>, name: Check, value: bool) {
    name in checks && checks[name] == value
  }

  /** No check of this payment or a later one has been recorded, nor the closing ones. */
  ghost predicate OpenFrom(checks: map<Check, bool>, index: nat) {
    && (forall i: nat, k | index <= i :: RecordCheck(i, k) !in checks)
    && (forall i: nat, k | index <= i :: MatchCheck(i, k) !in checks)
    && ResidualZero !in checks && EvidencePresent !in checks
  }

  /** The part of a table that the next payments do not touch. */
  ghost predicate Extends(before: map<Check, bool>, after: map<Check, bool>) {
    forall c | c in before :: c in after && after[c] == before[c]
  }

  /** The table may only have grown by checks of this payment. */
  ghost predicate GrownFor(before: map<Check, bool>, after: map<Check, bool>, i: nat) {
    && Extends(before, after)
    && forall c | c in after && c !in before ::
         (c.RecordCheck? || c.MatchCheck?) && c.index == i
  }

  method NoteParties(i: nat, source: bool, parties: bool, amount: bool, before: map<Check, bool>)
    returns (checks: map<Check, bool>)
    requires forall k :: RecordCheck(i, k) !in before
    ensures GrownFor(before, checks, i) && forall k :: MatchCheck(i, k) in checks ==> MatchCheck(i, k) in before
    ensures Noted(checks, RecordCheck(i, Source), source) && Noted(checks, RecordCheck(i, Identity), parties)
    ensures Noted(checks, RecordCheck(i, Amount), amount)
    ensures RecordCheck(i, ResidualTransition) !in checks && RecordCheck(i, OneToOneBank) !in checks
    ensures AllTrue(checks) == (AllTrue(before) && source && parties && amount)
  {
    checks := Note(before, RecordCheck(i, Source), source);
    checks := Note(checks, RecordCheck(i, Identity), parties);
    checks := Note(checks, RecordCheck(i, Amount), amount);
  }

  method NoteRecords(i: nat, source: bool, parties: bool, amount: bool, residual: bool, bank: bool,
                     before: map<Check, bool>) returns (checks: map<Check, bool>)
    requires forall k :: RecordCheck(i, k) !in before
    ensures AllTrue(checks) == (AllTrue(before) && source && parties && amount && residual && bank)
    ensures GrownFor(before, checks, i) && forall k :: MatchCheck(i, k) in checks ==> MatchCheck(i, k) in before
    ensures Noted(checks, RecordCheck(i, Source), source) && Noted(checks, RecordCheck(i, Identity), parties)
    ensures Noted(checks, RecordCheck(i, Amount), amount)
    ensures Noted(checks, RecordCheck(i, ResidualTransition), residual)
    ensures Noted(checks, RecordCheck(i, OneToOneBank), bank)
  {
    checks := NoteParties(i, source, parties, amount, before);
    checks := NoteMoney(i, residual, bank, checks);
  }

  method NoteMoney(i: nat, residual: bool, bank: bool, before: map<Check, bool>)
    returns (checks: map<Check, bool>)
    requires RecordCheck(i, ResidualTransition) !in before && RecordCheck(i, OneToOneBank) !in before
    ensures GrownFor(before, checks, i) && forall k :: MatchCheck(i, k) in checks ==> MatchCheck(i, k) in before
    ensures Noted(checks, RecordCheck(i, ResidualTransition), residual)
    ensures Noted(checks, RecordCheck(i, OneToOneBank), bank)
    ensures AllTrue(checks) == (AllTrue(before) && residual && bank)
  {
    checks := Note(before, RecordCheck(i, ResidualTransition), residual);
    checks := Note(checks, RecordCheck(i, OneToOneBank), bank);
  }

  lemma GrownOpen(before: map<Check, bool>, after: map<Check, bool>, i: nat)
    requires OpenFrom(before, i) && GrownFor(before, after, i)
    ensures OpenFrom(after, i + 1)
  {
    forall j: nat, k | i + 1 <= j
      ensures RecordCheck(j, k) !in after
    {
      assert RecordCheck(j, k) !in before;
    }
    forall j: nat, k | i + 1 <= j
      ensures MatchCheck(j, k) !in after
    {
      assert MatchCheck(j, k) !in before;
    }
  }

  /** What the first group of checks of a payment looks at. */
  predicate RecordValue(d: Trace, v: View, remaining: real, k: RecordKind)
    requires IsRefund(d) ==> d.credits != []
  {
    match k
    case Source => SourceOk(d, v)
    case Identity => PartiesOk(d, v)
    case Amount => AmountOk(d, v)
    case ResidualTransition => ResidualOk(v, remaining)
    case OneToOneBank => BankPairOk(v)
  }

  /** The first group of checks of one payment. */
  method CheckRecords(d: Trace, i: nat, v: View, remaining: real, before: map<Check, bool>)
    returns (checks: map<Check, bool>)
    requires IsRefund(d) ==> d.credits != []
    requires OpenFrom(before, i)
    ensures AllTrue(checks) == (AllTrue(before) && RecordsPass(d, v, remaining))
    ensures Extends(before, checks) && OpenFrom(checks, i + 1) && MatchOpen(checks, i)
    ensures forall k :: Noted(checks, RecordCheck(i, k), RecordValue(d, v, remaining, k))
  {
    checks := NoteRecords(i, SourceOk(d, v), PartiesOk(d, v), AmountOk(d, v), ResidualOk(v, remaining),
                          BankPairOk(v), before);
    GrownOpen(before, checks, i);
  }

  /** The second group of checks of this payment is still to come. */
  ghost predicate MatchOpen(checks: map<Check, bool>, i: nat) {
    forall k :: MatchCheck(i, k) !in checks
  }

  /** The record names the payment, its bank line, its action and the reconcile action, and two
      different lines of that action: the payment's and the bank's. */
  ghost predicate PairOf(v: View, chosen: Action, p: PairRecord) {
    && chosen.evidence.ReconcileEvidence?
    && p.paymentId == v.payment.id && p.bankId == v.bankId
    && p.paymentAction == v.action.id && p.reconcileAction == chosen.id
    && p.lineIds.0 != p.lineIds.1
    && (exists l | l in chosen.evidence.lines :: l.id == p.lineIds.0 && Rid(l.payment) == Some(v.payment.id))
    && (exists l | l in chosen.evidence.lines :: l.id == p.lineIds.1 && Rid(l.move) == Rid(v.bank.move))
  }

  lemma {:induction false} LinesAreLines(lines: seq<MoveLine>, payment: int, move: Option<int>)
    ensures forall l | l in PaymentLines(lines, payment) :: l in lines && Rid(l.payment) == Some(payment)
    ensures forall l | l in BankMoveLines(lines, move) :: l in lines && Rid(l.move) == move
  {
    if lines != [] {
      LinesAreLines(lines[1..], payment, move);
    }
  }

  /** What the second group looks at, as far as the audit gets: the value of a check it reaches. */
  function MatchValue(d: Trace, v: View, reconciles: seq<Action>, k: MatchKind): Option<bool>
    requires forall j | 0 <= j < |reconciles| :: reconciles[j].evidence.ReconcileEvidence?
  {
    var found := MatchesFor(reconciles, v.payment.id);
    if k.OneReconcile? then Some(|found| == 1)
    else if |found| != 1 then None
    else ChosenValue(d, v, reconciles[found[0]], k)
  }

  function ChosenValue(d: Trace, v: View, chosen: Action, k: MatchKind): Option<bool>
    requires chosen.evidence.ReconcileEvidence?
  {
    var lines := chosen.evidence.lines;
    var exact := ExactPair(v, lines);
    Reached(k, BankReadback(v, chosen), exact, exact && LineIdentity(v, lines),
            exact && PostedOpposite(d, v, lines), exact && PartialLink(v, lines))
  }

  /** The last three checks are only reached if the pair is exact. */
  function Reached(k: MatchKind, readback: bool, exact: bool, lines: bool, posted: bool, link: bool)
    : Option<bool>
  {
    match k
    case OneReconcile => None
    case Readback => Some(readback)
    case Pair => Some(exact)
    case Lines => if exact then Some(lines) else None
    case Posted => if exact then Some(posted) else None
    case Link => if exact then Some(link) else None
  }

  /** What is listed for an exact pair. */
  method FoundPair(v: View, chosen: Action) returns (pair: PairRecord)
    requires chosen.evidence.ReconcileEvidence? && ExactPair(v, chosen.evidence.lines)
    ensures PairOf(v, chosen, pair)
  {
    var lines := chosen.evidence.lines;
    var pl := PaymentLines(lines, v.payment.id)[0];
    var bl := BankMoveLines(lines, Rid(v.bank.move))[0];
    pair := PairRecord(v.payment.id, v.bankId, v.action.id, chosen.id, (pl.id, bl.id));
    LinesAreLines(lines, v.payment.id, Rid(v.bank.move));
    assert pl in lines && bl in lines;
  }

  method NoteLines(i: nat, lines: bool, posted: bool, link: bool, before: map<Check, bool>)
    returns (checks: map<Check, bool>)
    requires OpenFrom(before, i + 1) && MatchCheck(i, Lines) !in before
    requires MatchCheck(i, Posted) !in before && MatchCheck(i, Link) !in before
    ensures AllTrue(checks) == (AllTrue(before) && lines && posted && link)
    ensures Extends(before, checks) && OpenFrom(checks, i + 1)
    ensures Noted(checks, MatchCheck(i, Lines), lines) && Noted(checks, MatchCheck(i, Posted), posted)
    ensures Noted(checks, MatchCheck(i, Link), link)
  {
    checks := Note(before, MatchCheck(i, Lines), lines);
    checks := Note(checks, MatchCheck(i, Posted), posted);
    checks := Note(checks, MatchCheck(i, Link), link);
  }

  ghost predicate ChosenNoted(d: Trace, i: nat, v: View, chosen: Action, checks: map<Check, bool>)
    requires chosen.evidence.ReconcileEvidence?
  {
    forall k | ChosenValue(d, v, chosen, k).Some? ::
      Noted(checks, MatchCheck(i, k), ChosenValue(d, v, chosen, k).value)
  }

  lemma ReachedNoted(checks: map<Check, bool>, i: nat, readback: bool, exact: bool, lines: bool,
                     posted: bool, link: bool)
    requires Noted(checks, MatchCheck(i, Readback), readback) && Noted(checks, MatchCheck(i, Pair), exact)
    requires exact ==> Noted(checks, MatchCheck(i, Lines), lines)
    requires exact ==> Noted(checks, MatchCheck(i, Posted), posted)
    requires exact ==> Noted(checks, MatchCheck(i, Link), link)
    ensures forall k | Reached(k, readback, exact, lines, posted, link).Some? ::
              Noted(checks, MatchCheck(i, k), Reached(k, readback, exact, lines, posted, link).value)
  {
  }

  method NotePair(i: nat, readback: bool, exact: bool, before: map<Check, bool>)
    returns (checks: map<Check, bool>)
    requires OpenFrom(before, i + 1)
    requires MatchCheck(i, Readback) !in before && MatchCheck(i, Pair) !in before
    ensures checks == before[MatchCheck(i, Readback) := readback][MatchCheck(i, Pair) := exact]
    ensures AllTrue(checks) == (AllTrue(before) && readback && exact)
    ensures Extends(before, checks) && OpenFrom(checks, i + 1)
  {
    checks := Note(before, MatchCheck(i, Readback), readback);
    checks := Note(checks, MatchCheck(i, Pair), exact);
  }

  /** The checks on the reconcile action, with the exit for lines that are not an exact pair. */
  method NoteChosen(i: nat, readback: bool, exact: bool, lines: bool, posted: bool, link: bool,
                    before: map<Check, bool>) returns (checks: map<Check, bool>)
    requires OpenFrom(before, i + 1) && forall k | k != OneReconcile :: MatchCheck(i, k) !in before
    ensures AllTrue(checks) == (AllTrue(before) && readback && exact && (exact ==> lines && posted && link))
    ensures Extends(before, checks) && OpenFrom(checks, i + 1)
    ensures forall k | Reached(k, readback, exact, lines, posted, link).Some? ::
              Noted(checks, MatchCheck(i, k), Reached(k, readback, exact, lines, posted, link).value)
  {
    checks := NotePair(i, readback, exact, before);
    if exact {
      checks := NoteLines(i, lines, posted, link, checks);
    }
    ReachedNoted(checks, i, readback, exact, lines, posted, link);
  }

  /** The checks on the one reconcile action of a payment, with the exit when its lines are not an
      exact pair. */
  method CheckChosen(d: Trace, i: nat, v: View, chosen: Action, before: map<Check, bool>)
    returns (checks: map<Check, bool>, pair: Option<PairRecord>)
    requires chosen.evidence.ReconcileEvidence?
    requires OpenFrom(before, i + 1)
    requires forall k | k != OneReconcile :: MatchCheck(i, k) !in before
    ensures AllTrue(checks) == (AllTrue(before) && MatchPasses(d, v, chosen))
    ensures Extends(before, checks) && OpenFrom(checks, i + 1)
    ensures ChosenNoted(d, i, v, chosen, checks)
    ensures pair.Some? <==> ExactPair(v, chosen.evidence.lines)
    ensures pair.Some? ==> PairOf(v, chosen, pair.value)
  {
    var lines := chosen.evidence.lines;
    var exact := ExactPair(v, lines);
    checks := NoteChosen(i, BankReadback(v, chosen), exact, exact && LineIdentity(v, lines),
                         exact && PostedOpposite(d, v, lines), exact && PartialLink(v, lines), before);
    pair := None;
    if exact {
      var record := FoundPair(v, chosen);
      pair := Some(record);
    }
  }

  /** The checks on the reconcile actions of one payment, with the exit when there is not one. */
  method CheckMatch(d: Trace, i: nat, v: View, reconciles: seq<Action>, before: map<Check, bool>)
    returns (checks: map<Check, bool>, pair: Option<PairRecord>)
    requires forall k | 0 <= k < |reconciles| :: reconciles[k].evidence.ReconcileEvidence?
    requires OpenFrom(before, i + 1) && MatchOpen(before, i)
    ensures AllTrue(checks) == (AllTrue(before) && MatchedOnce(d, v, reconciles))
    ensures Extends(before, checks) && OpenFrom(checks, i + 1)
    ensures forall k | MatchValue(d, v, reconciles, k).Some? ::
              Noted(checks, MatchCheck(i, k), MatchValue(d, v, reconciles, k).value)
    ensures var found := MatchesFor(reconciles, v.payment.id);
            && (pair.Some? <==> |found| == 1 && ExactPair(v, reconciles[found[0]].evidence.lines))
            && (pair.Some? ==> PairOf(v, reconciles[found[0]], pair.value))
  {
    var matches := MatchesFor(reconciles, v.payment.id);
    checks := Note(before, MatchCheck(i, OneReconcile), |matches| == 1);
    pair := None;
    if |matches| == 1 {
      checks, pair := CheckChosen(d, i, v, reconciles[matches[0]], checks);
    }
  }

  /** The audit gets as far as the payments of the actions. */
  predicate Opened(d: Trace) {
    d.scenario != Unsupported && (IsRefund(d) ==> d.credits != []) && PaymentsReadable(d)
  }

  /** The first two checks, and the exits for evidence that is missing. */
  method CheckOpening(d: Trace) returns (checks: map<Check, bool>, going: bool)
    ensures going == Opened(d)
    ensures going ==> checks.Keys == {SameFixture, VerifiedActions}
    ensures going ==> AllTrue(checks) == (d.recordedFixtures == d.fixtures && AllVerified(d))
    ensures going ==> Noted(checks, VerifiedActions, AllVerified(d))
    ensures Noted(checks, SameFixture, d.recordedFixtures == d.fixtures)
    ensures !going ==> Noted(checks, EvidencePresent, false)
  {
    checks := Note(map[], SameFixture, d.recordedFixtures == d.fixtures);
    going := false;
    if d.scenario == Unsupported || (IsRefund(d) && d.credits == []) {
      checks := Note(checks, EvidencePresent, false);
      return;
    }
    var verified := AllVerified(d);
    checks := Note(checks, VerifiedActions, verified);
    if !PaymentsReadable(d) {
      checks := Note(checks, EvidencePresent, false);
      return;
    }
    going := true;
  }

  /** What is recorded about the actions before the payment loop, with the exit for a count that
      does not fit. */
  method CheckLog(d: Trace) returns (checks: map<Check, bool>, entered: bool)
    ensures entered <==> Entered(d)
    ensures entered ==> AllTrue(checks) == LogPasses(d)
    ensures Noted(checks, SameFixture, d.recordedFixtures == d.fixtures)
    ensures Opened(d) ==> LogNoted(d, checks) && OpenFrom(checks, 0) && SetsOpen(checks)
    ensures !Opened(d) ==> Noted(checks, EvidencePresent, false)
    ensures !entered ==> !AllTrue(checks)
  {
    var going;
    checks, going := CheckOpening(d);
    if !going {
      return checks, false;
    }
    var single, fits, order := SinglePayments(d), Cardinality(d), PaymentOrder(d);
    var timely, unique := VerifiedBeforeNext(d), UniqueIds(d);
    ghost var fixtures, verified := d.recordedFixtures == d.fixtures, AllVerified(d);
    LogPassesIf(d, fixtures, verified, single, order, timely, unique);
    checks := NoteActions(checks, single, fits, order, timely, unique);
    OpenAfterLog(checks);
    return checks, fits;
  }

  /** The checks on the log as a whole are in the table with their values. */
  ghost predicate LogNoted(d: Trace, checks: map<Check, bool>)
    requires Opened(d)
  {
    && Noted(checks, SameFixture, d.recordedFixtures == d.fixtures)
    && Noted(checks, VerifiedActions, AllVerified(d))
    && Noted(checks, SinglePayment, SinglePayments(d))
    && Noted(checks, ExpectedCardinality, Cardinality(d))
    && Noted(checks, OrderOfPayments, PaymentOrder(d))
    && Noted(checks, PreviousVerified, VerifiedBeforeNext(d))
    && Noted(checks, UniqueRecords, UniqueIds(d))
  }

  ghost predicate SetsOpen(checks: map<Check, bool>) {
    FinalPaymentSet !in checks && SpecifiedBankSet !in checks && OriginOfCredit !in checks
  }

  lemma LogPassesIf(d: Trace, fixtures: bool, verified: bool, single: bool, order: bool, timely: bool,
                    unique: bool)
    requires PaymentsReadable(d)
    requires fixtures == (d.recordedFixtures == d.fixtures) && verified == AllVerified(d)
    requires single == SinglePayments(d) && order == PaymentOrder(d)
    requires timely == VerifiedBeforeNext(d) && unique == UniqueIds(d)
    ensures Entered(d) ==>
              LogPasses(d) == (fixtures && verified && single && order && timely && unique)
  {
  }

  const LOG_CHECKS := {SameFixture, VerifiedActions, SinglePayment, ExpectedCardinality,
                       OrderOfPayments, PreviousVerified, UniqueRecords}

  lemma OpenAfterLog(checks: map<Check, bool>)
    requires checks.Keys == LOG_CHECKS
    ensures OpenFrom(checks, 0) && SetsOpen(checks)
  {
  }

  method NoteActions(before: map<Check, bool>, single: bool, fits: bool, order: bool, timely: bool,
                     unique: bool) returns (checks: map<Check, bool>)
    requires before.Keys == {SameFixture, VerifiedActions}
    ensures checks.Keys == LOG_CHECKS && Extends(before, checks)
    ensures Noted(checks, SinglePayment, single) && Noted(checks, ExpectedCardinality, fits)
    ensures Noted(checks, OrderOfPayments, order) && Noted(checks, PreviousVerified, timely)
    ensures Noted(checks, UniqueRecords, unique)
    ensures AllTrue(checks) == (AllTrue(before) && single && fits && order && timely && unique)
  {
    checks := NoteCounts(before, single, fits);
    checks := NoteOrder(checks, order, timely, unique);
  }

  const COUNT_CHECKS := {SameFixture, VerifiedActions, SinglePayment, ExpectedCardinality}

  method NoteOrder(before: map<Check, bool>, order: bool, timely: bool, unique: bool)
    returns (checks: map<Check, bool>)
    requires before.Keys == COUNT_CHECKS
    ensures checks.Keys == LOG_CHECKS && Extends(before, checks)
    ensures Noted(checks, OrderOfPayments, order) && Noted(checks, PreviousVerified, timely)
    ensures Noted(checks, UniqueRecords, unique)
    ensures AllTrue(checks) == (AllTrue(before) && order && timely && unique)
  {
    checks := Note(before, OrderOfPayments, order);
    checks := Note(checks, PreviousVerified, timely);
    checks := Note(checks, UniqueRecords, unique);
  }

  method NoteCounts(before: map<Check, bool>, single: bool, fits: bool) returns (checks: map<Check, bool>)
    requires before.Keys == {SameFixture, VerifiedActions}
    ensures checks.Keys == COUNT_CHECKS && Extends(before, checks)
    ensures Noted(checks, SinglePayment, single) && Noted(checks, ExpectedCardinality, fits)
    ensures AllTrue(checks) == (AllTrue(before) && single && fits)
  {
    checks := Note(before, SinglePayment, single);
    checks := Note(checks, ExpectedCardinality, fits);
  }

  ghost predicate SetsNoted(d: Trace, checks: map<Check, bool>)
    requires Entered(d)
  {
    && Noted(checks, FinalPaymentSet, FinalIds(d) == PaymentIds(d))
    && Noted(checks, SpecifiedBankSet, FinalBankIds(d) == BankIds(d))
    && (IsRefund(d) ==> Noted(checks, OriginOfCredit, CreditOrigin(d)))
  }

  method CheckSets(d: Trace, before: map<Check, bool>) returns (checks: map<Check, bool>)
    requires Entered(d) && OpenFrom(before, 0)
    requires SetsOpen(before)
    ensures AllTrue(checks) == (AllTrue(before) && SetsPass(d))
    ensures Extends(before, checks) && OpenFrom(checks, 0) && SetsNoted(d, checks)
  {
    checks := Note(before, FinalPaymentSet, FinalIds(d) == PaymentIds(d));
    checks := Note(checks, SpecifiedBankSet, FinalBankIds(d) == BankIds(d));
    if IsRefund(d) {
      checks := Note(checks, OriginOfCredit, CreditOrigin(d));
    }
  }

  ghost predicate PairAt(d: Trace, i: nat, p: PairRecord)
    requires ReadableUpTo(d, i + 1)
  {
    var v := ViewAt(d, i).value;
    var found := MatchesFor(ReconcilesOf(d), v.payment.id);
    |found| == 1 && PairOf(v, ReconcilesOf(d)[found[0]], p)
  }

  ghost predicate PairsOk(d: Trace, n: nat, pairs: seq<PairRecord>)
    requires ReadableUpTo(d, n)
  {
    |pairs| == n && forall j | 0 <= j < n :: PairAt(d, j, pairs[j])
  }

  /** Every check of the payment that the audit reaches is in the table with its value. */
  ghost predicate PaymentNoted(d: Trace, i: nat, checks: map<Check, bool>)
    requires ReadableUpTo(d, i + 1)
  {
    var v := ViewAt(d, i).value;
    && (forall k :: Noted(checks, RecordCheck(i, k), RecordValue(d, v, Remaining(d, i), k)))
    && forall k | MatchValue(d, v, ReconcilesOf(d), k).Some? ::
         Noted(checks, MatchCheck(i, k), MatchValue(d, v, ReconcilesOf(d), k).value)
  }

  /** A pair is listed for the payment: one reconcile action touches it, with an exact pair of lines. */
  predicate HasPair(d: Trace, i: nat) {
    ReadableUpTo(d, i + 1) &&
    var v := ViewAt(d, i).value;
    var found := MatchesFor(ReconcilesOf(d), v.payment.id);
    |found| == 1 && ExactPair(v, ReconcilesOf(d)[found[0]].evidence.lines)
  }

  /** The positions below `n` with the property, in order. */
  function Where(p: nat -> bool, n: nat): (r: seq<nat>)
    ensures forall j | 0 <= j < |r| :: r[j] < n
  {
    if n == 0 then [] else Where(p, n - 1) + if p(n - 1) then [n - 1] else []
  }

  lemma {:induction false} Everywhere(p: nat -> bool, n: nat)
    requires forall j: nat | j < n :: p(j)
    ensures |Where(p, n)| == n && forall j | 0 <= j < n :: Where(p, n)[j] == j
  {
    if n > 0 {
      Everywhere(p, n - 1);
    }
  }

  function Pairing(d: Trace): nat -> bool {
    (i: nat) => HasPair(d, i)
  }

  /** The payments with a pair, among the first `n`, in order. */
  function Paired(d: Trace, n: nat): (r: seq<nat>)
    ensures forall j | 0 <= j < |r| :: r[j] < n
  {
    Where(Pairing(d), n)
  }

  /** The list has one pair for each of these payments. */
  ghost predicate PairsFor(d: Trace, n: nat, at: seq<nat>, pairs: seq<PairRecord>)
    requires ReadableUpTo(d, n) && forall j | 0 <= j < |at| :: at[j] < n
  {
    |pairs| == |at| && forall j | 0 <= j < |pairs| :: PairAt(d, at[j], pairs[j])
  }

  ghost predicate PairsListed(d: Trace, n: nat, pairs: seq<PairRecord>)
    requires ReadableUpTo(d, n)
  {
    PairsFor(d, n, Paired(d, n), pairs)
  }

  /** If every payment has a pair, the list is complete. */
  lemma ListedPairsOk(d: Trace, n: nat, pairs: seq<PairRecord>)
    requires ReadableUpTo(d, n) && PairsListed(d, n, pairs)
    requires forall j | 0 <= j < n :: HasPair(d, j)
    ensures PairsOk(d, n, pairs)
  {
    Everywhere(Pairing(d), n);
    forall j | 0 <= j < n
      ensures PairAt(d, j, pairs[j])
    {
      assert PairAt(d, Paired(d, n)[j], pairs[j]);
    }
  }

  ghost predicate PaymentsPass(d: Trace, n: nat)
    requires ReadableUpTo(d, n)
  {
    forall j | 0 <= j < n :: PaymentPasses(d, j)
  }

  ghost predicate PassesUpTo(d: Trace, n: nat)
    requires ReadableUpTo(d, n)
  {
    LogPasses(d) && SetsPass(d) && PaymentsPass(d, n)
  }

  /** All checks so far hold exactly if the payments so far pass, and each check reached is in the
      table with its value. */
  ghost predicate LoopState(d: Trace, n: nat, checks: map<Check, bool>, pairs: seq<PairRecord>)
    requires ReadableUpTo(d, n)
  {
    && AllTrue(checks) == PassesUpTo(d, n)
    && (forall j | 0 <= j < n :: PaymentNoted(d, j, checks))
    && LogNoted(d, checks) && SetsNoted(d, checks)
    && PairsListed(d, n, pairs)
  }

  lemma NotedStep(d: Trace, i: nat, before: map<Check, bool>, after: map<Check, bool>)
    requires ReadableUpTo(d, i + 1) && Extends(before, after) && PaymentNoted(d, i, after)
    requires forall j | 0 <= j < i :: PaymentNoted(d, j, before)
    ensures forall j | 0 <= j < i + 1 :: PaymentNoted(d, j, after)
  {
    forall j | 0 <= j < i + 1
      ensures PaymentNoted(d, j, after)
    {
      if j < i { assert PaymentNoted(d, j, before); }
    }
  }

  lemma PairsForMore(d: Trace, i: nat, at: seq<nat>, pairs: seq<PairRecord>, pair: PairRecord)
    requires ReadableUpTo(d, i + 1) && (forall j | 0 <= j < |at| :: at[j] < i)
    requires PairsFor(d, i, at, pairs) && PairAt(d, i, pair)
    ensures PairsFor(d, i + 1, at + [i], pairs + [pair])
  {
  }

  lemma PairsForKept(d: Trace, i: nat, at: seq<nat>, pairs: seq<PairRecord>)
    requires ReadableUpTo(d, i + 1) && (forall j | 0 <= j < |at| :: at[j] < i)
    requires PairsFor(d, i, at, pairs)
    ensures PairsFor(d, i + 1, at, pairs)
  {
  }

  lemma PairedStep(d: Trace, i: nat)
    ensures Paired(d, i + 1) == Paired(d, i) + if HasPair(d, i) then [i] else []
  {
  }

  lemma PairsStep(d: Trace, i: nat, pairs: seq<PairRecord>, pair: Option<PairRecord>)
    requires ReadableUpTo(d, i + 1) && PairsListed(d, i, pairs)
    requires (pair.Some? <==> HasPair(d, i)) && (pair.Some? ==> PairAt(d, i, pair.value))
    ensures PairsListed(d, i + 1, if pair.Some? then pairs + [pair.value] else pairs)
  {
    PairedStep(d, i);
    if pair.Some? {
      PairsForMore(d, i, Paired(d, i), pairs, pair.value);
    } else {
      PairsForKept(d, i, Paired(d, i), pairs);
    }
  }

  lemma PassesMore(d: Trace, i: nat)
    requires ReadableUpTo(d, i + 1)
    ensures PaymentsPass(d, i) && PaymentPasses(d, i) ==> PaymentsPass(d, i + 1)
  {
  }

  lemma PassesLess(d: Trace, i: nat)
    requires ReadableUpTo(d, i + 1)
    ensures PaymentsPass(d, i + 1) ==> PaymentsPass(d, i) && PaymentPasses(d, i)
  {
  }

  lemma LoopStep(d: Trace, i: nat, before: map<Check, bool>, after: map<Check, bool>,
                 pairs: seq<PairRecord>, pair: Option<PairRecord>)
    requires ReadableUpTo(d, i + 1) && LoopState(d, i, before, pairs)
    requires Extends(before, after) && PaymentNoted(d, i, after)
    requires AllTrue(after) == (AllTrue(before) && PaymentPasses(d, i))
    requires pair.Some? <==> HasPair(d, i)
    requires pair.Some? ==> PairAt(d, i, pair.value)
    ensures LoopState(d, i + 1, after, if pair.Some? then pairs + [pair.value] else pairs)
  {
    PassesMore(d, i);
    PassesLess(d, i);
    NotedStep(d, i, before, after);
    PairsStep(d, i, pairs, pair);
  }

  /** The loop body, where nothing it reads is missing. */
  method AuditPayment(d: Trace, i: nat, remaining: real, reconciles: seq<Action>,
                      before: map<Check, bool>, pairs: seq<PairRecord>)
    returns (checks: map<Check, bool>, pairs': seq<PairRecord>, left: real)
    requires ReadableUpTo(d, i + 1) && remaining == Remaining(d, i) && reconciles == ReconcilesOf(d)
    requires OpenFrom(before, i) && LoopState(d, i, before, pairs)
    ensures OpenFrom(checks, i + 1) && LoopState(d, i + 1, checks, pairs')
    ensures left == Remaining(d, i + 1)
  {
    var v := ViewAt(d, i).value;
    checks := CheckRecords(d, i, v, remaining, before);
    left := remaining - v.reduction;
    var pair;
    checks, pair := CheckMatch(d, i, v, reconciles, checks);
    LoopStep(d, i, before, checks, pairs, pair);
    pairs' := if pair.Some? then pairs + [pair.value] else pairs;
  }

  lemma NotedKept(d: Trace, n: nat, before: map<Check, bool>, after: map<Check, bool>)
    requires ReadableUpTo(d, n) && Extends(before, after)
    requires forall j | 0 <= j < n :: PaymentNoted(d, j, before)
    ensures forall j | 0 <= j < n :: PaymentNoted(d, j, after)
  {
    forall j | 0 <= j < n
      ensures PaymentNoted(d, j, after)
    {
      assert PaymentNoted(d, j, before);
    }
  }

  lemma LogKept(d: Trace, before: map<Check, bool>, after: map<Check, bool>)
    requires Entered(d) && Extends(before, after)
    ensures LogNoted(d, before) ==> LogNoted(d, after)
    ensures SetsNoted(d, before) ==> SetsNoted(d, after)
  {
  }

  lemma SettledIsPassing(d: Trace)
    requires Readable(d)
    ensures Passing(d) <==>
            PassesUpTo(d, |CreatesOf(d)|) && Near(Remaining(d, |CreatesOf(d)|), 0.0)
  {
  }

  lemma PassingHasPairs(d: Trace)
    requires Passing(d)
    ensures forall i | 0 <= i < |CreatesOf(d)| :: HasPair(d, i)
  {
    forall i | 0 <= i < |CreatesOf(d)|
      ensures HasPair(d, i)
    {
      assert PaymentPasses(d, i);
    }
  }

  /** The closing check. */
  method CheckSettled(d: Trace, remaining: real, before: map<Check, bool>, pairs: seq<PairRecord>)
    returns (checks: map<Check, bool>)
    requires Readable(d) && remaining == Remaining(d, |CreatesOf(d)|)
    requires OpenFrom(before, |CreatesOf(d)|) && LoopState(d, |CreatesOf(d)|, before, pairs)
    ensures AllTrue(checks) <==> Passing(d)
    ensures AllTrue(checks) ==> PairsOk(d, |CreatesOf(d)|, pairs)
    ensures LogNoted(d, checks) && SetsNoted(d, checks) && EvidencePresent !in checks
    ensures Noted(checks, ResidualZero, Near(remaining, 0.0))
    ensures forall i | 0 <= i < |CreatesOf(d)| :: PaymentNoted(d, i, checks)
  {
    checks := Note(before, ResidualZero, Near(remaining, 0.0));
    LogKept(d, before, checks);
    NotedKept(d, |CreatesOf(d)|, before, checks);
    SettledIsPassing(d);
    if AllTrue(checks) {
      PassingHasPairs(d);
      ListedPairsOk(d, |CreatesOf(d)|, pairs);
    }
  }

  /** The handler of the exceptions that missing evidence raises. */
  method NoteMissing(d: Trace, before: map<Check, bool>) returns (checks: map<Check, bool>)
    requires Entered(d) && LogNoted(d, before) && SetsNoted(d, before) && EvidencePresent !in before
    ensures LogNoted(d, checks) && SetsNoted(d, checks)
    ensures Extends(before, checks) && Noted(checks, EvidencePresent, false)
  {
    checks := Note(before, EvidencePresent, false);
    LogKept(d, before, checks);
  }

  /** The loop broke off at this payment: everything before it is in the report, and of the payment itself
      the first group of checks, where it was reached. */
  ghost predicate BrokenOff(d: Trace, n: nat, checks: map<Check, bool>, pairs: seq<PairRecord>) {
    && Entered(d) && n < |CreatesOf(d)| && ReadableUpTo(d, n) && !ReadableUpTo(d, n + 1)
    && PairsListed(d, n, pairs) && (forall i | 0 <= i < n :: PaymentNoted(d, i, checks))
    && (ViewAt(d, n).Some? ==>
          forall k :: Noted(checks, RecordCheck(n, k), RecordValue(d, ViewAt(d, n).value, Remaining(d, n), k)))
  }

  /** The exit of the loop for a payment that cannot be looked up. */
  method StopUnfound(d: Trace, i: nat, before: map<Check, bool>, pairs: seq<PairRecord>)
    returns (checks: map<Check, bool>)
    requires ReadableUpTo(d, i) && i < |CreatesOf(d)| && ViewAt(d, i).None?
    requires OpenFrom(before, i) && LoopState(d, i, before, pairs)
    ensures Noted(checks, EvidencePresent, false) && LogNoted(d, checks) && SetsNoted(d, checks)
    ensures BrokenOff(d, i, checks, pairs)
  {
    checks := NoteMissing(d, before);
    NotedKept(d, i, before, checks);
  }

  /** Its exit for a reconcile action without lines, which the first payment comes to. */
  method StopUnreadable(d: Trace, remaining: real, before: map<Check, bool>, pairs: seq<PairRecord>)
    returns (checks: map<Check, bool>)
    requires ReadableUpTo(d, 0) && 0 < |CreatesOf(d)| && ViewAt(d, 0).Some? && !ReconcilesReadable(d)
    requires OpenFrom(before, 0) && LoopState(d, 0, before, pairs) && remaining == Remaining(d, 0)
    ensures Noted(checks, EvidencePresent, false) && LogNoted(d, checks) && SetsNoted(d, checks)
    ensures BrokenOff(d, 0, checks, pairs)
  {
    checks := CheckRecords(d, 0, ViewAt(d, 0).value, remaining, before);
    LogKept(d, before, checks);
    checks := NoteMissing(d, checks);
  }

  /** One turn of the loop over the payments, with the exits for evidence that is missing. */
  method AuditNext(d: Trace, i: nat, remaining: real, before: map<Check, bool>, pairs: seq<PairRecord>)
    returns (checks: map<Check, bool>, pairs': seq<PairRecord>, left: real, going: bool)
    requires ReadableUpTo(d, i) && i < |CreatesOf(d)| && remaining == Remaining(d, i)
    requires OpenFrom(before, i) && LoopState(d, i, before, pairs)
    ensures going <==> ReadableUpTo(d, i + 1)
    ensures going ==> OpenFrom(checks, i + 1) && LoopState(d, i + 1, checks, pairs') && left == Remaining(d, i + 1)
    ensures !going ==> Noted(checks, EvidencePresent, false) && LogNoted(d, checks) && SetsNoted(d, checks)
    ensures !going ==> BrokenOff(d, i, checks, pairs')
  {
    pairs', left, going := pairs, remaining, false;
    var view := ViewAt(d, i);
    if view.None? {
      checks := StopUnfound(d, i, before, pairs);
      return;
    }
    if !ReconcilesReadable(d) {
      checks := StopUnreadable(d, remaining, before, pairs);
      return;
    }
    going := true;
    checks, pairs', left := AuditPayment(d, i, remaining, ReconcilesOf(d), before, pairs);
  }

  method AuditPayments(d: Trace, before: map<Check, bool>)
    returns (checks: map<Check, bool>, pairs: seq<PairRecord>, remaining: real, complete: bool)
    requires Entered(d) && OpenFrom(before, 0) && LoopState(d, 0, before, [])
    ensures complete == Readable(d)
    ensures complete ==> OpenFrom(checks, |CreatesOf(d)|) && LoopState(d, |CreatesOf(d)|, checks, pairs)
    ensures complete ==> remaining == Remaining(d, |CreatesOf(d)|)
    ensures !complete ==> Noted(checks, EvidencePresent, false) && LogNoted(d, checks) && SetsNoted(d, checks)
    ensures !complete ==> exists n :: BrokenOff(d, n, checks, pairs)
  {
    checks, pairs, remaining, complete := before, [], Sum(Amounts(d)), true;
    for i := 0 to |CreatesOf(d)|
      invariant ReadableUpTo(d, i) && remaining == Remaining(d, i) && complete
      invariant OpenFrom(checks, i) && LoopState(d, i, checks, pairs)
    {
      checks, pairs, remaining, complete := AuditNext(d, i, remaining, checks, pairs);
      if !complete {
        return;
      }
    }
  }

  /** Something the audit reads is missing. */
  predicate Broken(d: Trace) {
    !Opened(d) || (Entered(d) && !Readable(d))
  }

  /** What is in a report: the verdict, the value of every check that was reached, whether evidence was
      missing, and the pairs found on the way. */
  ghost predicate Reported(d: Trace, report: Report) {
    && (report.passed <==> Passing(d))
    && (report.passed ==> AllTrue(report.checks) && PairsOk(d, |CreatesOf(d)|, report.pairs))
    && Noted(report.checks, SameFixture, d.recordedFixtures == d.fixtures)
    && (Opened(d) ==> LogNoted(d, report.checks))
    && (if Broken(d) then Noted(report.checks, EvidencePresent, false) else EvidencePresent !in report.checks)
    && (if Entered(d) then SetsNoted(d, report.checks) else report.pairs == [])
    && (Entered(d) && !Readable(d) ==> exists n :: BrokenOff(d, n, report.checks, report.pairs))
    && (Readable(d) ==>
          && PairsListed(d, |CreatesOf(d)|, report.pairs)
          && Noted(report.checks, ResidualZero, Near(Remaining(d, |CreatesOf(d)|), 0.0))
          && forall i | 0 <= i < |CreatesOf(d)| :: PaymentNoted(d, i, report.checks))
  }

  /** `audit`: the report passes exactly when every check of a complete trace holds, and then lists
      one pair per payment; every check that is reached is in the table with its value, and missing
      evidence is on record. */
  method Audit(d: Trace) returns (report: Report)
    ensures Reported(d, report)
  {
    var checks, entered := CheckLog(d);
    if !entered {
      return Report(false, checks, []);
    }
    ghost var logged := checks;
    checks := CheckSets(d, checks);
    LogKept(d, logged, checks);
    var pairs, remaining, complete;
    checks, pairs, remaining, complete := AuditPayments(d, checks);
    if !complete {
      return Report(false, checks, pairs);
    }
    checks := CheckSettled(d, remaining, checks, pairs);
    return Report(AllTrue(checks), checks, pairs);
  }
}
