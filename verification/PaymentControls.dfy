/** The negative controls of the payment audit: two mutations of a trace that the audit ought to
    reject, and exactly when it does. */
module PaymentControls {
  import opened Wrappers
  import opened Payments
  import opened PaymentAudit
  import opened PaymentTheorems

  /** The first control is only run when exactly two actions were sent by that method. */
  datatype Controls = Controls(reversedOrderRejected: Option<bool>, wrongBankRejected: bool)

  // ---------- swapping the times of two payments ----------

  /** The controls look for the method name only, whatever the model. */
  predicate SentByMethod(a: Action) {
    a.verb == "action_create_payments"
  }

  /** The positions of such actions. */
  function SentPositions(actions: seq<Action>): (r: seq<nat>)
    ensures forall i | 0 <= i < |r| :: r[i] < |actions|
    ensures forall i, j | 0 <= i < j < |r| :: r[i] < r[j]
    ensures forall k | 0 <= k < |actions| && SentByMethod(actions[k]) :: k in r
  {
    if actions == [] then []
    else
      var n := |actions| - 1;
      SentPositions(actions[..n]) + if SentByMethod(actions[n]) then [n] else []
  }

  function WithTimesOf(a: Action, b: Action): Action {
    a.(created := b.created, sent := b.sent, finished := b.finished)
  }

  function SwapTimes(d: Trace, i: nat, j: nat): Trace
    requires i < j < |d.actions|
  {
    d.(actions := d.actions[i := WithTimesOf(d.actions[i], d.actions[j])]
                           [j := WithTimesOf(d.actions[j], d.actions[i])])
  }

  /** The only creating actions are at these two positions. */
  ghost predicate OnlyCreates(actions: seq<Action>, i: nat, j: nat) {
    && i < j < |actions|
    && forall k | 0 <= k < |actions| && IsCreate(actions[k]) :: k == i || k == j
  }

  lemma {:induction false} NoCreates(actions: seq<Action>)
    requires forall k | 0 <= k < |actions| :: !IsCreate(actions[k])
    ensures Creates(actions) == []
  {
    if actions != [] {
      NoCreates(actions[..|actions| - 1]);
    }
  }

  lemma {:induction false} OneCreate(actions: seq<Action>, i: nat)
    requires i < |actions|
    requires forall k | 0 <= k < |actions| && IsCreate(actions[k]) :: k == i
    ensures Creates(actions) == if IsCreate(actions[i]) then [actions[i]] else []
  {
    var n := |actions| - 1;
    if i == n {
      NoCreates(actions[..n]);
    } else {
      OneCreate(actions[..n], i);
    }
  }

  lemma {:induction false} TwoCreates(actions: seq<Action>, i: nat, j: nat)
    requires OnlyCreates(actions, i, j)
    ensures Creates(actions) == (if IsCreate(actions[i]) then [actions[i]] else [])
                                + if IsCreate(actions[j]) then [actions[j]] else []
  {
    var n := |actions| - 1;
    if j == n {
      OneCreate(actions[..n], i);
    } else {
      TwoCreates(actions[..n], i, j);
    }
  }

  lemma SortOfTwo(x: Action, y: Action)
    ensures SortBySent([x, y]) == if x.sent <= y.sent then [x, y] else [y, x]
    ensures SortBySent([x]) == [x] && SortBySent([]) == []
  {
    assert [x, y][..1] == [x] && [x][..0] == [];
    assert SortBySent([]) == [];
    assert SortBySent([x]) == [x];
    assert InsertBySent([x], y) == if x.sent <= y.sent then [x, y] else [y, x];
  }

  /** The same evidence in the opposite order. */
  ghost predicate Reversed(c: seq<Action>, c': seq<Action>) {
    |c'| == |c| && forall k | 0 <= k < |c| :: c'[k].evidence == c[|c| - 1 - k].evidence
  }

  /** Two actions that exchange their times change places in the order. */
  lemma SwapReverses(x: Action, y: Action)
    requires x.sent != y.sent
    ensures Reversed(SortBySent([x, y]), SortBySent([WithTimesOf(x, y), WithTimesOf(y, x)]))
    ensures |SortBySent([x, y])| == 2
  {
    SortOfTwo(x, y);
    SortOfTwo(WithTimesOf(x, y), WithTimesOf(y, x));
  }

  lemma OneReversed(x: Action, y: Action)
    ensures Reversed(SortBySent([x]), SortBySent([WithTimesOf(x, y)]))
    ensures |SortBySent([x])| == 1
  {
    SortOfTwo(x, y);
    SortOfTwo(WithTimesOf(x, y), y);
  }

  lemma SwappedCreates(d: Trace, i: nat, j: nat)
    requires OnlyCreates(d.actions, i, j)
    ensures var x, y := d.actions[i], d.actions[j];
            && Creates(d.actions) == (if IsCreate(x) then [x] else []) + (if IsCreate(y) then [y] else [])
            && Creates(SwapTimes(d, i, j).actions) ==
               (if IsCreate(x) then [WithTimesOf(x, y)] else [])
               + (if IsCreate(y) then [WithTimesOf(y, x)] else [])
  {
    var actions' := SwapTimes(d, i, j).actions;
    forall k | 0 <= k < |actions'| && IsCreate(actions'[k])
      ensures k == i || k == j
    {
      assert IsCreate(d.actions[k]);
    }
    TwoCreates(d.actions, i, j);
    TwoCreates(actions', i, j);
  }

  /** In a passing trace two payments are never sent at the same time. */
  lemma SentApart(d: Trace, x: Action, y: Action)
    requires Passing(d) && Creates(d.actions) == [x, y]
    ensures x.sent != y.sent
  {
    SortOfTwo(x, y);
    PaymentsInSequence(d, 0, 1);
  }

  /** Swapping the times of two payments reverses their order; if only one of the two actions makes
      a payment, the payments stay as they are. */
  lemma SwapEffect(d: Trace, i: nat, j: nat)
    requires Passing(d) && OnlyCreates(d.actions, i, j)
    ensures 1 <= |CreatesOf(d)| <= 2
    ensures Reversed(CreatesOf(d), CreatesOf(SwapTimes(d, i, j)))
  {
    var x, y := d.actions[i], d.actions[j];
    SwappedCreates(d, i, j);
    PaymentsExist(d);
    if IsCreate(x) && IsCreate(y) {
      assert [x] + [y] == [x, y] && [WithTimesOf(x, y)] + [WithTimesOf(y, x)] ==
             [WithTimesOf(x, y), WithTimesOf(y, x)];
      SentApart(d, x, y);
      SwapReverses(x, y);
    } else if IsCreate(x) {
      OneReversed(x, y);
    } else {
      OneReversed(y, x);
    }
  }

  /** Both payments would also pass for each other. */
  predicate Interchangeable(d: Trace)
    requires PaymentsReadable(d) && |CreatesOf(d)| == |Amounts(d)| == 2
  {
    Near(PaymentAt(d, 1).amount, Amounts(d)[0]) && Near(PaymentAt(d, 0).amount, Amounts(d)[1])
  }

  /** The swapped trace is still counted as before, and read payment by payment. */
  lemma SwapEntered(d: Trace, i: nat, j: nat)
    requires Passing(d) && OnlyCreates(d.actions, i, j)
    ensures Entered(SwapTimes(d, i, j)) && |CreatesOf(SwapTimes(d, i, j))| == |CreatesOf(d)| <= 2
    ensures var n := |CreatesOf(d)|;
            forall k | 0 <= k < n :: PaymentAt(SwapTimes(d, i, j), k) == PaymentAt(d, n - 1 - k)
  {
    SwapEffect(d, i, j);
    ReconcilesKept(d, i, j);
  }

  lemma SwapNoticed(d: Trace, i: nat, j: nat)
    requires Passing(d) && OnlyCreates(d.actions, i, j)
    ensures Entered(SwapTimes(d, i, j))
    ensures PaymentOrder(SwapTimes(d, i, j)) <==> (|CreatesOf(d)| == 2 ==> Interchangeable(d))
  {
    var d' := SwapTimes(d, i, j);
    SwapEntered(d, i, j);
    assert Amounts(d') == Amounts(d);
    if |CreatesOf(d)| == 2 {
      assert PaymentAt(d', 0) == PaymentAt(d, 1) && PaymentAt(d', 1) == PaymentAt(d, 0);
    } else {
      assert PaymentAt(d', 0) == PaymentAt(d, 0);
      assert PaymentOrder(d);
    }
  }

  lemma {:induction false} ReconcileCount(a: seq<Action>, b: seq<Action>)
    requires |a| == |b|
    requires forall k | 0 <= k < |a| :: a[k].model == b[k].model && a[k].verb == b[k].verb
    ensures |Reconciles(a)| == |Reconciles(b)|
  {
    if a != [] {
      ReconcileCount(a[..|a| - 1], b[..|b| - 1]);
    }
  }

  lemma ReconcilesKept(d: Trace, i: nat, j: nat)
    requires i < j < |d.actions|
    ensures |ReconcilesOf(SwapTimes(d, i, j))| == |ReconcilesOf(d)|
  {
    ReconcileCount(SwapTimes(d, i, j).actions, d.actions);
  }

  // ---------- redirecting a payment's bank line ----------

  /** `next((b for b in permitted if b not in lines), -1)` */
  function OtherLine(permitted: seq<int>, lines: seq<int>): int {
    if permitted == [] then -1
    else if permitted[0] !in lines then permitted[0] else OtherLine(permitted[1..], lines)
  }

  lemma {:induction false} OtherLineDiffers(permitted: seq<int>, b: int)
    ensures (exists x :: x in permitted && x != b) ==> OtherLine(permitted, [b]) != b
    ensures (forall x | x in permitted :: x == b) ==> OtherLine(permitted, [b]) == -1
  {
    if permitted != [] {
      assert permitted == [permitted[0]] + permitted[1..];
      assert permitted[0] in permitted && forall x | x in permitted[1..] :: x in permitted;
      OtherLineDiffers(permitted[1..], b);
    }
  }

  function RedirectFirst(d: Trace): Trace
    requires d.finalPayments != []
  {
    var p := d.finalPayments[0];
    d.(finalPayments := d.finalPayments[0 := p.(statementLines := [OtherLine(d.bankIds, p.statementLines)])])
  }

  lemma FinalAtFirst(payments: seq<FinalPayment>)
    requires payments != []
    requires forall k | 0 < k < |payments| :: payments[k].id != payments[0].id
    ensures FinalById(payments, payments[0].id) == Some(payments[0])
  {
    FinalByIdFound(payments, payments[0].id);
    assert payments[0] in payments;
  }

  /** The payment whose final record is redirected, and what its record said before. */
  lemma RedirectedPayment(d: Trace) returns (k: nat)
    requires Passing(d)
    ensures d.finalPayments != [] && k < |CreatesOf(d)|
    ensures PaymentAt(d, k).id == d.finalPayments[0].id
    ensures d.finalPayments[0].statementLines == [d.bankIds[k]]
    ensures forall m | 0 < m < |d.finalPayments| :: d.finalPayments[m].id != d.finalPayments[0].id
  {
    PairingIsExact(d);
    assert FinalUsed(d, 0);
    k :| 0 <= k < |CreatesOf(d)| && PaymentAt(d, k).id == d.finalPayments[0].id;
    var ids := FinalIdList(d);
    forall m | 0 < m < |d.finalPayments|
      ensures d.finalPayments[m].id != d.finalPayments[0].id
    {
      assert ids[0] != ids[m];
    }
    FinalAtFirst(d.finalPayments);
    assert PaymentPasses(d, k);
  }

  lemma RedirectReadable(d: Trace)
    requires Passing(d) && d.finalPayments != []
    ensures Readable(RedirectFirst(d))
  {
    var d' := RedirectFirst(d);
    forall i | 0 <= i < |CreatesOf(d')|
      ensures ViewAt(d', i).Some?
    {
      var id := PaymentAt(d', i).id;
      assert ViewAt(d, i).Some? && PaymentAt(d, i).id == id;
      FinalByIdFound(d.finalPayments, id);
      FinalByIdFound(d'.finalPayments, id);
      var p :| p in d.finalPayments && p.id == id;
      var m :| 0 <= m < |d.finalPayments| && d.finalPayments[m] == p;
      assert d'.finalPayments[m] in d'.finalPayments;
    }
  }

  /** When redirecting the first final payment makes one payment's bank check fail. */
  lemma RedirectNoticed(d: Trace) returns (k: nat)
    requires Passing(d)
    ensures d.finalPayments != [] && Readable(RedirectFirst(d)) && k < |CreatesOf(d)|
    ensures CreatesOf(RedirectFirst(d)) == CreatesOf(d)
    ensures d.bankIds == [-1] ==> RedirectFirst(d) == d
    ensures d.bankIds != [-1] ==> !BankPairOk(ViewAt(RedirectFirst(d), k).value)
  {
    k := RedirectedPayment(d);
    RedirectReadable(d);
    var d', b := RedirectFirst(d), d.bankIds[k];
    FinalAtFirst(d'.finalPayments);
    assert ViewAt(d', k).value.final.statementLines == [OtherLine(d.bankIds, [b])];
    assert ViewAt(d', k).value.bankId == b;
    OtherLineDiffers(d.bankIds, b);
    if |d.bankIds| == 1 {
      assert d.bankIds == [b];
    } else {
      DistinctIds(d);
      var other := if k == 0 then 1 else 0;
      assert d.bankIds[other] in d.bankIds && d.bankIds[other] != b;
    }
  }

  // ---------- the controls ----------

  /** Some payment's one-to-one bank check is in the table and false. */
  predicate BankCheckFailed(checks: map<Check, bool>) {
    exists c | c in checks :: c.RecordCheck? && c.record == OneToOneBank && !checks[c]
  }

  /** The audit of the trace with the times swapped: rejected on the payment order, or None where the
      report has no such check. */
  method SwapControl(d: Trace, i: nat, j: nat) returns (rejected: Option<bool>)
    requires i < j < |d.actions|
    ensures Passing(d) && OnlyCreates(d.actions, i, j) ==>
              rejected == Some(|CreatesOf(d)| == 2 && !Interchangeable(d))
  {
    var outcome := Audit(SwapTimes(d, i, j));
    if Passing(d) && OnlyCreates(d.actions, i, j) {
      SwapNoticed(d, i, j);
    }
    if outcome.passed {
      return Some(false);
    }
    if OrderOfPayments !in outcome.checks {
      return None;
    }
    return Some(!outcome.checks[OrderOfPayments]);
  }

  /** The audit of the trace with the first final payment redirected. */
  method BankControl(d: Trace) returns (rejected: bool)
    requires d.finalPayments != []
    ensures Passing(d) ==> (rejected <==> d.bankIds != [-1])
  {
    var wrong := RedirectFirst(d);
    var outcome := Audit(wrong);
    rejected := !outcome.passed && BankCheckFailed(outcome.checks);
    if Passing(d) {
      RedirectReported(d, outcome);
    }
  }

  /** What any report on the redirected trace says about the bank check. */
  lemma RedirectReported(d: Trace, report: Report)
    requires Passing(d) && d.finalPayments != []
    ensures Reported(RedirectFirst(d), report) ==>
              (!report.passed && BankCheckFailed(report.checks) <==> d.bankIds != [-1])
  {
    var k := RedirectNoticed(d);
    if Reported(RedirectFirst(d), report) && d.bankIds != [-1] {
      BankCheckReported(RedirectFirst(d), k, report);
    }
  }

  lemma BankCheckReported(d: Trace, k: nat, report: Report)
    requires Readable(d) && k < |CreatesOf(d)| && Reported(d, report)
    requires !BankPairOk(ViewAt(d, k).value)
    ensures !report.passed && BankCheckFailed(report.checks)
  {
    assert PaymentNoted(d, k, report.checks);
    assert Noted(report.checks, RecordCheck(k, OneToOneBank), false);
    assert !report.checks[RecordCheck(k, OneToOneBank)];
  }

  /** `negative_controls`, None where it raises.  On a passing trace the swap is reported as rejected
      exactly if both actions create payments that would not pass for each other, and the redirection
      exactly if the trace's bank lines are not the single line -1, which is the stand-in the
      control itself uses. */
  method NegativeControls(d: Trace) returns (r: Option<Controls>)
    ensures Passing(d) ==> r.Some?
    ensures Passing(d) ==>
              r.value.reversedOrderRejected ==
              if |SentPositions(d.actions)| == 2 then Some(|CreatesOf(d)| == 2 && !Interchangeable(d))
              else None
    ensures Passing(d) ==> (r.value.wrongBankRejected <==> d.bankIds != [-1])
  {
    var sent := SentPositions(d.actions);
    var swap := None;
    if |sent| == 2 {
      TwoSentPositions(d);
      swap := SwapControl(d, sent[0], sent[1]);
      if swap.None? {
        return None;
      }
    }
    if d.finalPayments == [] {
      return None;
    }
    var bank := BankControl(d);
    return Some(Controls(swap, bank));
  }

  lemma TwoSentPositions(d: Trace)
    requires |SentPositions(d.actions)| == 2
    ensures OnlyCreates(d.actions, SentPositions(d.actions)[0], SentPositions(d.actions)[1])
  {
    var sent := SentPositions(d.actions);
    forall k | 0 <= k < |d.actions| && IsCreate(d.actions[k])
      ensures k == sent[0] || k == sent[1]
    {
      assert k in sent;
    }
  }

  /** Amounts a cent apart are never interchangeable; equal amounts always are, so that the first
      control reports a failure of the audit that is none. */
  lemma ApartAmountsAreNoticed(d: Trace)
    requires Passing(d) && |CreatesOf(d)| == 2
    ensures var a := Amounts(d);
            && (a[0] - a[1] >= 0.01 || a[1] - a[0] >= 0.01 ==> !Interchangeable(d))
            && (a[0] == a[1] ==> Interchangeable(d))
  {
    assert Near(PaymentAt(d, 0).amount, Amounts(d)[0]) && Near(PaymentAt(d, 1).amount, Amounts(d)[1]);
  }
}
