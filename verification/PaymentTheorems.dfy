/** What a passing audit guarantees about the run as a whole. */
module PaymentTheorems {
  import opened Wrappers
  import opened Payments
  import Counting

  // ---------- the order of the actions ----------

  /** The actions sent at one moment, in their order. */
  function SentAt(actions: seq<Action>, time: int): seq<Action> {
    if actions == [] then []
    else
      var n := |actions| - 1;
      SentAt(actions[..n], time) + if actions[n].sent == time then [actions[n]] else []
  }

  ghost predicate InOrder(actions: seq<Action>) {
    forall i, j | 0 <= i < j < |actions| :: actions[i].sent <= actions[j].sent
  }

  lemma SentAtStep(actions: seq<Action>, a: Action, time: int)
    ensures SentAt(actions + [a], time) ==
            if a.sent == time then SentAt(actions, time) + [a] else SentAt(actions, time)
  {
    assert (actions + [a])[..|actions|] == actions;
  }

  lemma {:induction false} InsertKeeps(sorted: seq<Action>, a: Action)
    ensures multiset(InsertBySent(sorted, a)) == multiset(sorted) + multiset{a}
  {
    if sorted != [] && sorted[|sorted| - 1].sent > a.sent {
      var front, last := sorted[..|sorted| - 1], sorted[|sorted| - 1];
      InsertKeeps(front, a);
      assert sorted == front + [last];
    }
  }

  lemma {:induction false} InsertOrders(sorted: seq<Action>, a: Action)
    requires InOrder(sorted)
    ensures InOrder(InsertBySent(sorted, a))
  {
    if sorted != [] && sorted[|sorted| - 1].sent > a.sent {
      var front, last := sorted[..|sorted| - 1], sorted[|sorted| - 1];
      var inner := InsertBySent(front, a);
      InsertOrders(front, a);
      InsertKeeps(front, a);
      forall i | 0 <= i < |inner|
        ensures inner[i].sent <= last.sent
      {
        assert inner[i] in multiset(inner);
        assert inner[i] in front || inner[i] == a;
      }
    }
  }

  lemma {:induction false} InsertIsStable(sorted: seq<Action>, a: Action, time: int)
    ensures SentAt(InsertBySent(sorted, a), time) ==
            if a.sent == time then SentAt(sorted, time) + [a] else SentAt(sorted, time)
  {
    if sorted == [] || sorted[|sorted| - 1].sent <= a.sent {
      SentAtStep(sorted, a, time);
    } else {
      var front, last := sorted[..|sorted| - 1], sorted[|sorted| - 1];
      InsertIsStable(front, a, time);
      SentAtStep(InsertBySent(front, a), last, time);
      SentAtStep(front, last, time);
      assert sorted == front + [last];
    }
  }

  /** `creates.sort(key=...)` gives the same actions in order of sending, those sent at one moment in
      the order in which they were logged. */
  lemma {:induction false} SortIsStable(actions: seq<Action>, time: int)
    ensures InOrder(SortBySent(actions))
    ensures multiset(SortBySent(actions)) == multiset(actions)
    ensures SentAt(SortBySent(actions), time) == SentAt(actions, time)
  {
    if actions != [] {
      var front, last := actions[..|actions| - 1], actions[|actions| - 1];
      assert actions == front + [last];
      SortIsStable(front, time);
      InsertKeeps(SortBySent(front), last);
      InsertOrders(SortBySent(front), last);
      InsertIsStable(SortBySent(front), last, time);
      SentAtStep(front, last, time);
    }
  }

  // ---------- one-to-one pairing ----------

  /** The reconcile action the audit pairs with a payment. */
  function MatchOf(d: Trace, i: nat): nat
    requires Passing(d) && i < |CreatesOf(d)|
    ensures MatchOf(d, i) < |ReconcilesOf(d)|
  {
    assert PaymentPasses(d, i);
    MatchesFor(ReconcilesOf(d), ViewAt(d, i).value.payment.id)[0]
  }

  /** The reconcile action matched to a payment names its bank line and comes after it. */
  lemma MatchFacts(d: Trace, i: nat)
    requires Passing(d) && i < |CreatesOf(d)|
    ensures var a := ReconcilesOf(d)[MatchOf(d, i)];
            && a.evidence.ReconcileEvidence?
            && a.evidence.statementLines == [(d.bankIds[i], true)]
            && CreatesOf(d)[i].finished < a.sent
  {
    assert PaymentPasses(d, i);
  }

  /** It is the only one with a line of that payment. */
  lemma MatchIsOnly(d: Trace, i: nat)
    requires Passing(d) && i < |CreatesOf(d)|
    ensures forall k | 0 <= k < |ReconcilesOf(d)| ::
              Touches(ReconcilesOf(d)[k], PaymentAt(d, i).id) <==> k == MatchOf(d, i)
  {
    assert PaymentPasses(d, i);
    var found := MatchesFor(ReconcilesOf(d), PaymentAt(d, i).id);
    assert found == [found[0]];
    assert forall k :: k in found <==> k == found[0];
  }

  function Ids(d: Trace): seq<int>
    requires PaymentsReadable(d)
  {
    seq(|CreatesOf(d)|, i requires 0 <= i < |CreatesOf(d)| => PaymentAt(d, i).id)
  }

  lemma DistinctIds(d: Trace)
    requires Passing(d)
    ensures Counting.NoRepeats(Ids(d)) && Counting.NoRepeats(d.bankIds)
  {
    var ids := Ids(d);
    forall x
      ensures x in PaymentIds(d) <==> x in ids
    {
      if x in PaymentIds(d) {
        var i :| 0 <= i < |CreatesOf(d)| && x == PaymentAt(d, i).id;
        assert ids[i] == x;
      }
    }
    assert Counting.Elements(ids) == PaymentIds(d) && Counting.Elements(d.bankIds) == BankIds(d);
    Counting.ElementsSize(ids);
    Counting.ElementsSize(d.bankIds);
  }

  function FinalIdList(d: Trace): seq<int> {
    seq(|d.finalPayments|, i requires 0 <= i < |d.finalPayments| => d.finalPayments[i].id)
  }

  function BankRowIds(d: Trace): seq<int> {
    seq(|d.bank|, i requires 0 <= i < |d.bank| => d.bank[i].id)
  }

  lemma IdsListed(d: Trace)
    ensures Counting.Elements(FinalIdList(d)) == FinalIds(d)
    ensures Counting.Elements(BankRowIds(d)) == FinalBankIds(d)
  {
    var finals, rows := FinalIdList(d), BankRowIds(d);
    forall p | p in d.finalPayments
      ensures p.id in finals
    {
      var i :| 0 <= i < |finals| && d.finalPayments[i] == p;
      assert finals[i] == p.id;
    }
    forall b | b in d.bank
      ensures b.id in rows
    {
      var i :| 0 <= i < |rows| && d.bank[i] == b;
      assert rows[i] == b.id;
    }
  }

  /** No final payment and no bank line of the final records is listed twice. */
  lemma DistinctFinals(d: Trace)
    requires Passing(d)
    ensures Counting.NoRepeats(FinalIdList(d)) && Counting.NoRepeats(BankRowIds(d))
  {
    IdsListed(d);
    DistinctIds(d);
    Counting.ElementsSize(Ids(d));
    Counting.ElementsSize(FinalIdList(d));
    Counting.ElementsSize(BankRowIds(d));
  }

  /** Payment `i`, bank line `i`, and the reconcile action that pairs them. */
  ghost predicate PairedAt(d: Trace, i: nat)
    requires Passing(d) && i < |CreatesOf(d)|
  {
    var a := ReconcilesOf(d)[MatchOf(d, i)];
    && a.evidence.ReconcileEvidence? && a.evidence.statementLines == [(d.bankIds[i], true)]
    && (forall k | 0 <= k < |ReconcilesOf(d)| && ReconcilesOf(d)[k].evidence.ReconcileEvidence? ::
          Touches(ReconcilesOf(d)[k], PaymentAt(d, i).id) <==> k == MatchOf(d, i))
    && (exists p | p in d.finalPayments :: p.id == PaymentAt(d, i).id && p.statementLines == [d.bankIds[i]])
    && (exists b | b in d.bank :: b.id == d.bankIds[i] && b.reconciled)
  }

  lemma {:induction false} FinalByIdFound(payments: seq<FinalPayment>, id: int)
    ensures FinalById(payments, id).Some? ==>
              FinalById(payments, id).value in payments && FinalById(payments, id).value.id == id
    ensures FinalById(payments, id).None? ==> forall p | p in payments :: p.id != id
  {
    if payments != [] {
      var n := |payments| - 1;
      FinalByIdFound(payments[..n], id);
      assert payments == payments[..n] + [payments[n]];
    }
  }

  lemma {:induction false} BankByIdFound(bank: seq<BankLine>, id: int)
    ensures BankById(bank, id).Some? ==> BankById(bank, id).value in bank && BankById(bank, id).value.id == id
    ensures BankById(bank, id).None? ==> forall b | b in bank :: b.id != id
  {
    if bank != [] {
      var n := |bank| - 1;
      BankByIdFound(bank[..n], id);
      assert bank == bank[..n] + [bank[n]];
    }
  }

  lemma EachPaired(d: Trace, i: nat)
    requires Passing(d) && i < |CreatesOf(d)|
    ensures PairedAt(d, i)
  {
    MatchFacts(d, i);
    MatchIsOnly(d, i);
    assert PaymentPasses(d, i);
    FinalByIdFound(d.finalPayments, PaymentAt(d, i).id);
    BankByIdFound(d.bank, d.bankIds[i]);
  }

  /** Different payments have different ids, bank lines and reconcile actions. */
  ghost predicate Apart(d: Trace, i: nat, j: nat)
    requires Passing(d) && i < |CreatesOf(d)| && j < |CreatesOf(d)|
  {
    && PaymentAt(d, i).id != PaymentAt(d, j).id
    && d.bankIds[i] != d.bankIds[j]
    && MatchOf(d, i) != MatchOf(d, j)
  }

  lemma MatchesApart(d: Trace, i: nat, j: nat)
    requires Passing(d) && i < j < |CreatesOf(d)|
    ensures Apart(d, i, j)
  {
    DistinctIds(d);
    assert Ids(d)[i] != Ids(d)[j] && d.bankIds[i] != d.bankIds[j];
    MatchFacts(d, i);
    MatchFacts(d, j);
    assert [(d.bankIds[i], true)][0] != [(d.bankIds[j], true)][0];
  }

  ghost predicate ReconcileUsed(d: Trace, k: nat)
    requires Passing(d)
  {
    exists i :: 0 <= i < |CreatesOf(d)| && MatchOf(d, i) == k
  }

  ghost predicate FinalUsed(d: Trace, k: nat)
    requires Passing(d) && k < |d.finalPayments|
  {
    exists i :: 0 <= i < |CreatesOf(d)| && PaymentAt(d, i).id == d.finalPayments[k].id
  }

  lemma PaymentsExist(d: Trace)
    requires Passing(d)
    ensures CreatesOf(d) != [] && Creates(d.actions) != [] && d.finalPayments != []
  {
  }

  /** A passing audit forces a one-to-one correspondence between creating actions, payments,
      specified bank lines, final records and reconcile actions, with nothing left over. */
  lemma PairingIsExact(d: Trace)
    requires Passing(d)
    ensures |CreatesOf(d)| > 0
    ensures forall i | 0 <= i < |CreatesOf(d)| :: PairedAt(d, i)
    ensures forall i, j | 0 <= i < j < |CreatesOf(d)| :: Apart(d, i, j)
    ensures forall k | 0 <= k < |ReconcilesOf(d)| :: ReconcileUsed(d, k)
    ensures forall k | 0 <= k < |d.finalPayments| :: FinalUsed(d, k)
    ensures forall k | 0 <= k < |d.bank| :: d.bank[k].id in d.bankIds
    ensures Counting.NoRepeats(FinalIdList(d)) && Counting.NoRepeats(BankRowIds(d))
  {
    forall i | 0 <= i < |CreatesOf(d)|
      ensures PairedAt(d, i)
    {
      EachPaired(d, i);
    }
    forall i, j | 0 <= i < j < |CreatesOf(d)|
      ensures Apart(d, i, j)
    {
      MatchesApart(d, i, j);
    }
    NoneLeftOver(d);
    FinalsCovered(d);
    DistinctFinals(d);
  }

  /** The positions of the reconcile actions, payment by payment. */
  lemma MatchesListed(d: Trace) returns (matches: seq<nat>)
    requires Passing(d)
    ensures |matches| == |CreatesOf(d)| == |ReconcilesOf(d)|
    ensures forall i | 0 <= i < |matches| :: matches[i] == MatchOf(d, i)
    ensures Counting.NoRepeats(matches)
  {
    matches := seq(|CreatesOf(d)|, i requires 0 <= i < |CreatesOf(d)| => MatchOf(d, i));
    forall i, j | 0 <= i < j < |matches|
      ensures matches[i] != matches[j]
    {
      MatchesApart(d, i, j);
    }
  }

  lemma NoneLeftOver(d: Trace)
    requires Passing(d)
    ensures forall k | 0 <= k < |ReconcilesOf(d)| :: ReconcileUsed(d, k)
  {
    var matches := MatchesListed(d);
    assert forall i | 0 <= i < |matches| :: MatchOf(d, i) < |ReconcilesOf(d)|;
    Counting.AllCovered(matches, |matches|);
    forall k | 0 <= k < |ReconcilesOf(d)|
      ensures ReconcileUsed(d, k)
    {
      assert k in matches;
      var i :| 0 <= i < |matches| && matches[i] == k;
      assert MatchOf(d, i) == k;
    }
  }

  lemma FinalsCovered(d: Trace)
    requires Passing(d)
    ensures forall k | 0 <= k < |d.finalPayments| :: FinalUsed(d, k)
    ensures forall k | 0 <= k < |d.bank| :: d.bank[k].id in d.bankIds
  {
    forall k | 0 <= k < |d.finalPayments|
      ensures FinalUsed(d, k)
    {
      assert d.finalPayments[k].id in FinalIds(d);
    }
    forall k | 0 <= k < |d.bank|
      ensures d.bank[k].id in d.bankIds
    {
      assert d.bank[k].id in FinalBankIds(d);
    }
  }

  // ---------- the residual chain ----------

  lemma SumStep(s: seq<real>, i: nat)
    requires i < |s|
    ensures Sum(s[i..]) == s[i] + Sum(s[i + 1..])
  {
    assert s[i..][1..] == s[i + 1..];
  }

  /** How far the running remainder is from the amounts still expected. */
  function Drift(d: Trace, i: nat): real
    requires ReadableUpTo(d, i) && i <= |Amounts(d)|
  {
    Remaining(d, i) - Sum(Amounts(d)[i..])
  }

  /** One payment moves it by less than half a cent. */
  lemma StepDrift(d: Trace, i: nat)
    requires Passing(d) && i < |CreatesOf(d)|
    ensures -0.005 < Drift(d, i + 1) - Drift(d, i) < 0.005
  {
    SumStep(Amounts(d), i);
    assert PaymentPasses(d, i);
    assert Near(ViewAt(d, i).value.reduction, Amounts(d)[i]);
  }

  lemma Widen(i: nat, before: real, after: real)
    requires -0.005 * i as real <= before <= 0.005 * i as real && -0.005 < after - before < 0.005
    ensures -0.005 * (i + 1) as real <= after <= 0.005 * (i + 1) as real
  {
  }

  /** The running remainder drifts from the expected one by less than half a cent per payment. */
  lemma {:induction false} RemainingDrift(d: Trace, i: nat)
    requires Passing(d) && i <= |CreatesOf(d)|
    ensures -0.005 * i as real <= Remaining(d, i) - Sum(Amounts(d)[i..]) <= 0.005 * i as real
  {
    if i == 0 {
      assert Amounts(d)[0..] == Amounts(d);
    } else {
      RemainingDrift(d, i - 1);
      StepDrift(d, i - 1);
      Widen(i - 1, Drift(d, i - 1), Drift(d, i));
    }
  }

  /** Before the k-th payment (counting from one), the invoice's logged residual is within k half
      cents of the sum of the amounts still expected. */
  lemma ResidualBound(d: Trace, i: nat)
    requires Passing(d) && i < |CreatesOf(d)|
    ensures var gap := ViewAt(d, i).value.invoice.residual - Sum(Amounts(d)[i..]);
            -0.005 * (i + 1) as real < gap < 0.005 * (i + 1) as real
  {
    RemainingDrift(d, i);
    assert PaymentPasses(d, i);
  }

  function Reductions(d: Trace, n: nat): real
    requires ReadableUpTo(d, n)
  {
    if n == 0 then 0.0 else Reductions(d, n - 1) + ViewAt(d, n - 1).value.reduction
  }

  lemma {:induction false} RemainingIsDifference(d: Trace, n: nat)
    requires ReadableUpTo(d, n)
    ensures Remaining(d, n) == Sum(Amounts(d)) - Reductions(d, n)
  {
    if n > 0 {
      RemainingIsDifference(d, n - 1);
    }
  }

  /** However many payments there are, the logged reductions add up to the expected total within
      half a cent: the errors of the single steps cannot accumulate. */
  lemma TotalReduced(d: Trace)
    requires Passing(d)
    ensures Near(Sum(Amounts(d)), Reductions(d, |CreatesOf(d)|))
  {
    RemainingIsDifference(d, |CreatesOf(d)|);
  }

  // ---------- time ----------

  /** The payments do not overlap: each is verified before any later one is sent, and its
      reconciliation is sent after it was verified. */
  lemma {:induction false} PaymentsInSequence(d: Trace, i: nat, j: nat)
    requires Passing(d) && i < j < |CreatesOf(d)|
    ensures CreatesOf(d)[i].sent <= CreatesOf(d)[i].finished < CreatesOf(d)[j].sent <= CreatesOf(d)[j].finished
    ensures CreatesOf(d)[i].finished < ReconcilesOf(d)[MatchOf(d, i)].sent
  {
    MatchFacts(d, i);
    assert ActionVerified(d, CreatesOf(d)[i]) && ActionVerified(d, CreatesOf(d)[j]);
    if i + 1 < j {
      PaymentsInSequence(d, i, j - 1);
      assert CreatesOf(d)[j - 1].finished < CreatesOf(d)[(j - 1) + 1].sent;
    } else {
      assert CreatesOf(d)[i].finished < CreatesOf(d)[i + 1].sent;
    }
  }
}
