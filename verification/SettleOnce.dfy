/**
  At-least-once delivery of one order without a void request: the guarded settlement transaction,
  the exception patch that follows a failed attempt as a separate, unconditional write, and the
  administrator's re-arm. Every interleaving of these is a run.
 */
module SettleOnce {
  const RECONCILE_RETRY_CAP := 3

  datatype Status = Pending | Settled | Exception

  /** The documents of one order. `failing` counts attempts that threw and have not written their patch yet. */
  datatype Order = Order(status: Status, attempts: nat, adminRetries: nat, canonical: bool, effects: nat, failing: nat)

  /** How the transaction of one attempt ends when its guards let it through. */
  datatype Outcome = Committed | CommittedButReportedFailed | Aborted

  datatype Step =
    | Deliver(payloadPending: bool, sourceValid: bool, outcome: Outcome)
    | WriteException
    | LoseException
    | Retry

  const FRESH := Order(Pending, 0, 0, false, 0, 0)

  // --- the transitions -------------------------------------------------------------------

  /** The settlement transaction: a no-op unless pending; throws if the canonical order exists or the source is bad. */
  function Attempt(o: Order, sourceValid: bool, outcome: Outcome): Order {
    if outcome == Aborted then o.(failing := o.failing + 1)
    else if o.status != Pending then
      if outcome == Committed then o else o.(failing := o.failing + 1)
    else if o.canonical || !sourceValid then o.(failing := o.failing + 1)
    else
      var settled := o.(status := Settled, canonical := true, effects := o.effects + 1);
      if outcome == Committed then settled else settled.(failing := o.failing + 1)
  }

  /** One step; a step whose guard fails changes nothing. */
  function After(o: Order, s: Step): Order {
    match s
    case Deliver(payloadPending, sourceValid, outcome) =>
      if payloadPending then Attempt(o, sourceValid, outcome) else o
    case WriteException =>
      if o.failing == 0 then o
      else o.(status := Exception, attempts := o.attempts + 1, failing := o.failing - 1)
    case LoseException =>
      if o.failing == 0 then o else o.(failing := o.failing - 1)
    case Retry =>
      if o.status != Exception || o.attempts >= RECONCILE_RETRY_CAP then o
      else o.(status := Pending, adminRetries := o.adminRetries + 1)
  }

  /** The delivery that books the order: pending, not booked before, its source in order, and not aborted. */
  ghost predicate Settles(o: Order, s: Step) {
    && s.Deliver? && s.payloadPending && s.sourceValid && s.outcome != Aborted
    && o.status == Pending && !o.canonical
  }

  /** An attempt that ends in the catch block: aborted, reported failed, already booked, or with a bad source. */
  ghost predicate Fails(o: Order, payloadPending: bool, sourceValid: bool, outcome: Outcome) {
    payloadPending && (outcome != Committed || (o.status == Pending && (o.canonical || !sourceValid)))
  }

  function Run(steps: seq<Step>): Order {
    if steps == [] then FRESH else After(Run(steps[..|steps| - 1]), steps[|steps| - 1])
  }

  // --- the documents in place -----------------------------------------------------------------

  datatype RetryResult = ReArmed(attempts: nat) | AlreadySettled | NotException | CapReached

  class OrderDocs {
    var status: Status
    var attempts: nat
    var adminRetries: nat
    var canonical: bool
    var effects: nat
    var failing: nat

    function View(): Order
      reads this
    {
      Order(status, attempts, adminRetries, canonical, effects, failing)
    }

    constructor ()
      ensures View() == FRESH
    {
      status, attempts, adminRetries, canonical, effects, failing := Pending, 0, 0, false, 0, 0;
    }

    /** The body of the transaction; `thrown` when it aborts without a write. */
    method SettleTransaction(sourceValid: bool) returns (thrown: bool)
      modifies this
      ensures old(status) != Pending ==> !thrown && View() == old(View())
      ensures old(status) == Pending ==> (thrown <==> old(canonical) || !sourceValid)
      ensures old(status) == Pending && thrown ==> View() == old(View())
      ensures old(status) == Pending && !thrown ==>
                View() == old(View()).(status := Settled, canonical := true, effects := old(effects) + 1)
    {
      if status != Pending {
        return false;
      }
      if canonical {
        return true;
      }
      if !sourceValid {
        return true;
      }
      canonical, effects, status := true, effects + 1, Settled;
      thrown := false;
    }

    /** `reconcileOnWrite` up to its catch block. */
    method ReconcileOnWrite(payloadPending: bool, sourceValid: bool, outcome: Outcome)
      modifies this
      ensures View() == After(old(View()), Deliver(payloadPending, sourceValid, outcome))
      ensures var settles := Settles(old(View()), Deliver(payloadPending, sourceValid, outcome));
              && (settles ==> status == Settled && canonical && effects == old(effects) + 1)
              && (!settles ==> status == old(status) && canonical == old(canonical) && effects == old(effects))
      ensures attempts == old(attempts) && adminRetries == old(adminRetries)
      ensures failing == old(failing) + if Fails(old(View()), payloadPending, sourceValid, outcome) then 1 else 0
    {
      if !payloadPending {
        return;
      }
      var thrown := outcome == Aborted;
      if !thrown {
        thrown := SettleTransaction(sourceValid);
      }
      if thrown || outcome == CommittedButReportedFailed {
        failing := failing + 1;
      }
    }

    /** The catch block's patch, merged whatever the status has become. */
    method PatchException()
      requires failing > 0
      modifies this
      ensures View() == After(old(View()), WriteException)
      ensures status == Exception && attempts == old(attempts) + 1 && failing == old(failing) - 1
      ensures canonical == old(canonical) && effects == old(effects) && adminRetries == old(adminRetries)
    {
      status, attempts, failing := Exception, attempts + 1, failing - 1;
    }

    method PerformReconcileRetry() returns (r: RetryResult)
      modifies this
      ensures View() == After(old(View()), Retry)
      ensures r.ReArmed? <==> old(status) == Exception && old(attempts) < RECONCILE_RETRY_CAP
      ensures r.AlreadySettled? <==> old(status) == Settled
      ensures r.ReArmed? ==> r.attempts == old(attempts) && adminRetries == old(adminRetries) + 1 && status == Pending
      ensures r.CapReached? <==> old(status) == Exception && old(attempts) >= 3
      ensures !r.ReArmed? ==> View() == old(View())
      ensures effects == old(effects) && canonical == old(canonical) && attempts == old(attempts)
    {
      if status == Settled {
        return AlreadySettled;
      }
      if status != Exception {
        return NotException;
      }
      if attempts >= RECONCILE_RETRY_CAP {
        return CapReached;
      }
      status, adminRetries := Pending, adminRetries + 1;
      return ReArmed(attempts);
    }
  }

  // --- what every run keeps -------------------------------------------------------------------

  ghost predicate Inv(o: Order) {
    && o.effects <= 1
    && (o.canonical <==> o.effects == 1)
    && (o.status == Settled ==> o.canonical)
    && o.adminRetries <= o.attempts
    && (o.status == Exception ==> o.adminRetries < o.attempts)
    && o.adminRetries < RECONCILE_RETRY_CAP
  }

  lemma StepKeepsInv(o: Order, s: Step)
    requires Inv(o)
    ensures Inv(After(o, s))
  {
  }

  lemma {:induction false} RunKeepsInv(steps: seq<Step>)
    ensures Inv(Run(steps))
  {
    if steps != [] {
      RunKeepsInv(steps[..|steps| - 1]);
      StepKeepsInv(Run(steps[..|steps| - 1]), steps[|steps| - 1]);
    }
  }

  /** Stock, credit and canonical documents are written at most once, and a settled order has had its effects. */
  lemma SettledAtMostOnce(steps: seq<Step>)
    ensures Run(steps).effects <= 1
    ensures Run(steps).canonical <==> Run(steps).effects == 1
    ensures Run(steps).status == Settled ==> Run(steps).effects == 1
  {
    RunKeepsInv(steps);
  }

  /** At most `RECONCILE_RETRY_CAP - 1` re-arms ever succeed. */
  lemma ReArmsCapped(steps: seq<Step>)
    ensures Run(steps).adminRetries <= RECONCILE_RETRY_CAP - 1
  {
    RunKeepsInv(steps);
  }

  ghost predicate BooksAt(steps: seq<Step>, i: nat)
    requires i < |steps|
  {
    Settles(Run(steps[..i]), steps[i])
  }

  ghost predicate Booked(steps: seq<Step>) {
    exists i :: 0 <= i < |steps| && BooksAt(steps, i)
  }

  lemma BooksAtFront(steps: seq<Step>, i: nat)
    requires i < |steps| - 1
    ensures BooksAt(steps, i) <==> BooksAt(steps[..|steps| - 1], i)
  {
    assert steps[..|steps| - 1][..i] == steps[..i];
  }

  lemma BookedFront(steps: seq<Step>)
    requires steps != []
    ensures Booked(steps) <==> Booked(steps[..|steps| - 1]) || BooksAt(steps, |steps| - 1)
  {
    var front := steps[..|steps| - 1];
    if Booked(steps) {
      var i :| 0 <= i < |steps| && BooksAt(steps, i);
      if i < |front| {
        BooksAtFront(steps, i);
      }
    }
    if Booked(front) {
      var i :| 0 <= i < |front| && BooksAt(front, i);
      BooksAtFront(steps, i);
    }
  }

  /** The effects are in place exactly when some delivery of the run was one that books. */
  lemma {:induction false} EffectsIff(steps: seq<Step>)
    ensures Run(steps).effects == 1 <==> Booked(steps)
  {
    if steps != [] {
      var n := |steps| - 1;
      RunKeepsInv(steps[..n]);
      RunKeepsInv(steps);
      EffectsIff(steps[..n]);
      BookedFront(steps);
      StepSettles(Run(steps[..n]), steps[n]);
    }
  }

  lemma StepSettles(o: Order, s: Step)
    ensures After(o, s).effects == o.effects + if Settles(o, s) then 1 else 0
    ensures Settles(o, s) ==> After(o, s).status == Settled && After(o, s).canonical
  {
  }

  /** An order whose source is never in order is never booked, however often it is delivered or re-armed. */
  lemma InvalidNeverBooked(steps: seq<Step>)
    requires forall i :: 0 <= i < |steps| && steps[i].Deliver? ==> !steps[i].sourceValid
    ensures Run(steps).effects == 0 && !Run(steps).canonical && Run(steps).status != Settled
  {
    EffectsIff(steps);
    RunKeepsInv(steps);
  }

  // --- when the status tells the truth ----------------------------------------------------------

  /** Exception patches that land after the settlement committed. */
  function LatePatches(steps: seq<Step>): nat {
    if steps == [] then 0
    else
      var front, s := steps[..|steps| - 1], steps[|steps| - 1];
      LatePatches(front) + if s.WriteException? && Run(front).failing > 0 && Run(front).effects == 1 then 1 else 0
  }

  /** An order whose effects are in place reads settled exactly as long as no exception patch landed late. */
  lemma {:induction false} StatusAfterEffects(steps: seq<Step>)
    ensures Run(steps).effects == 1 ==> (Run(steps).status == Settled <==> LatePatches(steps) == 0)
    ensures Run(steps).effects == 0 ==> LatePatches(steps) == 0
  {
    if steps != [] {
      StatusAfterEffects(steps[..|steps| - 1]);
      RunKeepsInv(steps[..|steps| - 1]);
    }
  }

  /** Once it reads otherwise, no delivery and no retry ever makes it read settled again. */
  lemma {:induction false} NeverSettledAgain(steps: seq<Step>, more: seq<Step>)
    requires Run(steps).canonical && Run(steps).status != Settled
    ensures Run(steps + more).canonical && Run(steps + more).status != Settled
  {
    if more == [] {
      assert steps + more == steps;
    } else {
      assert (steps + more)[..|steps + more| - 1] == steps + more[..|more| - 1];
      NeverSettledAgain(steps, more[..|more| - 1]);
    }
  }

  /** A duplicate delivery that failed early can mark a settled order as an exception. */
  lemma LatePatchHappens()
    ensures exists steps: seq<Step> :: Run(steps).effects == 1 && Run(steps).status == Exception
  {
    var a, b, c := Deliver(true, true, Aborted), Deliver(true, true, Committed), WriteException;
    ThreeSteps([], a, b, c);
    assert Run([] + [a]) == Order(Pending, 0, 0, false, 0, 1);
    assert Run([] + [a, b]) == Order(Settled, 0, 0, true, 1, 1);
    assert Run([] + [a, b, c]) == Order(Exception, 1, 0, true, 1, 0);
  }

  lemma RunSnoc(steps: seq<Step>, s: Step)
    ensures Run(steps + [s]) == After(Run(steps), s)
  {
    assert (steps + [s])[..|steps|] == steps;
  }

  lemma ThreeSteps(steps: seq<Step>, a: Step, b: Step, c: Step)
    ensures Run(steps + [a]) == After(Run(steps), a)
    ensures Run(steps + [a, b]) == After(Run(steps + [a]), b)
    ensures Run(steps + [a, b, c]) == After(Run(steps + [a, b]), c)
  {
    RunSnoc(steps, a);
    RunSnoc(steps + [a], b);
    RunSnoc(steps + [a, b], c);
    assert steps + [a] + [b] == steps + [a, b] && steps + [a, b] + [c] == steps + [a, b, c];
  }

  /** The re-arm cap is reached, so it cannot be lowered. */
  lemma CapIsReached()
    ensures exists steps: seq<Step> :: Run(steps).adminRetries == RECONCILE_RETRY_CAP - 1
  {
    var d, w, r := Deliver(true, false, Committed), WriteException, Retry;
    ThreeSteps([], d, w, r);
    assert [] + [d, w, r] == [d, w, r];
    assert Run([d, w, r]) == Order(Pending, 1, 1, false, 0, 0);
    ThreeSteps([d, w, r], d, w, r);
    assert Run([d, w, r] + [d, w]) == Order(Exception, 2, 1, false, 0, 0);
    assert Run([d, w, r] + [d, w, r]).adminRetries == 2;
  }
}
