/** Workers sharing one spend ledger (harness/spend.py, harness/providers/_base.py), as
    interleaved atomic steps.  A worker reserves, adds the actual cost to its own counter,
    then settles or releases; an exception its adapter does not catch makes it go on without
    doing either; it can crash between any two steps.  Reservations left behind can be
    reconciled away. */
module SpendProtocol {
  import opened Wrappers
  import opened SpendLedger

  datatype Phase =
    | Idle
    | Reserved(key: Row)                // begin_call has returned
    | Billed(key: Row, actual: int)     // finish_call has counted the cost, not yet settled it
    | Crashed(held: Option<Row>)        // held: a reservation still in the ledger

  /** A worker: its phase, its cost counter, and how much of that the ledger has settled. */
  datatype Worker = Worker(phase: Phase, counter: int, settled: int)

  /** orphans: reservations left by earlier processes or given up by workers who go on; overrun: the sum of what
      settlements cost beyond their reservations. */
  datatype State = State(rows: seq<Row>, workers: seq<Worker>, orphans: multiset<Row>, overrun: int)

  datatype Step =
    | Begin(w: nat, provider: string, model: string, amount: nat)
    | Bill(w: nat, actual: nat)
    | Settle(w: nat)
    | Release(w: nat)
    | Escape(w: nat)     // the reply is an exception the adapter does not catch
    | Crash(w: nat)
    | Reconcile

  predicate Live(p: Phase) {
    p.Reserved? || p.Billed?
  }

  /** No call is in flight. */
  predicate Quiet(s: State) {
    NoneLive(s.workers)
  }

  predicate Enabled(s: State, step: Step) {
    match step
    case Begin(w, _, _, _) => w < |s.workers| && s.workers[w].phase.Idle?
    case Bill(w, _) => w < |s.workers| && s.workers[w].phase.Reserved?
    case Settle(w) => w < |s.workers| && s.workers[w].phase.Billed?
    case Release(w) => w < |s.workers| && s.workers[w].phase.Reserved?
    case Escape(w) => w < |s.workers| && s.workers[w].phase.Reserved?
    case Crash(w) => w < |s.workers| && !s.workers[w].phase.Crashed?
    case Reconcile => true
  }

  function Over(actual: int, reserved: int): nat {
    if actual > reserved then actual - reserved else 0
  }

  function SetWorker(s: State, w: nat, worker: Worker): State
    requires w < |s.workers|
  {
    s.(workers := s.workers[w := worker])
  }

  /** Settling on behalf of worker w; None when no matching reservation is found. */
  function SettleFor(s: State, w: nat, key: Row, actual: int): Option<State>
    requires w < |s.workers|
  {
    var worker := s.workers[w];
    var rows := SettleRows(s.rows, key, actual);
    if rows.None? then None
    else Some(State(rows.value, s.workers[w := Worker(Idle, worker.counter, worker.settled + actual)], s.orphans,
                    s.overrun + Over(actual, key.cost)))
  }

  function Forget(worker: Worker): Worker {
    if worker.phase.Crashed? then worker.(phase := Crashed(None)) else worker
  }

  /** One atomic step; None is the error "matching spend reservation not found". */
  function Apply(cap: int, s: State, step: Step): Option<State>
    requires Enabled(s, step)
  {
    match step
    case Begin(w, provider, model, amount) =>
      var key := Row(provider, model, amount, true);
      if Committed(s.rows) + amount > cap then Some(s)
      else Some(SetWorker(s, w, s.workers[w].(phase := Reserved(key))).(rows := s.rows + [key]))
    case Bill(w, actual) =>
      var worker := s.workers[w];
      Some(SetWorker(s, w, Worker(Billed(worker.phase.key, actual), worker.counter + actual, worker.settled)))
    case Settle(w) => SettleFor(s, w, s.workers[w].phase.key, s.workers[w].phase.actual)
    case Release(w) => SettleFor(s, w, s.workers[w].phase.key, 0)
    case Escape(w) =>
      var worker := s.workers[w];
      Some(SetWorker(s, w, worker.(phase := Idle)).(orphans := s.orphans + multiset{worker.phase.key}))
    case Crash(w) =>
      var p := s.workers[w].phase;
      Some(SetWorker(s, w, s.workers[w].(phase := Crashed(if p.Idle? then None else Some(p.key)))))
    case Reconcile =>
      Some(s.(rows := OnlySettled(s.rows), orphans := multiset{},
              workers := seq(|s.workers|, w requires 0 <= w < |s.workers| => Forget(s.workers[w]))))
  }

  // ----- Accounting -----

  ghost function HeldBy(p: Phase): multiset<Row> {
    match p
    case Idle => multiset{}
    case Reserved(key) => multiset{key}
    case Billed(key, _) => multiset{key}
    case Crashed(held) => if held.None? then multiset{} else multiset{held.value}
  }

  ghost function Held(workers: seq<Worker>): multiset<Row> {
    if workers == [] then multiset{}
    else Held(workers[..|workers| - 1]) + HeldBy(workers[|workers| - 1].phase)
  }

  function SettledSum(workers: seq<Worker>): int {
    if workers == [] then 0
    else SettledSum(workers[..|workers| - 1]) + workers[|workers| - 1].settled
  }

  lemma HeldLast(workers: seq<Worker>)
    requires workers != []
    ensures Held(workers) == Held(workers[..|workers| - 1]) + HeldBy(workers[|workers| - 1].phase)
    ensures SettledSum(workers) == SettledSum(workers[..|workers| - 1]) + workers[|workers| - 1].settled
  {
  }

  lemma BagExchange(front: multiset<Row>, last: multiset<Row>, mine: multiset<Row>, now: multiset<Row>)
    requires mine <= front
    ensures mine <= front + last && front - mine + now + last == front + last - mine + now
  {
  }

  lemma {:induction false} HeldUpdate(workers: seq<Worker>, w: nat, worker: Worker)
    requires w < |workers|
    ensures HeldBy(workers[w].phase) <= Held(workers)
    ensures Held(workers[w := worker]) == Held(workers) - HeldBy(workers[w].phase) + HeldBy(worker.phase)
    ensures SettledSum(workers[w := worker]) == SettledSum(workers) - workers[w].settled + worker.settled
  {
    hide Held, HeldBy, SettledSum;
    var n, after := |workers| - 1, workers[w := worker];
    HeldLast(workers);
    HeldLast(after);
    if w == n {
      assert after[..n] == workers[..n];
    } else {
      assert after[..n] == workers[..n][w := worker] && after[n] == workers[n];
      HeldUpdate(workers[..n], w, worker);
      BagExchange(Held(workers[..n]), HeldBy(workers[n].phase), HeldBy(workers[w].phase), HeldBy(worker.phase));
    }
  }

  /** What one worker knows: its counter is what was settled plus what it is about to settle. */
  predicate WorkerOk(worker: Worker) {
    match worker.phase
    case Idle => worker.counter == worker.settled
    case Reserved(key) => worker.counter == worker.settled && key.reserved && key.cost >= 0
    case Billed(key, actual) => worker.counter == worker.settled + actual && key.reserved && key.cost >= 0
        && actual >= 0
    case Crashed(held) => held.Some? ==> held.value.reserved && held.value.cost >= 0
  }

  /** The outstanding reservations of the ledger are exactly those held by workers that are
      in flight or crashed, and those given up. */
  ghost predicate Accounted(s: State) {
    Outstanding(s.rows) == Held(s.workers) + s.orphans
  }

  /** The inductive invariant.  base: the settled total before the run; bound: the larger of
      the cap and the committed total before the run. */
  ghost predicate Inv(base: int, bound: int, s: State) {
    && Accounted(s)
    && (forall w :: 0 <= w < |s.workers| ==> WorkerOk(s.workers[w]))
    && Settled(s.rows) == base + SettledSum(s.workers)
    && Nonnegative(s.rows)
    && s.overrun >= 0
    && Committed(s.rows) <= bound + s.overrun
  }

  lemma NonnegativeUpdate(rows: seq<Row>, key: Row, actual: int)
    requires Nonnegative(rows) && actual >= 0 && SettleRows(rows, key, actual).Some?
    ensures Nonnegative(SettleRows(rows, key, actual).value)
  {
  }

  lemma LiveHolds(p: Phase)
    requires Live(p)
    ensures HeldBy(p) == multiset{p.key} && HeldBy(Idle) == multiset{}
  {
  }

  lemma Emptied(held: multiset<Row>, key: Row)
    ensures held - multiset{key} + multiset{} == held - multiset{key}
  {
  }

  /** A worker in flight finds its reservation, and settling it keeps the accounts. */
  lemma SettleAccounted(s: State, w: nat, actual: int)
    requires Accounted(s) && w < |s.workers| && Live(s.workers[w].phase) && s.workers[w].phase.key.reserved
    ensures var r := SettleFor(s, w, s.workers[w].phase.key, actual); r.Some? && Accounted(r.value)
  {
    hide Committed, Settled, Outstanding, Held, HeldBy, SettledSum, SettleRows;
    var key := s.workers[w].phase.key;
    var idle := Worker(Idle, s.workers[w].counter, s.workers[w].settled + actual);
    HeldUpdate(s.workers, w, idle);
    LiveHolds(s.workers[w].phase);
    SettleEffect(s.rows, key, actual);
    BagLess(Held(s.workers), s.orphans, key);
    Emptied(Held(s.workers), key);
  }

  /** Settling never fails to find a match, and keeps the invariant. */
  lemma SettleForOk(base: int, bound: int, s: State, w: nat, actual: int)
    requires Inv(base, bound, s) && w < |s.workers| && actual >= 0
    requires s.workers[w].phase.Reserved? ==> actual == 0
    requires s.workers[w].phase.Billed? ==> actual == s.workers[w].phase.actual
    requires Live(s.workers[w].phase)
    ensures var r := SettleFor(s, w, s.workers[w].phase.key, actual);
            r.Some? && Inv(base, bound, r.value)
  {
    hide Accounted, Committed, Settled, Outstanding, Held, SettledSum, SettleRows, Nonnegative;
    var key := s.workers[w].phase.key;
    SettleAccounted(s, w, actual);
    HeldUpdate(s.workers, w, Worker(Idle, s.workers[w].counter, s.workers[w].settled + actual));
    SettleEffect(s.rows, key, actual);
    NonnegativeUpdate(s.rows, key, actual);
  }

  lemma {:induction false} ForgetKeepsSum(workers: seq<Worker>, after: seq<Worker>)
    requires |after| == |workers| && forall w :: 0 <= w < |workers| ==> after[w] == Forget(workers[w])
    ensures SettledSum(after) == SettledSum(workers)
  {
    if workers != [] {
      ForgetKeepsSum(workers[..|workers| - 1], after[..|workers| - 1]);
    }
  }

  lemma ForgetOne(worker: Worker)
    ensures HeldBy(Forget(worker).phase) == multiset{} <==> !Live(worker.phase)
  {
    if Live(worker.phase) {
      assert worker.phase.key in HeldBy(Forget(worker).phase);
    }
  }

  lemma EmptySum(a: multiset<Row>, b: multiset<Row>)
    ensures a + b == multiset{} <==> a == multiset{} && b == multiset{}
  {
    if a + b == multiset{} {
      assert |a + b| == 0 && |a| == 0 && |b| == 0;
    }
  }

  predicate NoneLive(workers: seq<Worker>) {
    forall w :: 0 <= w < |workers| ==> !Live(workers[w].phase)
  }

  lemma NoneLiveLast(workers: seq<Worker>)
    requires workers != []
    ensures NoneLive(workers) <==> NoneLive(workers[..|workers| - 1]) && !Live(workers[|workers| - 1].phase)
  {
    if NoneLive(workers[..|workers| - 1]) {
      assert forall w :: 0 <= w < |workers| - 1 ==> workers[w] == workers[..|workers| - 1][w];
    }
  }

  lemma NoWorkers()
    ensures Held([]) == multiset{} && NoneLive([])
  {
  }

  lemma {:induction false} ForgetHeld(workers: seq<Worker>, after: seq<Worker>)
    requires |after| == |workers| && forall w :: 0 <= w < |workers| ==> after[w] == Forget(workers[w])
    ensures Held(after) == multiset{} <==> NoneLive(workers)
  {
    hide Held, HeldBy, Live, NoneLive, Forget;
    if workers == [] {
      NoWorkers();
    } else {
      var n := |workers| - 1;
      ForgetOne(workers[n]);
      HeldLast(after);
      NoneLiveLast(workers);
      ForgetHeld(workers[..n], after[..n]);
      EmptySum(Held(after[..n]), HeldBy(after[n].phase));
    }
  }

  /** After reconciling, what is left to account for is what live workers hold. */
  lemma ReconcileAccounts(cap: int, s: State)
    ensures Accounted(Apply(cap, s, Reconcile).value) <==> Quiet(s)
  {
    var after := Apply(cap, s, Reconcile).value;
    ReconcileEffect(s.rows);
    ForgetHeld(s.workers, after.workers);
  }

  /** A worker in flight while the ledger is reconciled can no longer settle. */
  lemma SettleAfterReconcileFails(cap: int, s: State, w: nat, actual: int)
    requires w < |s.workers| && Live(s.workers[w].phase) && s.workers[w].phase.key.reserved
    ensures var after := Apply(cap, s, Reconcile).value;
            after.workers[w] == s.workers[w] && SettleFor(after, w, s.workers[w].phase.key, actual).None?
  {
    hide Outstanding, SettleRows, OnlySettled;
    ReconcileEffect(s.rows);
    SettleEffect(OnlySettled(s.rows), s.workers[w].phase.key, actual);
  }

  lemma {:induction false} SettledAtMostCommitted(rows: seq<Row>)
    requires Nonnegative(rows)
    ensures Settled(rows) <= Committed(rows) && Nonnegative(OnlySettled(rows))
  {
    if rows != [] {
      SettledAtMostCommitted(rows[..|rows| - 1]);
    }
  }

  predicate Allowed(s: State, step: Step) {
    Enabled(s, step) && (step.Reconcile? ==> Quiet(s))
  }

  /** A step that only changes one worker, without changing what it holds or has settled. */
  lemma LocalStepOk(base: int, bound: int, s: State, w: nat, worker: Worker)
    requires Inv(base, bound, s) && w < |s.workers| && WorkerOk(worker)
    requires HeldBy(worker.phase) == HeldBy(s.workers[w].phase) && worker.settled == s.workers[w].settled
    ensures Inv(base, bound, SetWorker(s, w, worker))
  {
    hide Committed, Settled, Outstanding, Held, SettledSum;
    HeldUpdate(s.workers, w, worker);
  }

  lemma BeginOk(cap: int, base: int, bound: int, s: State, step: Step)
    requires Inv(base, bound, s) && cap <= bound && step.Begin? && Enabled(s, step)
    ensures Inv(base, bound, Apply(cap, s, step).value)
  {
    hide Committed, Settled, Outstanding, Held, SettledSum;
    var key := Row(step.provider, step.model, step.amount, true);
    AppendRow(s.rows, key);
    HeldUpdate(s.workers, step.w, s.workers[step.w].(phase := Reserved(key)));
  }

  lemma EscapeOk(cap: int, base: int, bound: int, s: State, step: Step)
    requires Inv(base, bound, s) && step.Escape? && Enabled(s, step)
    ensures Inv(base, bound, Apply(cap, s, step).value)
  {
    hide Committed, Settled, Outstanding, Held, SettledSum;
    var worker := s.workers[step.w];
    HeldUpdate(s.workers, step.w, worker.(phase := Idle));
    BagMove(Held(s.workers), s.orphans, multiset{worker.phase.key});
  }

  lemma BagMove(held: multiset<Row>, orphans: multiset<Row>, key: multiset<Row>)
    requires key <= held
    ensures held + orphans == held - key + (orphans + key) && held - key + multiset{} == held - key
  {
  }

  lemma ReconcileOk(cap: int, base: int, bound: int, s: State)
    requires Inv(base, bound, s) && Quiet(s)
    ensures Inv(base, bound, Apply(cap, s, Reconcile).value)
  {
    hide Committed, Settled, Outstanding, Held, SettledSum, OnlySettled;
    ReconcileAccounts(cap, s);
    ReconcileEffect(s.rows);
    ForgetKeepsSum(s.workers, Apply(cap, s, Reconcile).value.workers);
    SettledAtMostCommitted(s.rows);
  }

  lemma BillOk(cap: int, base: int, bound: int, s: State, step: Step)
    requires Inv(base, bound, s) && step.Bill? && Enabled(s, step)
    ensures Inv(base, bound, Apply(cap, s, step).value)
  {
    hide Inv, Committed;
    var worker := s.workers[step.w];
    InvWorkers(base, bound, s);
    LocalStepOk(base, bound, s, step.w,
                Worker(Billed(worker.phase.key, step.actual), worker.counter + step.actual, worker.settled));
  }

  lemma CrashOk(cap: int, base: int, bound: int, s: State, step: Step)
    requires Inv(base, bound, s) && step.Crash? && Enabled(s, step)
    ensures Inv(base, bound, Apply(cap, s, step).value)
  {
    hide Inv, Committed;
    var p := s.workers[step.w].phase;
    InvWorkers(base, bound, s);
    LocalStepOk(base, bound, s, step.w,
                s.workers[step.w].(phase := Crashed(if p.Idle? then None else Some(p.key))));
  }

  /** Every allowed step succeeds and keeps the invariant. */
  lemma StepKeepsInv(cap: int, base: int, bound: int, s: State, step: Step)
    requires Inv(base, bound, s) && cap <= bound && Allowed(s, step)
    ensures Apply(cap, s, step).Some? && Inv(base, bound, Apply(cap, s, step).value)
  {
    hide Inv, Committed, SettleFor, Quiet, OnlySettled;
    InvWorkers(base, bound, s);
    match step
    case Begin(_, _, _, _) => BeginOk(cap, base, bound, s, step);
    case Bill(_, _) => BillOk(cap, base, bound, s, step);
    case Settle(w) => SettleForOk(base, bound, s, w, s.workers[w].phase.actual);
    case Release(w) => SettleForOk(base, bound, s, w, 0);
    case Escape(_) => EscapeOk(cap, base, bound, s, step);
    case Crash(_) => CrashOk(cap, base, bound, s, step);
    case Reconcile => ReconcileOk(cap, base, bound, s);
  }

  lemma InvWorkers(base: int, bound: int, s: State)
    requires Inv(base, bound, s)
    ensures forall w :: 0 <= w < |s.workers| ==> WorkerOk(s.workers[w])
  {
  }

  // ----- Whole runs -----

  /** The states a schedule visits, each step being allowed where it is taken. */
  ghost predicate IsRun(cap: int, states: seq<State>, steps: seq<Step>) {
    && |states| == |steps| + 1
    && forall k :: 0 <= k < |steps| ==>
          Allowed(states[k], steps[k]) && Apply(cap, states[k], steps[k]) == Some(states[k + 1])
  }

  function Max(a: int, b: int): int {
    if a > b then a else b
  }

  /** No worker has started yet; the ledger may hold settled rows and reservations that
      earlier processes left behind. */
  ghost predicate Fresh(s: State) {
    && Nonnegative(s.rows) && Outstanding(s.rows) == s.orphans && s.overrun == 0
    && forall w :: 0 <= w < |s.workers| ==> s.workers[w] == Worker(Idle, 0, 0)
  }

  lemma {:induction false} FreshSums(workers: seq<Worker>)
    requires forall w :: 0 <= w < |workers| ==> workers[w] == Worker(Idle, 0, 0)
    ensures Held(workers) == multiset{} && SettledSum(workers) == 0
  {
    if workers != [] {
      FreshSums(workers[..|workers| - 1]);
    }
  }

  lemma FreshInv(cap: int, s: State)
    requires Fresh(s)
    ensures Inv(Settled(s.rows), Max(cap, Committed(s.rows)), s)
  {
    FreshSums(s.workers);
  }

  lemma {:induction false} RunKeepsInv(cap: int, base: int, bound: int, states: seq<State>, steps: seq<Step>, k: nat)
    requires IsRun(cap, states, steps) && k < |states| && cap <= bound && Inv(base, bound, states[0])
    ensures Inv(base, bound, states[k])
  {
    if k > 0 {
      RunKeepsInv(cap, base, bound, states, steps, k - 1);
      StepKeepsInv(cap, base, bound, states[k - 1], steps[k - 1]);
    }
  }

  /** In every state of every run the outstanding reservations are those held, and whatever
      allowed step comes next -- any settlement in particular -- does not fail. */
  lemma SettlementsNeverFail(cap: int, states: seq<State>, steps: seq<Step>, k: nat, step: Step)
    requires IsRun(cap, states, steps) && k < |states| && Fresh(states[0])
    requires Allowed(states[k], step)
    ensures Accounted(states[k]) && Apply(cap, states[k], step).Some?
  {
    var base, bound := Settled(states[0].rows), Max(cap, Committed(states[0].rows));
    FreshInv(cap, states[0]);
    RunKeepsInv(cap, base, bound, states, steps, k);
    StepKeepsInv(cap, base, bound, states[k], step);
  }

  /** The ledger's settled total rises by exactly what the workers' counters have settled;
      the counters run ahead only by calls that are billed and not yet settled. */
  lemma CountersMatchLedger(cap: int, states: seq<State>, steps: seq<Step>, k: nat)
    requires IsRun(cap, states, steps) && k < |states| && Fresh(states[0])
    ensures Settled(states[k].rows) - Settled(states[0].rows) == SettledSum(states[k].workers)
    ensures forall w :: 0 <= w < |states[k].workers| && states[k].workers[w].phase.Idle? ==>
              states[k].workers[w].counter == states[k].workers[w].settled
  {
    FreshInv(cap, states[0]);
    RunKeepsInv(cap, Settled(states[0].rows), Max(cap, Committed(states[0].rows)), states, steps, k);
  }

  /** The excess of the committed total over the cap (or over what was committed at the
      start, if that was more) is at most the sum of the overruns. */
  lemma ExcessIsOverrun(cap: int, states: seq<State>, steps: seq<Step>, k: nat)
    requires IsRun(cap, states, steps) && k < |states| && Fresh(states[0])
    ensures Committed(states[k].rows) <= Max(cap, Committed(states[0].rows)) + states[k].overrun
  {
    FreshInv(cap, states[0]);
    RunKeepsInv(cap, Settled(states[0].rows), Max(cap, Committed(states[0].rows)), states, steps, k);
  }

  /** No settlement costs more than was reserved for it. */
  ghost predicate WithinReservations(states: seq<State>, steps: seq<Step>)
    requires |states| == |steps| + 1
  {
    forall k :: 0 <= k < |steps| && steps[k].Settle? ==>
      var w := steps[k].w;
      w < |states[k].workers| && states[k].workers[w].phase.Billed? ==>
        states[k].workers[w].phase.actual <= states[k].workers[w].phase.key.cost
  }

  /** Only a settlement beyond its reservation adds to the overruns. */
  lemma StepOverrun(cap: int, s: State, step: Step)
    requires Enabled(s, step) && Apply(cap, s, step).Some?
    ensures Apply(cap, s, step).value.overrun == s.overrun +
              match step
              case Settle(w) => Over(s.workers[w].phase.actual, s.workers[w].phase.key.cost)
              case Release(w) => Over(0, s.workers[w].phase.key.cost)
              case _ => 0
  {
  }

  lemma {:induction false} NoOverrun(cap: int, base: int, bound: int, states: seq<State>, steps: seq<Step>, k: nat)
    requires IsRun(cap, states, steps) && k < |states| && WithinReservations(states, steps)
    requires cap <= bound && Inv(base, bound, states[0]) && states[0].overrun == 0
    ensures states[k].overrun == 0
  {
    hide Apply, Inv;
    if k > 0 {
      var s, step := states[k - 1], steps[k - 1];
      NoOverrun(cap, base, bound, states, steps, k - 1);
      RunKeepsInv(cap, base, bound, states, steps, k - 1);
      InvWorkers(base, bound, s);
      assert Allowed(s, step) && Apply(cap, s, step) == Some(states[k - 1 + 1]);
      StepOverrun(cap, s, step);
    }
  }

  /** Cap safety: from a ledger under its cap, and with actual costs within reservations,
      committed spend never passes the cap -- crashes and reconciliations included. */
  lemma CapIsSafe(cap: int, states: seq<State>, steps: seq<Step>, k: nat)
    requires IsRun(cap, states, steps) && k < |states| && Fresh(states[0])
    requires Committed(states[0].rows) <= cap && WithinReservations(states, steps)
    ensures Committed(states[k].rows) <= cap
  {
    FreshInv(cap, states[0]);
    NoOverrun(cap, Settled(states[0].rows), cap, states, steps, k);
    ExcessIsOverrun(cap, states, steps, k);
  }

  // ----- Reconciling -----

  /** In every reachable state, reconciling leaves no worker with a settlement that fails
      exactly when no call is in flight. */
  lemma ReconcileSafeIff(cap: int, states: seq<State>, steps: seq<Step>, k: nat)
    requires IsRun(cap, states, steps) && k < |states| && Fresh(states[0])
    ensures var after := Apply(cap, states[k], Reconcile).value;
            Quiet(states[k]) <==> forall step :: Enabled(after, step) ==> Apply(cap, after, step).Some?
  {
    hide Inv, Apply, Committed, Settled;
    var s, base, bound := states[k], Settled(states[0].rows), Max(cap, Committed(states[0].rows));
    FreshInv(cap, states[0]);
    RunKeepsInv(cap, base, bound, states, steps, k);
    InvWorkers(base, bound, s);
    if Quiet(s) {
      QuietReconcile(cap, base, bound, s);
    } else {
      var w: nat :| w < |s.workers| && Live(s.workers[w].phase);
      FailingStep(cap, s, w);
    }
  }

  lemma QuietReconcile(cap: int, base: int, bound: int, s: State)
    requires Inv(base, bound, s) && cap <= bound && Quiet(s)
    ensures var after := Apply(cap, s, Reconcile).value;
            forall step :: Enabled(after, step) ==> Apply(cap, after, step).Some?
  {
    hide Inv, Committed, Settled, SettleFor;
    var after := Apply(cap, s, Reconcile).value;
    StepKeepsInv(cap, base, bound, s, Reconcile);
    assert Quiet(after) by {
      StillQuiet(s.workers, after.workers);
    }
    forall step | Enabled(after, step)
      ensures Apply(cap, after, step).Some?
    {
      StepKeepsInv(cap, base, bound, after, step);
    }
  }

  lemma StillQuiet(workers: seq<Worker>, after: seq<Worker>)
    requires |after| == |workers| && forall w :: 0 <= w < |workers| ==> after[w] == Forget(workers[w])
    requires NoneLive(workers)
    ensures NoneLive(after)
  {
  }

  /** The settlement of a worker in flight is the step that then fails. */
  lemma FailingStep(cap: int, s: State, w: nat)
    requires w < |s.workers| && Live(s.workers[w].phase) && s.workers[w].phase.key.reserved
    ensures var after := Apply(cap, s, Reconcile).value;
            exists step :: Enabled(after, step) && Apply(cap, after, step).None?
  {
    hide SettleFor, OnlySettled;
    var after := Apply(cap, s, Reconcile).value;
    var p := s.workers[w].phase;
    SettleAfterReconcileFails(cap, s, w, if p.Billed? then p.actual else 0);
    var step := if p.Billed? then Settle(w) else Release(w);
    assert Enabled(after, step) && Apply(cap, after, step).None?;
  }

  // ----- Over the cap -----

  /** The committed total is over the cap from state i up to, not including, state j. */
  ghost predicate OverCap(cap: int, states: seq<State>, i: nat, j: nat)
    requires j <= |states|
  {
    forall k :: i <= k < j ==> Committed(states[k].rows) > cap
  }

  /** What one step does to the outstanding reservations: it adds one only by a grant that
      fits under the cap. */
  lemma StepOutstanding(cap: int, s: State, step: Step)
    requires Enabled(s, step) && Apply(cap, s, step).Some?
    requires step.Settle? || step.Release? ==> s.workers[step.w].phase.key.reserved
    ensures var after := Apply(cap, s, step).value;
            || Outstanding(after.rows) <= Outstanding(s.rows)
            || (step.Begin? && Committed(s.rows) + step.amount <= cap && Committed(after.rows) <= cap)
  {
    hide Committed, Outstanding, Settled, OnlySettled, SettleRows;
    match step
    case Begin(w, provider, model, amount) =>
      AppendRow(s.rows, Row(provider, model, amount, true));
    case Settle(w) => SettleEffect(s.rows, s.workers[w].phase.key, s.workers[w].phase.actual);
    case Release(w) => SettleEffect(s.rows, s.workers[w].phase.key, 0);
    case Reconcile => ReconcileEffect(s.rows);
    case _ =>
  }

  /** While the committed total is over the cap no reservation is added, whatever the workers
      do; and right after any grant the total is within the cap. */
  lemma {:induction false} ReserveOnlyUnderCap(cap: int, states: seq<State>, steps: seq<Step>, i: nat, j: nat)
    requires IsRun(cap, states, steps) && i <= j < |states| && Fresh(states[0])
    ensures OverCap(cap, states, i, j) ==> Outstanding(states[j].rows) <= Outstanding(states[i].rows)
    ensures j > 0 && !(Outstanding(states[j].rows) <= Outstanding(states[j - 1].rows)) ==>
            Committed(states[j].rows) <= cap
    decreases j
  {
    hide Inv, Apply, Committed, Settled, Outstanding;
    if j > 0 {
      var base, bound := Settled(states[0].rows), Max(cap, Committed(states[0].rows));
      FreshInv(cap, states[0]);
      RunKeepsInv(cap, base, bound, states, steps, j - 1);
      InvWorkers(base, bound, states[j - 1]);
      assert Apply(cap, states[j - 1], steps[j - 1]) == Some(states[j - 1 + 1]);
      StepOutstanding(cap, states[j - 1], steps[j - 1]);
      if i < j && OverCap(cap, states, i, j) {
        ReserveOnlyUnderCap(cap, states, steps, i, j - 1);
      }
    }
  }
}
