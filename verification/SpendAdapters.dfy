/** What the provider adapters of harness/providers/ are in the spend protocol: each attempt is
    a few of its steps, so what is proved of every run holds of runs made of attempts. */
module SpendAdapters {
  import opened Wrappers
  import opened SpendLedger
  import opened SpendProtocol
  import P = Providers

  /** One attempt of an adapter, with the reply it will get. */
  datatype Call = Call(provider: P.PricedProvider, prompt: string, system: string, params: P.Params, reply: P.Reply) {
    /** The reservation the attempt asks for. */
    function Key(): Row {
      provider.Reserved(prompt, system, params)
    }

    function Meaning(): P.Meaning {
      P.MeaningOf(provider.adapter, reply)
    }

    function Cost(): nat {
      provider.BilledCost(reply)
    }

    /** The adapter gets as far as asking for the reservation. */
    predicate Asks() {
      params.model == provider.model && params.maxTokens.Some? && params.maxTokens.value >= 1
    }

    /** The provider bills at most the tokens estimated for the prompt and allowed for the
        answer. */
    predicate WithinEstimates() {
      Meaning().Billed? ==>
        && Meaning().tokensIn <= P.EstimatePromptTokens(prompt, system)
        && params.maxTokens.Some? && Meaning().tokensOut <= params.maxTokens.value
    }

    /** What worker w does with the reply once it holds the reservation. */
    function Rest(w: nat): seq<Step> {
      match Meaning()
      case Fails(_) => [Release(w)]
      case Escapes => [Escape(w)]
      case Billed(_, _, _) => [Bill(w, Cost()), Settle(w)]
    }
  }

  // ----- One attempt on its own -----

  /** Steps taken one after the other by one worker; None when one fails or is not possible. */
  function ApplyAll(cap: int, s: State, steps: seq<Step>): Option<State>
    decreases |steps|
  {
    if steps == [] then Some(s)
    else if !Enabled(s, steps[0]) then None
    else
      var next := Apply(cap, s, steps[0]);
      if next.None? then None else ApplyAll(cap, next.value, steps[1..])
  }

  lemma ApplyOne(cap: int, s: State, step: Step)
    ensures ApplyAll(cap, s, [step]) == if Enabled(s, step) then Apply(cap, s, step) else None
  {
    assert [step][1..] == [];
  }

  lemma ApplyTwo(cap: int, s: State, first: Step, second: Step)
    requires Enabled(s, first) && Apply(cap, s, first).Some?
    ensures ApplyAll(cap, s, [first, second]) == ApplyAll(cap, Apply(cap, s, first).value, [second])
  {
    assert [first, second][1..] == [second];
  }

  function BeginStep(w: nat, c: Call): Step
    requires c.Key().cost >= 0
  {
    Begin(w, c.Key().provider, c.Key().model, c.Key().cost)
  }

  /** An attempt asks for its reservation by the step Begin: it is granted in the one case
      where the adapter gets it, and otherwise nothing changes. */
  lemma BeginIsStep(cap: int, s: State, w: nat, c: Call)
    requires Nonnegative(s.rows) && w < |s.workers| && s.workers[w].phase.Idle? && c.Asks()
    ensures c.Key().cost >= 0
    ensures var error := c.provider.BeginError(s.rows, c.prompt, c.system, c.params, true, cap);
            Apply(cap, s, BeginStep(w, c)) ==
            Some(if error.None?
                 then State(s.rows + [c.Key()], s.workers[w := s.workers[w].(phase := Reserved(c.Key()))], s.orphans,
                            s.overrun)
                 else s)
  {
    hide Committed, P.WorstCaseCost;
  }

  /** With the reservation just granted and nobody else writing, the rest of the attempt leaves
      the row the adapter leaves, the counter it leaves, and an idle worker. */
  lemma RestIsSteps(cap: int, s: State, w: nat, c: Call)
    requires w < |s.workers| && s.workers[w].phase == Reserved(c.Key()) && s.rows != []
    requires s.rows[|s.rows| - 1] == c.Key()
    ensures var before, worker := s.rows[..|s.rows| - 1], s.workers[w];
            var after := ApplyAll(cap, s, c.Rest(w));
            && after.Some?
            && after.value.rows == before + [c.provider.AttemptRow(c.prompt, c.system, c.params, c.reply)]
            && after.value.workers ==
               s.workers[w := Worker(Idle, worker.counter + c.Cost(), worker.settled + c.Cost())]
  {
    hide SettleRows, P.WorstCaseCost, Committed;
    var before, key := s.rows[..|s.rows| - 1], c.Key();
    assert s.rows == before + [key];
    match c.Meaning()
    case Fails(_) =>
      P.SettleOwn(before, key, 0);
      ApplyOne(cap, s, Release(w));
    case Escapes =>
      ApplyOne(cap, s, Escape(w));
    case Billed(_, _, _) =>
      P.SettleOwn(before, key, c.Cost());
      ApplyTwo(cap, s, Bill(w, c.Cost()), Settle(w));
      ApplyOne(cap, Apply(cap, s, Bill(w, c.Cost())).value, Settle(w));
  }

  // ----- Many workers -----

  /** In every reachable state, whatever the others did meanwhile, an adapter's settlement is
      the step Settle: it writes that step's rows and raises nothing but the cap error. */
  lemma SettlementIsStep(cap: int, states: seq<State>, steps: seq<Step>, k: nat, w: nat)
    requires IsRun(cap, states, steps) && k < |states| && Fresh(states[0])
    requires w < |states[k].workers| && Live(states[k].workers[w].phase)
    ensures var s, p := states[k], states[k].workers[w].phase;
            var actual, step := (if p.Billed? then p.actual else 0), (if p.Billed? then Settle(w) else Release(w));
            var after := Apply(cap, s, step);
            && after.Some?
            && P.Settlement(s.rows, p.key, actual, cap) ==
               (after.value.rows, if Committed(after.value.rows) > cap then Some(P.SpendCapError) else None)
  {
    hide Accounted, Committed, Settled, SettleRows, Apply;
    var s, p := states[k], states[k].workers[w].phase;
    var base, bound := Settled(states[0].rows), Max(cap, Committed(states[0].rows));
    var step := if p.Billed? then Settle(w) else Release(w);
    FreshInv(cap, states[0]);
    RunKeepsInv(cap, base, bound, states, steps, k);
    StepKeepsInv(cap, base, bound, s, step);
    SettleRowsOf(cap, s, w);
  }

  lemma SettleRowsOf(cap: int, s: State, w: nat)
    requires w < |s.workers| && Live(s.workers[w].phase)
    ensures var p := s.workers[w].phase;
            var step := if p.Billed? then Settle(w) else Release(w);
            var rows := SettleRows(s.rows, p.key, if p.Billed? then p.actual else 0);
            if rows.None? then Apply(cap, s, step).None?
            else Apply(cap, s, step).Some? && Apply(cap, s, step).value.rows == rows.value
  {
    hide SettleRows;
  }

  function WorkerOf(step: Step): Option<nat> {
    match step
    case Begin(w, _, _, _) => Some(w)
    case Bill(w, _) => Some(w)
    case Settle(w) => Some(w)
    case Release(w) => Some(w)
    case Escape(w) => Some(w)
    case Crash(w) => Some(w)
    case Reconcile => None
  }

  /** The step is one that this attempt takes. */
  predicate IsStepOf(step: Step, c: Call) {
    match step
    case Begin(_, provider, model, amount) => Row(provider, model, amount, true) == c.Key()
    case Bill(_, actual) => c.Meaning().Billed? && actual == c.Cost()
    case Settle(_) => c.Meaning().Billed?
    case Release(_) => c.Meaning().Fails?
    case Escape(_) => c.Meaning().Escapes?
    case _ => true
  }

  /** A schedule made of attempts: call(k, w) is the attempt that worker w is making in state k,
      and every step is one of the attempt its worker is making; a new one starts at Begin. */
  ghost predicate MadeOfAttempts(steps: seq<Step>, call: (nat, nat) -> Call) {
    && (forall k: nat, w: nat :: k < |steps| && !(steps[k].Begin? && steps[k].w == w) ==> call(k + 1, w) == call(k, w))
    && (forall k: nat :: k < |steps| && WorkerOf(steps[k]).Some? ==>
          IsStepOf(steps[k], call(k + 1, WorkerOf(steps[k]).value)))
  }

  /** What a worker holds is what its attempt asked for, and what it is about to settle is what
      its reply bills. */
  ghost predicate HoldsItsCall(worker: Worker, c: Call) {
    match worker.phase
    case Reserved(key) => key == c.Key()
    case Billed(key, actual) => key == c.Key() && c.Meaning().Billed? && actual == c.Cost()
    case _ => true
  }

  ghost predicate AllHoldTheirCalls(s: State, k: nat, call: (nat, nat) -> Call) {
    forall w: nat :: w < |s.workers| ==> HoldsItsCall(s.workers[w], call(k, w))
  }

  lemma StepHolds(cap: int, s: State, step: Step, w: nat, c: Call, c': Call)
    requires Enabled(s, step) && Apply(cap, s, step).Some?
    requires w < |s.workers| && HoldsItsCall(s.workers[w], c)
    requires !(step.Begin? && step.w == w) ==> c' == c
    requires step.Begin? && step.w == w ==> s.workers[w].phase.Idle?
    requires WorkerOf(step) == Some(w) ==> IsStepOf(step, c')
    ensures var after := Apply(cap, s, step).value;
            |after.workers| == |s.workers| && HoldsItsCall(after.workers[w], c')
  {
    hide Committed, SettleRows, OnlySettled;
  }

  lemma {:induction false} RunHolds(cap: int, states: seq<State>, steps: seq<Step>, call: (nat, nat) -> Call, k: nat)
    requires IsRun(cap, states, steps) && k < |states| && Fresh(states[0]) && MadeOfAttempts(steps, call)
    ensures AllHoldTheirCalls(states[k], k, call)
  {
    hide HoldsItsCall, Apply, IsStepOf, WorkerOf;
    if k == 0 {
      forall w: nat | w < |states[0].workers|
        ensures HoldsItsCall(states[0].workers[w], call(0, w))
      {
        IdleHolds(call(0, w));
      }
    } else {
      RunHolds(cap, states, steps, call, k - 1);
      var s, step := states[k - 1], steps[k - 1];
      assert Apply(cap, s, step) == Some(states[k - 1 + 1]);
      SameWorkers(cap, s, step);
      forall w: nat | w < |states[k].workers|
        ensures HoldsItsCall(states[k].workers[w], call(k, w))
      {
        StepHolds(cap, s, step, w, call(k - 1, w), call(k - 1 + 1, w));
      }
    }
  }

  lemma IdleHolds(c: Call)
    ensures HoldsItsCall(Worker(Idle, 0, 0), c)
  {
  }

  lemma SameWorkers(cap: int, s: State, step: Step)
    requires Enabled(s, step) && Apply(cap, s, step).Some?
    ensures |Apply(cap, s, step).value.workers| == |s.workers|
  {
    hide SettleRows, OnlySettled, Committed;
  }

  lemma CostWithin(c: Call)
    requires c.WithinEstimates() && c.Meaning().Billed?
    ensures c.Cost() <= c.Key().cost
  {
    hide P.WorstCaseCost, P.EstimatePromptTokens;
    var m := c.Meaning();
    P.WorstCaseCovers(c.provider.price, c.prompt, c.system, c.params.maxTokens.value, m.tokensIn, m.tokensOut);
  }

  /** Cap safety of the adapters: when every reply bills within the tokens estimated for its
      prompt and allowed for its answer, no interleaving of attempts with crashes, escaping
      exceptions and reconciliations takes committed spend past the cap. */
  lemma AdaptersKeepCap(cap: int, states: seq<State>, steps: seq<Step>, call: (nat, nat) -> Call, k: nat)
    requires IsRun(cap, states, steps) && k < |states| && Fresh(states[0]) && Committed(states[0].rows) <= cap
    requires MadeOfAttempts(steps, call)
    requires forall i: nat, w: nat :: i < |states| ==> call(i, w).WithinEstimates()
    ensures Committed(states[k].rows) <= cap
  {
    hide Apply, HoldsItsCall, MadeOfAttempts, Committed;
    forall i | 0 <= i < |steps| && steps[i].Settle?
      ensures var w := steps[i].w;
              w < |states[i].workers| && states[i].workers[w].phase.Billed? ==>
                states[i].workers[w].phase.actual <= states[i].workers[w].phase.key.cost
    {
      var w := steps[i].w;
      RunHolds(cap, states, steps, call, i);
      if w < |states[i].workers| && states[i].workers[w].phase.Billed? {
        BilledWithin(states[i].workers[w], call(i, w));
      }
    }
    CapIsSafe(cap, states, steps, k);
  }

  lemma BilledWithin(worker: Worker, c: Call)
    requires HoldsItsCall(worker, c) && worker.phase.Billed? && c.WithinEstimates()
    ensures worker.phase.actual <= worker.phase.key.cost
  {
    hide P.WorstCaseCost, P.EstimatePromptTokens;
    CostWithin(c);
  }
}
