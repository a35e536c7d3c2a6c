/** The priced provider adapters of harness/providers/: one API attempt with its reservation,
    and the bounded retry around it. */
module Providers {
  import opened Wrappers
  import opened Text
  import opened SpendLedger

  // ----- Pricing -----

  /** Price per token, in units of 1e-8 USD, which makes every pinned price an integer. */
  datatype Price = Price(input: nat, output: nat) {
    function Cost(tokensIn: nat, tokensOut: nat): nat {
      tokensIn * input + tokensOut * output
    }
  }

  function Utf8Size(s: string): nat {
    if s == [] then 0
    else
      var c := s[0] as int;
      (if c < 0x80 then 1 else if c < 0x800 then 2 else if c < 0x1_0000 then 3 else 4) + Utf8Size(s[1..])
  }

  function EstimatePromptTokens(prompt: string, system: string): nat {
    Utf8Size(prompt) + Utf8Size(system) + 64
  }

  function WorstCaseCost(price: Price, prompt: string, system: string, maxTokens: nat): nat {
    price.Cost(EstimatePromptTokens(prompt, system), maxTokens)
  }

  /** A call that stays within its token estimates costs at most what was reserved for it. */
  lemma WorstCaseCovers(price: Price, prompt: string, system: string, maxTokens: nat, tokensIn: nat, tokensOut: nat)
    requires tokensIn <= EstimatePromptTokens(prompt, system) && tokensOut <= maxTokens
    ensures price.Cost(tokensIn, tokensOut) <= WorstCaseCost(price, prompt, system, maxTokens)
  {
    Monotone(tokensIn, EstimatePromptTokens(prompt, system), price.input);
    Monotone(tokensOut, maxTokens, price.output);
  }

  lemma Monotone(a: nat, b: nat, c: nat)
    requires a <= b
    ensures a * c <= b * c
  {
    assert b * c == a * c + (b - a) * c;
  }

  /** The estimate counts at least one token per character. */
  lemma {:induction false} OneTokenPerCharacter(s: string)
    ensures |s| <= Utf8Size(s) <= 4 * |s|
  {
    if s != [] {
      OneTokenPerCharacter(s[1..]);
    }
  }

  // ----- Replies -----

  /** Numbers the reply gives; None when missing or not an integer. */
  datatype Usage = Usage(input: Option<int>, output: Option<int>)

  datatype Block = TextBlock(text: string) | OtherBlock

  datatype Content = Null | NotText | Words(text: string)

  datatype Choice = Choice(finish: Option<string>, message: Option<Content>)

  /** What the HTTP call gives back.  None stands for a field of the wrong shape.  Escaped is
      an exception that is neither a provider error nor a ValueError, such as a server that
      closes the connection without answering: no adapter catches it. */
  datatype Reply =
    | TransportFailed(retryable: bool)
    | Escaped
    | AnthropicBody(blocks: Option<seq<Block>>, usage: Option<Usage>, stop: Option<string>)
    | OpenAIBody(choices: Option<seq<Option<Choice>>>, usage: Option<Usage>)

  datatype Error =
    | ValueError
    | HttpError
    | RetryableError
    | SpendCapError
    | RuntimeError
    | Unhandled

  datatype Result = Text(text: string) | Raised(error: Error)

  /** How a reply is read: an error that releases the reservation, an exception that leaves it
      alone, or usage to settle and the text that came with it (blank text is billed and then
      retried). */
  datatype Meaning = Fails(error: Error) | Escapes | Billed(tokensIn: nat, tokensOut: nat, text: string)

  function Joined(blocks: seq<Block>): string {
    if blocks == [] then ""
    else (if blocks[0].TextBlock? then blocks[0].text else "") + Joined(blocks[1..])
  }

  /** Both counts are there and not negative. */
  predicate Countable(usage: Option<Usage>) {
    && usage.Some? && usage.value.input.Some? && usage.value.output.Some?
    && usage.value.input.value >= 0 && usage.value.output.value >= 0
  }

  /** The text of the first choice, if it has one. */
  function FirstText(choices: Option<seq<Option<Choice>>>): string {
    if choices.Some? && choices.value != [] && choices.value[0].Some? && choices.value[0].value.message.Some?
       && choices.value[0].value.message.value.Words?
    then choices.value[0].value.message.value.text
    else ""
  }

  /** The text of an Anthropic reply: its text blocks one after the other. */
  lemma {:induction false} JoinedIs(a: seq<Block>, b: seq<Block>)
    ensures Joined(a + b) == Joined(a) + Joined(b)
    ensures forall text :: Joined([TextBlock(text)]) == text
    ensures Joined([]) == "" && Joined([OtherBlock]) == ""
  {
    if a == [] {
      assert a + b == b;
    } else {
      JoinedIs(a[1..], b);
      assert (a + b)[1..] == a[1..] + b;
    }
  }

  lemma EmptyIsBlank()
    ensures Strip("") == ""
  {
  }

  function ReadUsage(usage: Option<Usage>, text: string): Meaning {
    if usage.None? then Fails(ValueError)
    else
      match (usage.value.input, usage.value.output)
      case (Some(i), Some(o)) => if i < 0 || o < 0 then Fails(ValueError) else Billed(i, o, text)
      case _ => Fails(ValueError)
  }

  function AnthropicMeaning(reply: Reply): Meaning {
    match reply
    case TransportFailed(retryable) => Fails(if retryable then RetryableError else HttpError)
    case Escaped => Escapes
    case OpenAIBody(_, _) => Fails(ValueError)
    case AnthropicBody(blocks, usage, _) =>
      if blocks.None? then Fails(ValueError) else ReadUsage(usage, Joined(blocks.value))
  }

  function OpenAIMeaning(reply: Reply): Meaning {
    match reply
    case TransportFailed(retryable) => Fails(if retryable then RetryableError else HttpError)
    case Escaped => Escapes
    case AnthropicBody(_, _, _) => Fails(ValueError)
    case OpenAIBody(choices, usage) =>
      if choices.None? then Fails(ValueError)
      else if choices.value == [] then ReadUsage(usage, "")
      else if choices.value[0].None? || choices.value[0].value.message.None? then Fails(ValueError)
      else
        match choices.value[0].value.message.value
        case Null => ReadUsage(usage, "")
        case NotText => Fails(ValueError)
        case Words(text) => ReadUsage(usage, if Strip(text) == "" then "" else text)
  }

  datatype Adapter = Anthropic | OpenAI

  function MeaningOf(adapter: Adapter, reply: Reply): Meaning {
    if adapter.Anthropic? then AnthropicMeaning(reply) else OpenAIMeaning(reply)
  }

  /** The finish reason after an attempt: the adapters record it at different moments. */
  function FinishAfter(adapter: Adapter, previous: Option<string>, reply: Reply): Option<string> {
    match reply
    case TransportFailed(_) => previous
    case Escaped => previous
    case AnthropicBody(_, _, stop) =>
      if adapter.Anthropic? && AnthropicMeaning(reply).Billed? then stop else previous
    case OpenAIBody(choices, _) =>
      if adapter.Anthropic? || choices.None? then previous
      else if choices.value == [] then None
      else if choices.value[0].None? then previous
      else choices.value[0].value.finish
  }

  datatype Params = Params(model: string, maxTokens: Option<int>)

  /** With nobody else writing, a settlement finds the row its own call just appended. */
  lemma SettleOwn(rows: seq<Row>, key: Row, actual: int)
    ensures SettleRows(rows + [key], key, actual) == Some(rows + [SettledRow(key, actual)])
    ensures Committed(rows + [SettledRow(key, actual)]) == Committed(rows) + actual
  {
    AppendRow(rows, SettledRow(key, actual));
    assert (rows + [key])[|rows| := SettledRow(key, actual)] == rows + [SettledRow(key, actual)];
  }

  /** The rows after a settlement and the error it raises: a bad ledger or no match changes
      nothing; a passed cap is reported after the row is saved. */
  function Settlement(rows: seq<Row>, key: Row, actual: int, cap: int): (seq<Row>, Option<Error>) {
    var after := SettleRows(rows, key, actual);
    if !SettledNonnegative(rows) || after.None? || !Nonnegative(after.value) then (rows, Some(ValueError))
    else (after.value, if Committed(after.value) > cap then Some(SpendCapError) else None)
  }

  /** So a call's own settlement succeeds, up to the cap. */
  lemma OwnSettlement(rows: seq<Row>, key: Row, actual: nat, cap: int)
    requires Nonnegative(rows) && key.reserved && key.cost >= 0
    ensures Settlement(rows + [key], key, actual, cap) ==
            (rows + [SettledRow(key, actual)], if Committed(rows) + actual > cap then Some(SpendCapError) else None)
  {
    hide SettleRows, Committed;
    SettleOwn(rows, key, actual);
  }

  // ----- One adapter -----

  class PricedProvider {
    const adapter: Adapter
    const name: string
    const model: string
    const price: Price
    const ledger: Ledger
    var tokensIn: nat
    var tokensOut: nat
    var costUsd: nat
    var lastFinish: Option<string>

    constructor (adapter: Adapter, name: string, model: string, price: Price, ledger: Ledger)
      ensures this.adapter == adapter && this.name == name && this.model == model
      ensures this.price == price && this.ledger == ledger
      ensures tokensIn == tokensOut == costUsd == 0 && lastFinish == None
    {
      this.adapter, this.name, this.model, this.price, this.ledger := adapter, name, model, price, ledger;
      tokensIn, tokensOut, costUsd, lastFinish := 0, 0, 0, None;
    }

    /** Why begin_call refuses, before or at the reservation. */
    function BeginError(runs: seq<Row>, prompt: string, system: string, params: Params, key: bool,
                        cap: int): Option<Error> {
      if params.model != model then Some(ValueError)
      else if params.maxTokens.None? || params.maxTokens.value < 1 then Some(ValueError)
      else if !key then Some(RuntimeError)
      else if !Nonnegative(runs) then Some(ValueError)
      else if Committed(runs) + WorstCaseCost(price, prompt, system, params.maxTokens.value) > cap
           then Some(SpendCapError)
      else None
    }

    method BeginCall(prompt: string, system: string, params: Params, key: bool, cap: int)
      returns (error: Option<Error>, reserved: nat)
      modifies ledger
      ensures error == BeginError(old(ledger.runs), prompt, system, params, key, cap)
      ensures error.Some? ==> ledger.runs == old(ledger.runs)
      ensures error.None? ==>
                && reserved == WorstCaseCost(price, prompt, system, params.maxTokens.value)
                && ledger.runs == old(ledger.runs) + [Row(name, model, reserved, true)]
    {
      reserved := 0;
      if params.model != model || params.maxTokens.None? || params.maxTokens.value < 1 {
        return Some(ValueError), 0;
      }
      if !key {
        return Some(RuntimeError), 0;
      }
      reserved := WorstCaseCost(price, prompt, system, params.maxTokens.value);
      var o := ledger.Reserve(reserved, name, model, cap, true);
      match o
      case Done => error := None;
      case CapExceeded(_) => error := Some(SpendCapError);
      case _ => error := Some(ValueError);
    }

    /** Counts the cost, then settles it.  The counters move even if settling then raises. */
    method FinishCall(reserved: nat, usedIn: nat, usedOut: nat, cap: int) returns (error: Option<Error>)
      modifies this, ledger
      ensures tokensIn == old(tokensIn) + usedIn && tokensOut == old(tokensOut) + usedOut
      ensures costUsd == old(costUsd) + price.Cost(usedIn, usedOut) && lastFinish == old(lastFinish)
      ensures (ledger.runs, error) == Settlement(old(ledger.runs), Row(name, model, reserved, true),
                                                 price.Cost(usedIn, usedOut), cap)
    {
      var actual := price.Cost(usedIn, usedOut);
      tokensIn, tokensOut, costUsd := tokensIn + usedIn, tokensOut + usedOut, costUsd + actual;
      var o := ledger.Settle(reserved, actual, name, model, cap);
      match o
      case Done => error := None;
      case CapExceeded(_) => error := Some(SpendCapError);
      case _ => error := Some(ValueError);
    }

    method ReleaseCall(reserved: nat, cap: int) returns (error: Option<Error>)
      modifies ledger
      ensures (ledger.runs, error) == Settlement(old(ledger.runs), Row(name, model, reserved, true), 0, cap)
    {
      var o := ledger.Settle(reserved, 0, name, model, cap);
      match o
      case Done => error := None;
      case CapExceeded(_) => error := Some(SpendCapError);
      case _ => error := Some(ValueError);
    }

    /** How both adapters end an attempt: a failure releases the reservation and is raised;
        usage is settled, and blank text is then raised as retryable. */
    method Conclude(reserved: nat, failure: Option<Error>, usedIn: nat, usedOut: nat, text: string, cap: int,
                    ghost before: seq<Row>)
      returns (r: Result)
      requires ledger.runs == before + [Row(name, model, reserved, true)]
      requires Nonnegative(before) && Committed(before) + reserved <= cap
      modifies this, ledger
      ensures var cost := if failure.Some? then 0 else price.Cost(usedIn, usedOut);
              && ledger.runs == before + [Row(name, model, cost, false)]
              && costUsd == old(costUsd) + cost
      ensures tokensIn == old(tokensIn) + (if failure.Some? then 0 else usedIn)
      ensures tokensOut == old(tokensOut) + (if failure.Some? then 0 else usedOut)
      ensures lastFinish == old(lastFinish)
      ensures r == if failure.Some? then Raised(failure.value)
                   else if Committed(ledger.runs) > cap then Raised(SpendCapError)
                   else if Strip(text) == "" then Raised(RetryableError)
                   else Text(text)
    {
      hide Settlement, Committed, Nonnegative, Strip;
      var error;
      ghost var cost := if failure.Some? then 0 else price.Cost(usedIn, usedOut);
      OwnSettlement(before, Row(name, model, reserved, true), cost, cap);
      AppendRow(before, Row(name, model, cost, false));
      if failure.Some? {
        error := ReleaseCall(reserved, cap);
        r := Raised(if error.Some? then error.value else failure.value);
      } else {
        error := FinishCall(reserved, usedIn, usedOut, cap);
        r := if error.Some? then Raised(error.value)
             else if Strip(text) == "" then Raised(RetryableError)
             else Text(text);
      }
    }

    /** The cost a reply is billed at; zero when its reservation is released. */
    function BilledCost(reply: Reply): nat {
      var m := MeaningOf(adapter, reply);
      if m.Billed? then price.Cost(m.tokensIn, m.tokensOut) else 0
    }

    /** The reservation of a call. */
    function Reserved(prompt: string, system: string, params: Params): Row {
      var limit := params.maxTokens.UnwrapOr(0);
      Row(name, model, WorstCaseCost(price, prompt, system, if limit < 0 then 0 else limit), true)
    }

    /** The one row that an attempt which reserved leaves behind. */
    function AttemptRow(prompt: string, system: string, params: Params, reply: Reply): Row {
      if MeaningOf(adapter, reply).Escapes? then Reserved(prompt, system, params)
      else Row(name, model, BilledCost(reply), false)
    }

    /** An attempt that reserved leaves its reservation outstanding exactly when its reply is an
        exception the adapter does not catch. */
    lemma LeaksIff(rows: seq<Row>, prompt: string, system: string, params: Params, reply: Reply)
      ensures var after := rows + [AttemptRow(prompt, system, params, reply)];
              && (Outstanding(after) == Outstanding(rows) <==> !reply.Escaped?)
              && (reply.Escaped? ==>
                    Outstanding(after) == Outstanding(rows) + multiset{Reserved(prompt, system, params)})
    {
      hide Outstanding, Committed, Settled, Joined, Strip, WorstCaseCost;
      var row := AttemptRow(prompt, system, params, reply);
      AppendRow(rows, row);
      if reply.Escaped? {
        assert |Outstanding(rows) + multiset{row}| == |Outstanding(rows)| + 1;
      }
    }

    // ----- Which replies are billed, and at what -----

    /** The cost of a reply's usage, when it states one; for a reply that is not billed, 0. */
    ghost function Charge(billed: bool, usage: Option<Usage>): nat
      requires billed ==> Countable(usage)
    {
      if billed then usage.value.input.value * price.input + usage.value.output.value * price.output else 0
    }

    /** What an attempt that reserved leaves behind and returns: one settled row of the charge,
        counters raised by the usage it was charged for, and the text, an error for blank text,
        or the error it failed with. */
    ghost predicate SettlesAs(prompt: string, system: string, params: Params, reply: Reply, billed: bool,
                              usage: Option<Usage>, text: string, failure: Error)
    {
      && (billed ==> Countable(usage))
      && AttemptRow(prompt, system, params, reply) == Row(name, model, Charge(billed, usage), false)
      && BilledCost(reply) == Charge(billed, usage)
      && (MeaningOf(adapter, reply).Billed? <==> billed)
      && (billed ==> MeaningOf(adapter, reply).tokensIn == usage.value.input.value
                     && MeaningOf(adapter, reply).tokensOut == usage.value.output.value)
      && forall committed, cap :: AttemptResult(reply, committed, cap) ==
           if !billed then Raised(failure)
           else if committed > cap then Raised(SpendCapError)
           else if Strip(text) == "" then Raised(RetryableError)
           else Text(text)
    }

    /** An Anthropic reply that does not escape is billed exactly when its content is a list and
        its usage is there and not negative; every other one releases the reservation at zero. */
    lemma AnthropicBilling(prompt: string, system: string, params: Params, reply: Reply)
      requires adapter.Anthropic? && !reply.Escaped?
      ensures reply.TransportFailed? ==>
                SettlesAs(prompt, system, params, reply, false, None, "",
                          if reply.retryable then RetryableError else HttpError)
      ensures reply.AnthropicBody? ==>
                SettlesAs(prompt, system, params, reply, reply.blocks.Some? && Countable(reply.usage), reply.usage,
                          if reply.blocks.Some? then Joined(reply.blocks.value) else "", ValueError)
      ensures reply.AnthropicBody? ==> forall previous ::
                FinishAfter(adapter, previous, reply) ==
                if reply.blocks.Some? && Countable(reply.usage) then reply.stop else previous
    {
      hide Joined, Strip, WorstCaseCost;
    }

    /** An OpenAI reply that does not escape is billed exactly when its usage is there and not
        negative and its choices are empty or its first choice has a message that is null or
        text; every other one releases the reservation at zero.  Blank text counts as none. */
    lemma OpenAIBilling(prompt: string, system: string, params: Params, reply: Reply)
      requires adapter.OpenAI? && !reply.Escaped?
      ensures reply.TransportFailed? ==>
                SettlesAs(prompt, system, params, reply, false, None, "",
                          if reply.retryable then RetryableError else HttpError)
      ensures reply.OpenAIBody? ==>
                SettlesAs(prompt, system, params, reply,
                          Countable(reply.usage) && reply.choices.Some? &&
                          (reply.choices.value == [] ||
                           (reply.choices.value[0].Some? && reply.choices.value[0].value.message.Some? &&
                            !reply.choices.value[0].value.message.value.NotText?)),
                          reply.usage, FirstText(reply.choices), ValueError)
      ensures reply.OpenAIBody? && reply.choices.Some? ==> forall previous ::
                FinishAfter(adapter, previous, reply) ==
                if reply.choices.value == [] then None
                else if reply.choices.value[0].Some? then reply.choices.value[0].value.finish
                else previous
    {
      hide Strip, WorstCaseCost;
      EmptyIsBlank();
    }

    /** An attempt is worth another only after a transport failure that may pass, or a reply that
        was billed within the cap and came back blank. */
    lemma RetriedIff(reply: Reply, committed: int, cap: int)
      ensures AttemptResult(reply, committed, cap) == Raised(RetryableError) <==>
              || reply == TransportFailed(true)
              || (MeaningOf(adapter, reply).Billed? && committed <= cap && Strip(MeaningOf(adapter, reply).text) == "")
    {
      hide Strip, Joined;
    }

    /** A call is granted its reservation exactly when the model is the adapter's, the limit is
        positive, the key is there, the ledger is sound, and one token per byte of prompt and
        system text, 64 more, and the whole limit would still fit under the cap. */
    lemma GrantedIff(runs: seq<Row>, prompt: string, system: string, params: Params, key: bool, cap: int)
      ensures BeginError(runs, prompt, system, params, key, cap).None? <==>
              && params.model == model && params.maxTokens.Some? && params.maxTokens.value >= 1
              && key && Nonnegative(runs)
              && Committed(runs) + (Utf8Size(prompt) + Utf8Size(system) + 64) * price.input
                 + params.maxTokens.value * price.output <= cap
      ensures params.maxTokens.Some? && params.maxTokens.value >= 0 ==>
                Reserved(prompt, system, params) ==
                Row(name, model, (Utf8Size(prompt) + Utf8Size(system) + 64) * price.input
                                 + params.maxTokens.value * price.output, true)
    {
      hide Utf8Size, Committed;
    }

    /** What one attempt returns, given the rows after it. */
    function AttemptResult(reply: Reply, committed: int, cap: int): Result {
      match MeaningOf(adapter, reply)
      case Fails(error) => Raised(error)
      case Escapes => Raised(Unhandled)
      case Billed(_, _, text) =>
        if committed > cap then Raised(SpendCapError)
        else if Strip(text) == "" then Raised(RetryableError)
        else Text(text)
    }

    /** The whole effect of one `generate` attempt: either it never got a reservation and
        changed nothing, or its reservation has become exactly one settled row, whose cost is
        what the provider's own counter rose by -- unless the reply escaped, which leaves the
        reservation as it was. */
    twostate predicate Attempted(prompt: string, system: string, params: Params, key: bool, cap: int, reply: Reply,
                                 r: Result)
      reads this, ledger
    {
      var error := BeginError(old(ledger.runs), prompt, system, params, key, cap);
      if error.Some? then
        && r == Raised(error.value) && ledger.runs == old(ledger.runs)
        && tokensIn == old(tokensIn) && tokensOut == old(tokensOut) && costUsd == old(costUsd)
        && lastFinish == old(lastFinish)
      else
        var m := MeaningOf(adapter, reply);
        && ledger.runs == old(ledger.runs) + [AttemptRow(prompt, system, params, reply)]
        && costUsd == old(costUsd) + BilledCost(reply)
        && tokensIn == old(tokensIn) + (if m.Billed? then m.tokensIn else 0)
        && tokensOut == old(tokensOut) + (if m.Billed? then m.tokensOut else 0)
        && lastFinish == FinishAfter(adapter, old(lastFinish), reply)
        && r == AttemptResult(reply, Committed(ledger.runs), cap)
    }

    /** One attempt of AnthropicProvider.generate. */
    method GenerateAnthropic(prompt: string, system: string, params: Params, key: bool, cap: int, reply: Reply)
      returns (r: Result)
      requires adapter.Anthropic?
      modifies this, ledger
      ensures Attempted(prompt, system, params, key, cap, reply, r)
    {
      hide Strip, Committed, Settled, Utf8Size, SettleRows, Nonnegative, WorstCaseCost;
      var error, reserved := BeginCall(prompt, system, params, key, cap);
      if error.Some? {
        return Raised(error.value);
      }
      if reply.Escaped? {
        return Raised(Unhandled);
      }
      var failure: Option<Error>, text, usedIn, usedOut := None, "", 0, 0;
      match reply {
        case TransportFailed(retryable) => failure := Some(if retryable then RetryableError else HttpError);
        case OpenAIBody(_, _) => failure := Some(ValueError);
        case AnthropicBody(blocks, usage, stop) =>
          if blocks.None? || usage.None? || usage.value.input.None? || usage.value.output.None?
             || usage.value.input.value < 0 || usage.value.output.value < 0 {
            failure := Some(ValueError);
          } else {
            text := Joined(blocks.value);
            usedIn, usedOut := usage.value.input.value, usage.value.output.value;
            lastFinish := stop;
          }
      }
      r := Conclude(reserved, failure, usedIn, usedOut, text, cap, old(ledger.runs));
    }

    /** One attempt of OpenAIProvider.generate. */
    method GenerateOpenAI(prompt: string, system: string, params: Params, key: bool, cap: int, reply: Reply)
      returns (r: Result)
      requires adapter.OpenAI?
      modifies this, ledger
      ensures Attempted(prompt, system, params, key, cap, reply, r)
    {
      hide Strip, Committed, Settled, Utf8Size, SettleRows, Nonnegative, WorstCaseCost;
      var error, reserved := BeginCall(prompt, system, params, key, cap);
      if error.Some? {
        return Raised(error.value);
      }
      if reply.Escaped? {
        return Raised(Unhandled);
      }
      var failure: Option<Error>, text, usedIn, usedOut := None, "", 0, 0;
      var usage: Option<Usage> := None;
      match reply {
        case TransportFailed(retryable) => failure := Some(if retryable then RetryableError else HttpError);
        case AnthropicBody(_, _, _) => failure := Some(ValueError);
        case OpenAIBody(choices, u) =>
          usage := u;
          if choices.None? {
            failure := Some(ValueError);
          } else if choices.value == [] {
            lastFinish := None;
          } else if choices.value[0].None? {
            failure := Some(ValueError);
          } else {
            var choice := choices.value[0].value;
            lastFinish := choice.finish;
            if choice.message.None? || choice.message.value.NotText? {
              failure := Some(ValueError);
            } else if choice.message.value.Words? && Strip(choice.message.value.text) != "" {
              text := choice.message.value.text;
            }
          }
      }
      if failure.None? {
        var m := ReadUsage(usage, text);
        if m.Fails? {
          failure := Some(m.error);
        } else {
          usedIn, usedOut := m.tokensIn, m.tokensOut;
        }
      }
      r := Conclude(reserved, failure, usedIn, usedOut, text, cap, old(ledger.runs));
    }

    method Generate(prompt: string, system: string, params: Params, key: bool, cap: int, reply: Reply)
      returns (r: Result)
      modifies this, ledger
      ensures Attempted(prompt, system, params, key, cap, reply, r)
    {
      if adapter.Anthropic? {
        r := GenerateAnthropic(prompt, system, params, key, cap, reply);
      } else {
        r := GenerateOpenAI(prompt, system, params, key, cap, reply);
      }
    }

    /** `generate_with_transport_retry`: at most retries + 1 attempts, the n-th answered by
        replies(n).  The ledger has gained one row of this provider per attempt that got a
        reservation; settled together they cost what the provider's counter rose by.  Nothing
        it reserved is outstanding, except one reservation when the last attempt's reply
        escaped.  A retryable error comes out only after every attempt has failed that way. */
    method GenerateWithRetry(prompt: string, system: string, params: Params, key: bool, cap: int,
                             replies: nat -> Reply, retries: nat)
      returns (r: Result, attempts: nat)
      modifies this, ledger
      ensures 1 <= attempts <= retries + 1
      ensures AddedRows(old(ledger.runs), ledger.runs) && |ledger.runs| <= |old(ledger.runs)| + attempts
      ensures Settled(ledger.runs) - old(Settled(ledger.runs)) == costUsd - old(costUsd)
      ensures Outstanding(ledger.runs) == old(Outstanding(ledger.runs)) +
                if r == Raised(Unhandled) then multiset{Reserved(prompt, system, params)} else multiset{}
      ensures r == Raised(Unhandled) <==>
                replies(attempts - 1).Escaped? && |ledger.runs| == |old(ledger.runs)| + attempts
      ensures r == Raised(RetryableError) ==> attempts == retries + 1 && |ledger.runs| == |old(ledger.runs)| + attempts
      ensures forall i :: 0 <= i < attempts - 1 ==> MayPass(replies(i))
    {
      hide AddedRows, Gained, Settled, Outstanding, Committed, Reserved, WorstCaseCost, Strip, AttemptRow, BeginError,
        AttemptResult, BilledCost, FinishAfter, MeaningOf;
      attempts := 0;
      assert Gained(ledger.runs, ledger.runs, 0, 0, multiset{}) by { NothingGained(ledger.runs); }
      while true
        invariant attempts <= retries
        invariant Gained(old(ledger.runs), ledger.runs, attempts, costUsd - old(costUsd), multiset{})
        invariant forall i :: 0 <= i < attempts ==> MayPass(replies(i))
        decreases retries - attempts
      {
        ghost var before, cost := ledger.runs, costUsd - old(costUsd);
        r := Generate(prompt, system, params, key, cap, replies(attempts));
        ResultMeans(before, prompt, system, params, key, replies(attempts), Committed(ledger.runs), cap);
        RetriedIff(replies(attempts), Committed(ledger.runs), cap);
        GainedMeans(old(ledger.runs), before, attempts, cost, multiset{});
        if ledger.runs != before {
          GainOne(old(ledger.runs), before, attempts, cost, prompt, system, params, replies(attempts));
          GainedMeans(old(ledger.runs), ledger.runs, attempts + 1, costUsd - old(costUsd),
                      Leaked(prompt, system, params, replies(attempts)));
        }
        attempts := attempts + 1;
        if r != Raised(RetryableError) || attempts == retries + 1 {
          return;
        }
      }
    }

    /** Worth another attempt: a transport failure that may pass, or a billed blank reply. */
    ghost predicate MayPass(reply: Reply) {
      || reply == TransportFailed(true)
      || (MeaningOf(adapter, reply).Billed? && Strip(MeaningOf(adapter, reply).text) == "")
    }

    /** Only an escaping reply is raised as such, and only a call that reserved is retried. */
    lemma ResultMeans(rows: seq<Row>, prompt: string, system: string, params: Params, key: bool, reply: Reply,
                      committed: int, cap: int)
      ensures AttemptResult(reply, committed, cap) == Raised(Unhandled) <==> reply.Escaped?
      ensures BeginError(rows, prompt, system, params, key, cap) !in {Some(Unhandled), Some(RetryableError)}
    {
      hide Strip, Committed, WorstCaseCost, Joined;
    }

    /** What a reply leaves outstanding. */
    ghost function Leaked(prompt: string, system: string, params: Params, reply: Reply): multiset<Row> {
      if reply.Escaped? then multiset{Reserved(prompt, system, params)} else multiset{}
    }

    /** n rows of this provider were added; the settled ones cost together what is given, and
        the others are those left outstanding. */
    ghost predicate Gained(before: seq<Row>, after: seq<Row>, n: nat, cost: int, left: multiset<Row>) {
      && AddedRows(before, after) && |after| == |before| + n
      && Settled(after) - Settled(before) == cost
      && Outstanding(after) == Outstanding(before) + left
    }

    lemma NothingGained(rows: seq<Row>)
      ensures Gained(rows, rows, 0, 0, multiset{})
    {
    }

    lemma GainedMeans(before: seq<Row>, after: seq<Row>, n: nat, cost: int, left: multiset<Row>)
      requires Gained(before, after, n, cost, left)
      ensures AddedRows(before, after) && |after| == |before| + n
      ensures Settled(after) - Settled(before) == cost && Outstanding(after) == Outstanding(before) + left
    {
    }

    lemma GainOne(before: seq<Row>, rows: seq<Row>, n: nat, cost: int, prompt: string, system: string, params: Params,
                  reply: Reply)
      requires Gained(before, rows, n, cost, multiset{})
      ensures Gained(before, rows + [AttemptRow(prompt, system, params, reply)], n + 1, cost + BilledCost(reply),
                     Leaked(prompt, system, params, reply))
    {
      hide Settled, Outstanding, WorstCaseCost, Joined, Strip;
      AppendRow(rows, AttemptRow(prompt, system, params, reply));
    }

    /** `after` is `before` plus rows of this provider. */
    ghost predicate AddedRows(before: seq<Row>, after: seq<Row>) {
      && before <= after
      && forall k :: |before| <= k < |after| ==>
           after[k].provider == name && after[k].model == model && after[k].cost >= 0
    }
  }

  /** A call whose connection is dropped: the process goes on and the reservation stays. */
  method DroppedConnection(price: Price, prompt: string, system: string) returns (rows: seq<Row>, r: Result)
    ensures r == Raised(Unhandled)
    ensures Outstanding(rows) == multiset{Row("anthropic", "m", WorstCaseCost(price, prompt, system, 1), true)}
  {
    var ledger := new Ledger();
    var provider := new PricedProvider(Anthropic, "anthropic", "m", price, ledger);
    var cap := WorstCaseCost(price, prompt, system, 1);
    r := provider.Generate(prompt, system, Params("m", Some(1)), true, cap, Escaped);
    provider.LeaksIff([], prompt, system, Params("m", Some(1)), Escaped);
    rows := ledger.runs;
  }
}
