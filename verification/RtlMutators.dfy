/** The text-level mutation operators of harness/mutators/rtl.py. */
module RtlMutators {
  import opened Wrappers
  import opened SvMask
  import opened Text
  import opened RtlPatterns

  // ----- Operator tables -----

  /** A literal operator: `before` is searched in the mask, `after` is spliced into the source. */
  datatype Spec = Spec(operator: string, description: string, before: string, after: string)

  /** What the theorems need of a literal operator, read off its two texts. */
  type Shaped = spec: Spec | EndsOk(spec.before) && Solid(spec.after) && Plain(spec.after)
    witness Spec("", "", "==", "!=")

  /** No slash and no quote. */
  predicate Plain(text: string) {
    forall k :: 0 <= k < |text| ==> text[k] != '/' && text[k] != '"'
  }

  /** A row of a table, checked where the table is written down. */
  function Row(operator: string, description: string, before: string, after: string): Shaped
    requires EndsOk(before) && Solid(after) && Plain(after)
  {
    Spec(operator, description, before, after)
  }

  datatype CondSpec = CondSpec(operator: string, description: string, pattern: Pattern, after: string)

  function GenericSpecs(): seq<Shaped> {
    [ Row("comparator_boundary_flip", "equality becomes inequality", " == ", " != "),
      Row("comparator_boundary_flip", "inequality becomes equality", " != ", " == "),
      Row("operator_inversion", "increment becomes decrement", " + 1'b1", " - 1'b1"),
      Row("operator_inversion", "decrement becomes increment", " - 1'b1", " + 1'b1"),
      Row("logic_inversion", "and becomes or", " && ", " || "),
      Row("logic_inversion", "or becomes and", " || ", " && "),
      Row("bitwise_inversion", "xor becomes or", " ^ ", " | "),
      Row("bitwise_inversion", "or becomes xor", " | ", " ^ "),
      Row("shift_inversion", "left shift becomes right shift", " << ", " >> "),
      Row("shift_inversion", "right shift becomes left shift", " >> ", " << ") ]
  }

  function GenericRegexSpecs(): seq<CondSpec> {
    [ CondSpec("reset_polarity_flip", "reset condition inverted", IfCond("rst", false), "if (!rst)"),
      CondSpec("reset_polarity_flip", "active-low reset condition inverted", IfCond("rst", true), "if (rst)"),
      CondSpec("dropped_enable", "enable condition inverted", IfCond("en", false), "if (!en)"),
      CondSpec("dropped_enable", "active-low enable condition inverted", IfCond("en", true), "if (en)") ]
  }

  function GrayEnables(): seq<Shaped> {
    [ Row("reset_polarity_flip", "reset condition inverted", "if (rst)", "if (!rst)"),
      Row("dropped_enable", "enable inverted", "else if (en)", "else if (!en)"),
      Row("dropped_enable", "enable ignored", "else if (en)", "else if (1'b1)"),
      Row("operator_inversion", "counter decrements instead of increments",
          "bin <= bin + 1'b1;", "bin <= bin - 1'b1;"),
      Row("assignment_deletion", "counter does not advance", "bin <= bin + 1'b1;", "bin <= bin;") ]
  }

  function GrayOutputs(): seq<Shaped> {
    [ Row("operator_inversion", "gray xor becomes or",
          "assign gray = bin ^ (bin >> 1);", "assign gray = bin | (bin >> 1);"),
      Row("operator_inversion", "gray xor becomes and",
          "assign gray = bin ^ (bin >> 1);", "assign gray = bin & (bin >> 1);"),
      Row("assignment_deletion", "gray exposes binary count",
          "assign gray = bin ^ (bin >> 1);", "assign gray = bin;") ]
  }

  function GrayCounterSpecs(): seq<Shaped> {
    GrayEnables() + GrayOutputs()
  }

  function FifoGuards(): seq<Shaped> {
    [ Row("reset_polarity_flip", "reset condition inverted", "if (rst) begin", "if (!rst) begin"),
      Row("fifo_flag_inversion", "full flag inverted",
          "assign full  = (count == CAP);", "assign full  = (count != CAP);"),
      Row("fifo_flag_inversion", "empty flag inverted",
          "assign empty = (count == '0);", "assign empty = (count != '0);"),
      Row("dropped_enable", "write ignores full back-pressure",
          "wire do_wr = wr_en & ~full;", "wire do_wr = wr_en;"),
      Row("dropped_enable", "read ignores empty back-pressure",
          "wire do_rd = rd_en & ~empty;", "wire do_rd = rd_en;") ]
  }

  function FifoPointers(): seq<Shaped> {
    [ Row("assignment_deletion", "write data corrupted to zero", "mem[wptr] <= din;", "mem[wptr] <= '0;"),
      Row("assignment_deletion", "write pointer does not advance",
          "wptr      <= wptr + 1'b1;", "wptr      <= wptr;"),
      Row("assignment_deletion", "read pointer does not advance", "rptr <= rptr + 1'b1;", "rptr <= rptr;") ]
  }

  function FifoOccupancy(): seq<Shaped> {
    [ Row("operator_inversion", "occupancy increments on read",
          "2'b01:   count <= count - 1'b1;", "2'b01:   count <= count + 1'b1;"),
      Row("operator_inversion", "occupancy decrements on write",
          "2'b10:   count <= count + 1'b1;", "2'b10:   count <= count - 1'b1;"),
      Row("assignment_deletion", "simultaneous operation clears occupancy",
          "default: count <= count;", "default: count <= '0;"),
      Row("assignment_deletion", "FWFT output uses write pointer",
          "assign dout = mem[rptr];", "assign dout = mem[wptr];") ]
  }

  function SyncFifoSpecs(): seq<Shaped> {
    FifoGuards() + FifoPointers() + FifoOccupancy()
  }

  function UartTiming(): seq<Shaped> {
    [ Row("reset_polarity_flip", "reset condition inverted", "if (rst) begin", "if (!rst) begin"),
      Row("comparator_boundary_flip", "baud tick equality inverted",
          "wire tick = (clk_cnt == LAST_TICK);", "wire tick = (clk_cnt != LAST_TICK);"),
      Row("off_by_one_counter_limit", "baud period one cycle short", "CLKS_PER_BIT - 1", "CLKS_PER_BIT - 2"),
      Row("off_by_one_counter_limit", "last data bit skipped", "DATA_BITS - 1", "DATA_BITS - 2") ]
  }

  function UartStates(): seq<Shaped> {
    [ Row("assignment_deletion", "payload latch corrupted", "shift <= data;", "shift <= '0;"),
      Row("state_transition_deletion", "idle start ignored", "state <= START_BIT;", "state <= IDLE;"),
      Row("state_transition_deletion", "start bit repeats", "state   <= DATA_BITS_ST;", "state   <= START_BIT;"),
      Row("state_transition_deletion", "data never reaches stop", "state <= STOP_BIT;", "state <= DATA_BITS_ST;"),
      Row("state_transition_deletion", "stop never returns idle", "state   <= IDLE;", "state   <= STOP_BIT;") ]
  }

  function UartOutputs(): seq<Shaped> {
    [ Row("assignment_deletion", "done pulse deleted", "done    <= 1'b1;", "done    <= 1'b0;"),
      Row("operator_inversion", "start bit high", "START_BIT:    tx = 1'b0;", "START_BIT:    tx = 1'b1;"),
      Row("assignment_deletion", "data bits forced high",
          "DATA_BITS_ST: tx = shift[bit_idx];", "DATA_BITS_ST: tx = 1'b1;"),
      Row("assignment_deletion", "busy inverted",
          "assign busy = (state != IDLE);", "assign busy = (state == IDLE);") ]
  }

  function UartTxSpecs(): seq<Shaped> {
    UartTiming() + UartStates() + UartOutputs()
  }

  /** `_task_specs`: the hand-made operators of one task. */
  function TaskSpecs(taskId: string): seq<Shaped> {
    if taskId == "t1_gray_counter" then GrayCounterSpecs()
    else if taskId == "t2_sync_fifo" then SyncFifoSpecs()
    else if taskId == "t2_uart_tx" then UartTxSpecs()
    else []
  }

  /** The literal operators of a task: the generic ones, then its own. */
  function Specs(taskId: string): seq<Shaped> {
    GenericSpecs() + TaskSpecs(taskId)
  }

  // ----- Literal operators -----

  /** The sites of a literal operator: leftmost non-overlapping occurrences from p on. */
  function Sites(mask: string, before: string, p: nat): (sites: seq<nat>)
    requires before != []
    ensures forall k :: 0 <= k < |sites| ==> p <= sites[k] && OccursAt(mask, before, sites[k])
    decreases |mask| - p
  {
    var i := Find(mask, before, p);
    if i.None? then [] else [i.value] + Sites(mask, before, i.value + |before|)
  }

  /** Consecutive sites do not overlap. */
  ghost predicate Spaced(sites: seq<nat>, width: nat) {
    forall n :: 0 < n < |sites| ==> sites[n - 1] + width <= sites[n]
  }

  ghost predicate Covers(sites: seq<nat>, width: nat, k: nat) {
    exists n :: 0 <= n < |sites| && sites[n] <= k < sites[n] + width
  }

  lemma SpacedCons(i: nat, rest: seq<nat>, width: nat)
    requires Spaced(rest, width) && (rest != [] ==> i + width <= rest[0])
    ensures Spaced([i] + rest, width)
  {
    var sites := [i] + rest;
    forall n | 0 < n < |sites| ensures sites[n - 1] + width <= sites[n] {
      if n > 1 {
        assert sites[n - 1] == rest[n - 2] && sites[n] == rest[n - 1];
        assert rest[n - 1 - 1] + width <= rest[n - 1];
      }
    }
  }

  lemma CoversCons(i: nat, rest: seq<nat>, width: nat, k: nat)
    requires i <= k < i + width || Covers(rest, width, k)
    ensures Covers([i] + rest, width, k)
  {
    var sites := [i] + rest;
    if i <= k < i + width {
      assert sites[0] == i;
    } else {
      var n :| 0 <= n < |rest| && rest[n] <= k < rest[n] + width;
      assert sites[n + 1] == rest[n];
    }
  }

  lemma NoSites(width: nat)
    ensures Spaced([], width)
  {
  }

  /** The sites are spaced, and every occurrence of the pattern starts inside one of them:
      none is missed. */
  lemma {:induction false} SitesMaximal(mask: string, before: string, p: nat, k: nat)
    requires before != []
    ensures Spaced(Sites(mask, before, p), |before|)
    ensures p <= k && OccursAt(mask, before, k) ==> Covers(Sites(mask, before, p), |before|, k)
    decreases |mask| - p
  {
    hide Find, Spaced, Covers;
    var i := Find(mask, before, p);
    if i.None? {
      NoSites(|before|);
    } else {
      var next := i.value + |before|;
      SitesMaximal(mask, before, next, k);
      SpacedCons(i.value, Sites(mask, before, next), |before|);
      if p <= k && OccursAt(mask, before, k) {
        CoversCons(i.value, Sites(mask, before, next), |before|, k);
      }
    }
  }

  function LiteralMutant(source: string, spec: Spec, i: nat): string
    requires i + |spec.before| <= |source|
  {
    Splice(source, i, i + |spec.before|, spec.after)
  }

  /** The candidates of a literal operator from position p of the mask on. */
  function LiteralMutants(source: string, spec: Spec, p: nat): (r: seq<string>)
    requires spec.before != []
    decreases |source| - p
  {
    var i := Find(Masked(source), spec.before, p);
    if i.None? then []
    else [LiteralMutant(source, spec, i.value)] + LiteralMutants(source, spec, i.value + |spec.before|)
  }

  /** There is exactly one candidate per site, in order. */
  lemma {:induction false} OneMutantPerSite(source: string, spec: Spec, p: nat)
    requires spec.before != []
    ensures var sites, r := Sites(Masked(source), spec.before, p), LiteralMutants(source, spec, p);
            |r| == |sites| && forall k :: 0 <= k < |r| ==> r[k] == LiteralMutant(source, spec, sites[k])
    decreases |source| - p
  {
    var i := Find(Masked(source), spec.before, p);
    if i.Some? {
      var next := i.value + |spec.before|;
      OneMutantPerSite(source, spec, next);
      var sites, r := Sites(Masked(source), spec.before, p), LiteralMutants(source, spec, p);
      assert sites == [i.value] + Sites(Masked(source), spec.before, next);
      assert r == [LiteralMutant(source, spec, i.value)] + LiteralMutants(source, spec, next);
    }
  }

  /** And each is the source with the pattern's replacement at that site, and nothing else. */
  lemma MutantsAreReplacements(source: string, spec: Spec, k: nat)
    requires spec.before != [] && k < |LiteralMutants(source, spec, 0)|
    ensures var sites, r := Sites(Masked(source), spec.before, 0), LiteralMutants(source, spec, 0);
            && |r| == |sites| && OccursAt(Masked(source), spec.before, sites[k])
            && r[k] == source[..sites[k]] + spec.after + source[sites[k] + |spec.before|..]
  {
    OneMutantPerSite(source, spec, 0);
  }

  /** A hand-made operator mutates its first site only, if there is one. */
  lemma OnceIsFirst(source: string, spec: Spec)
    requires spec.before != []
    ensures var sites, r := Sites(Masked(source), spec.before, 0), ReplaceOnce(source, spec);
            && (r.None? <==> sites == [])
            && (r.Some? ==> sites[0] + |spec.before| <= |source| &&
                            r.value == source[..sites[0]] + spec.after + source[sites[0] + |spec.before|..])
  {
    hide Masked;
  }

  lemma Append<T>(done: seq<T>, x: T, rest: seq<T>)
    ensures done + ([x] + rest) == (done + [x]) + rest
  {
  }

  method ReplaceAll(source: string, spec: Spec) returns (results: seq<string>)
    requires spec.before != []
    ensures results == LiteralMutants(source, spec, 0)
  {
    hide Find, Masked, Splice;
    var mask := MaskCode(source);
    results := [];
    var start := 0;
    while true
      invariant start <= |mask|
      invariant results + LiteralMutants(source, spec, start) == LiteralMutants(source, spec, 0)
      decreases |mask| - start
    {
      var index := Find(mask, spec.before, start);
      if index.None? {
        return;
      }
      Append(results, LiteralMutant(source, spec, index.value),
             LiteralMutants(source, spec, index.value + |spec.before|));
      results := results + [Splice(source, index.value, index.value + |spec.before|, spec.after)];
      start := index.value + |spec.before|;
    }
  }

  function ReplaceOnce(source: string, spec: Spec): (r: Option<string>) {
    var index := Find(Masked(source), spec.before, 0);
    if index.None? then None else Some(LiteralMutant(source, spec, index.value))
  }

  // ----- When a literal mutation commutes with masking -----

  predicate Visible(c: char) {
    c != ' ' && c != '\n'
  }

  /** The ends of a pattern are visible, or a single blank. */
  predicate EndsOk(before: string) {
    && |before| >= 2
    && (Visible(before[0]) || (before[0] == ' ' && Visible(before[1])))
    && (Visible(Last(before)) || (Last(before) == ' ' && Visible(before[|before| - 2])))
  }

  /** What a literal operator needs for the theorems: a pattern with such ends, and a
      replacement that is code on its own and joins with nothing. */
  ghost predicate WellShaped(spec: Spec) {
    EndsOk(spec.before) && Solid(spec.after) && OpenerFree(spec.after)
  }

  function Last(s: string): char
    requires s != []
  {
    s[|s| - 1]
  }

  predicate DiffersAt(spec: Spec, k: nat) {
    k < |spec.before| == |spec.after| && Visible(spec.before[k]) && spec.before[k] != spec.after[k]
  }

  /** The two texts differ in length, or where the pattern is visible. */
  ghost predicate Differs(spec: Spec) {
    |spec.before| != |spec.after| || exists k: nat :: DiffersAt(spec, k)
  }

  lemma GenericDiffer(n: nat)
    requires n < |GenericSpecs()|
    ensures Differs(GenericSpecs()[n])
  {
    var spec, k := GenericSpecs()[n], [1, 1, 1, 1, 1, 1, 1, 1, 1, 1][n];
    assert |spec.before| != |spec.after| || DiffersAt(spec, k);
  }

  lemma GrayEnablesDiffer(n: nat)
    requires n < |GrayEnables()|
    ensures Differs(GrayEnables()[n])
  {
    var spec, k := GrayEnables()[n], [0, 0, 0, 11, 0][n];
    assert |spec.before| != |spec.after| || DiffersAt(spec, k);
  }

  lemma GrayOutputsDiffer(n: nat)
    requires n < |GrayOutputs()|
    ensures Differs(GrayOutputs()[n])
  {
    var spec, k := GrayOutputs()[n], [18, 18, 0][n];
    assert |spec.before| != |spec.after| || DiffersAt(spec, k);
  }

  lemma FifoGuardsDiffer(n: nat)
    requires n < |FifoGuards()|
    ensures Differs(FifoGuards()[n])
  {
    var spec, k := FifoGuards()[n], [0, 22, 22, 0, 0][n];
    assert |spec.before| != |spec.after| || DiffersAt(spec, k);
  }

  lemma FifoPointersDiffer(n: nat)
    requires n < |FifoPointers()|
    ensures Differs(FifoPointers()[n])
  {
  }

  lemma FifoOccupancyDiffer(n: nat)
    requires n < |FifoOccupancy()|
    ensures Differs(FifoOccupancy()[n])
  {
    var spec, k := FifoOccupancy()[n], [24, 24, 0, 18][n];
    assert |spec.before| != |spec.after| || DiffersAt(spec, k);
  }

  lemma UartTimingDiffer(n: nat)
    requires n < |UartTiming()|
    ensures Differs(UartTiming()[n])
  {
    var spec, k := UartTiming()[n], [0, 21, 15, 12][n];
    assert |spec.before| != |spec.after| || DiffersAt(spec, k);
  }

  lemma UartStatesDiffer(n: nat)
    requires n < |UartStates()|
    ensures Differs(UartStates()[n])
  {
  }

  lemma UartOutputsDiffer(n: nat)
    requires n < |UartOutputs()|
    ensures Differs(UartOutputs()[n])
  {
    var spec, k := UartOutputs()[n], [14, 22, 0, 21][n];
    assert |spec.before| != |spec.after| || DiffersAt(spec, k);
  }

  lemma TaskDiffers(taskId: string, n: nat)
    requires n < |TaskSpecs(taskId)|
    ensures Differs(TaskSpecs(taskId)[n])
  {
    hide GrayEnables, GrayOutputs, FifoGuards, FifoPointers, FifoOccupancy, UartTiming, UartStates, UartOutputs,
      Differs;
    if taskId == "t1_gray_counter" {
      var i := |GrayEnables()|;
      if n < i {
        GrayEnablesDiffer(n);
      } else {
        GrayOutputsDiffer(n - i);
      }
    } else if taskId == "t2_sync_fifo" {
      var i, j := |FifoGuards()|, |FifoGuards()| + |FifoPointers()|;
      if n < i {
        FifoGuardsDiffer(n);
      } else if n < j {
        FifoPointersDiffer(n - i);
      } else {
        FifoOccupancyDiffer(n - j);
      }
    } else {
      var i, j := |UartTiming()|, |UartTiming()| + |UartStates()|;
      if n < i {
        UartTimingDiffer(n);
      } else if n < j {
        UartStatesDiffer(n - i);
      } else {
        UartOutputsDiffer(n - j);
      }
    }
  }

  /** Every row of the generic table and of the three hand-made ones meets the hypotheses of
      the theorems below. */
  lemma TablesWellShaped(taskId: string, n: nat)
    requires n < |Specs(taskId)|
    ensures WellShaped(Specs(taskId)[n]) && Differs(Specs(taskId)[n])
  {
    hide GenericSpecs, TaskSpecs, Differs, EndsOk, Solid;
    var g := |GenericSpecs()|;
    if n < g {
      GenericDiffer(n);
    } else {
      TaskDiffers(taskId, n - g);
    }
  }

  /** A blank in the mask that is followed by code was read as code exactly when the source
      has a blank there. */
  lemma BlankBeforeCode(s: string, k: nat)
    requires k + 1 < |s| && Masked(s)[k] == ' ' && StateAt(s, k + 1) == Code
    ensures StateAt(s, k) == Code <==> s[k] == ' '
  {
    At(Code, s, k);
    if k > 0 {
      At(Code, s, k - 1);
    }
  }

  /** A blank in the mask, read as code, leads on in code exactly when the source has a blank
      there. */
  lemma BlankAfterCode(s: string, k: nat)
    requires k < |s| && Masked(s)[k] == ' ' && StateAt(s, k) == Code
    ensures k + 1 < |s| ==> (StateAt(s, k + 1) == Code <==> s[k] == ' ')
  {
    At(Code, s, k);
  }

  /** Exact condition for a literal operator: the source itself must have, at the first and
      last position of the site, what the mask shows there (the last one does not matter
      when nothing follows).  Only a blank can differ, when a comment or string was blanked. */
  lemma LiteralCommutesIff(source: string, spec: Spec, i: nat)
    requires WellShaped(spec) && OccursAt(Masked(source), spec.before, i)
    ensures var j := i + |spec.before|;
            Commutes(source, i, j, spec.after) <==>
            (source[i] == spec.before[0] && (j < |source| ==> source[j - 1] == Last(spec.before)))
  {
    hide Commutes, OpenerFree, Solid, Masked, Run;
    var j, m := i + |spec.before|, Masked(source);
    assert forall k :: 0 <= k < |spec.before| ==> m[i + k] == m[i..j][k];
    SpliceIff(source, i, j, spec.after);
    OpenerFreeIsCode(spec.after);
    if Visible(spec.before[0]) {
      CodeShown(source, i);
    } else {
      CodeShown(source, i + 1);
      BlankBeforeCode(source, i);
    }
    if Visible(Last(spec.before)) {
      CodeShown(source, j - 1);
    } else {
      CodeShown(source, j - 2);
      BlankAfterCode(source, j - 1);
    }
  }

  /** Where the source reads `before` at the site, masking commutes with the mutation. */
  lemma LiteralCommutes(source: string, spec: Spec, i: nat)
    requires WellShaped(spec) && OccursAt(Masked(source), spec.before, i) && OccursAt(source, spec.before, i)
    ensures Commutes(source, i, i + |spec.before|, spec.after)
  {
    LiteralCommutesIff(source, spec, i);
    assert source[i..i + |spec.before|][0] == source[i];
    assert Last(source[i..i + |spec.before|]) == source[i + |spec.before| - 1];
  }

  lemma ShortComment() returns (c: string)
    ensures c == "/*c*/" && Run(Code, c) == Code && Mask(Code, c) == "     "
  {
    c := "/*c*/";
    At(Code, c, 0);
    At(Code, c, 1);
    At(Code, c, 2);
    At(Code, c, 3);
    At(Code, c, 4);
  }

  /** The condition can fail: the blank of " == " may be the end of a comment, and then the
      mutation leaves the comment open. */
  lemma LiteralTrap() returns (source: string)
    ensures source == "/*c*/== b"
    ensures OccursAt(Masked(source), GenericSpecs()[0].before, 4)
    ensures !Commutes(source, 4, 8, GenericSpecs()[0].after)
  {
    var comment := ShortComment();
    var rest, spec := "== b", GenericSpecs()[0];
    source := comment + rest;
    Concat(Code, comment, rest);
    OpenerFreeIsCode(rest);
    assert WellShaped(spec);
    assert source[4] == comment[4] == '/';
    assert Masked(source) == Mask(Code, comment) + rest;
    LiteralCommutesIff(source, spec, 4);
  }

  lemma MutantDiffers(source: string, spec: Spec, i: nat)
    requires Differs(spec) && OccursAt(Masked(source), spec.before, i)
    ensures LiteralMutant(source, spec, i) != source
  {
    var mutant := LiteralMutant(source, spec, i);
    if |spec.before| == |spec.after| {
      var k: nat :| DiffersAt(spec, k);
      assert Masked(source)[i + k] == Masked(source)[i..i + |spec.before|][k];
      CodeShown(source, i + k);
      assert mutant[i + k] == spec.after[k];
    }
  }

  /** No literal operator of any table reproduces its input. */
  lemma LiteralChanges(source: string, taskId: string, n: nat, i: nat)
    requires n < |Specs(taskId)| && OccursAt(Masked(source), Specs(taskId)[n].before, i)
    ensures LiteralMutant(source, Specs(taskId)[n], i) != source
  {
    hide Specs, Differs;
    TablesWellShaped(taskId, n);
    MutantDiffers(source, Specs(taskId)[n], i);
  }
}
