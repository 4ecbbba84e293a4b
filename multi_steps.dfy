/** The multi-step path: parsing numbered steps out of a model reply
    (`EstraiStepDaRisposta`), executing them (`EseguiStepsAsync`) and composing the
    message for the analyst assistant (`InviaAdAnalistaAsync`).

    A step is an SQL block `@sql@3 - N`, optionally paired with a Python block
    "```python code``` @3 - N" carrying the same number N. The data store and the
    Python sandbox are parameters: `query` maps an SQL text to its table or the
    exception the store raises, `python` maps code and the table it reads to the
    script's output or the exception `EseguiPythonAsync` raises. */
module MultiSteps {
  import opened Wrappers
  import opened Text
  import opened Scanner
  import opened Ordering
  import opened DataTables

  /** The JSON the sandbox script prints: result, formula and explanation. */
  datatype PythonOutput = PythonOutput(result: string, formula: string, explain: string)

  datatype GptStep = GptStep(number: i32, sql: string, python: Option<string>)

  datatype StepResult = StepResult(number: i32, table: Table, py: Option<PythonOutput>)

  /** A numbered block of the reply: its step number and its trimmed text. */
  datatype Block = Block(number: i32, text: string)

  type Query = string -> Result<Table, Exception>
  type Python = (string, Table) -> Result<PythonOutput, Exception>

  function BlockNumber(b: Block): int { b.number }
  function StepNumber(s: GptStep): int { s.number }
  function ResultNumber(r: StepResult): int { r.number }

  // ---- parsing ----------------------------------------------------------------------

  /** The text and number groups of every match of p, in text order. */
  function Groups(p: Pattern, s: string): (gs: seq<(string, string)>)
    ensures |gs| == |AllMatches(p, s)|
    ensures forall k :: 0 <= k < |gs| ==> gs[k] == (Body(s, AllMatches(p, s)[k]), Tag(s, AllMatches(p, s)[k]))
  {
    var hs := AllMatches(p, s);
    seq(|hs|, k requires 0 <= k < |hs| => (Body(s, hs[k]), Tag(s, hs[k])))
  }

  /** One match as the loop bodies read it: `int.Parse` of the number group and
      `Trim` of the text group. */
  function ParseBlock(g: (string, string)): Result<Block, Exception> {
    match ParseInt32(g.1)
    case Failure(e) => Failure(e)
    case Success(n) => Success(Block(n, Trim(g.0)))
  }

  /** The numbered blocks of pattern p; an unparsable number ends the loop. */
  function BlocksOf(p: Pattern, s: string): Result<seq<Block>, Exception> {
    MapResult(Groups(p, s), ParseBlock)
  }

  /** The code of step n: the first Python block numbered n (`pyMap` keeps the first). */
  function PythonFor(pys: seq<Block>, n: int): Option<string> {
    match FirstWith(pys, BlockNumber, n)
    case Some(b) => Some(b.text)
    case None => None
  }

  /** One candidate step per SQL block, in text order. */
  function StepsFrom(sqls: seq<Block>, pys: seq<Block>): (steps: seq<GptStep>)
    ensures |steps| == |sqls|
    ensures forall k :: 0 <= k < |sqls| ==>
              steps[k] == GptStep(sqls[k].number, sqls[k].text, PythonFor(pys, sqls[k].number))
  {
    seq(|sqls|, k requires 0 <= k < |sqls| => GptStep(sqls[k].number, sqls[k].text, PythonFor(pys, sqls[k].number)))
  }

  /** What `EstraiStepDaRisposta` returns: the candidates, the first of each number
      kept, sorted by number. */
  function ExtractedSteps(reply: string): Result<seq<GptStep>, Exception> {
    match BlocksOf(StepPython, reply)
    case Failure(e) => Failure(e)
    case Success(pys) =>
      match BlocksOf(StepSql, reply)
      case Failure(e) => Failure(e)
      case Success(sqls) => Success(SortBy(DedupBy(StepsFrom(sqls, pys), StepNumber), StepNumber))
  }

  lemma PythonForSnoc(pys: seq<Block>, b: Block, n: int)
    ensures PythonFor(pys + [b], n)
         == if PythonFor(pys, n).Some? then PythonFor(pys, n) else if b.number == n then Some(b.text) else None
  {
    FirstWithAppend(pys, b, BlockNumber, n);
  }

  /** `pyMap.TryGetValue(n, out py)`. */
  function Lookup(m: map<i32, string>, n: i32): Option<string> {
    if n in m then Some(m[n]) else None
  }

  lemma PythonMapStep(m: map<i32, string>, pys: seq<Block>, b: Block)
    requires forall n: i32 :: Lookup(m, n) == PythonFor(pys, n)
    ensures var m' := if b.number in m then m else m[b.number := b.text];
            forall n: i32 :: Lookup(m', n) == PythonFor(pys + [b], n)
  {
    var m' := if b.number in m then m else m[b.number := b.text];
    forall n: i32 ensures Lookup(m', n) == PythonFor(pys + [b], n) {
      PythonForSnoc(pys, b, n);
      assert Lookup(m, n) == PythonFor(pys, n);
      if n != b.number {
        assert Lookup(m', n) == Lookup(m, n);
      }
    }
  }

  lemma SqlStepsStep(sqls: seq<Block>, pys: seq<Block>, b: Block)
    ensures var d := DedupBy(StepsFrom(sqls, pys), StepNumber);
            var step := GptStep(b.number, b.text, PythonFor(pys, b.number));
            DedupBy(StepsFrom(sqls + [b], pys), StepNumber)
              == if HasKey(d, StepNumber, b.number) then d else d + [step]
  {
    var before := StepsFrom(sqls, pys);
    var step := GptStep(b.number, b.text, PythonFor(pys, b.number));
    assert StepsFrom(sqls + [b], pys) == before + [step];
    assert (before + [step])[..|sqls|] == before;
  }

  /** The first loop of `EstraiStepDaRisposta`: the Python code of each number, the
      first block with that number winning. */
  method PythonMap(groups: seq<(string, string)>) returns (r: Result<map<i32, string>, Exception>)
    ensures r.Failure? <==> MapResult(groups, ParseBlock).Failure?
    ensures r.Failure? ==> r.error == MapResult(groups, ParseBlock).error
    ensures r.Success? ==> forall n: i32 :: Lookup(r.value, n) == PythonFor(MapResult(groups, ParseBlock).value, n)
  {
    var pyMap: map<i32, string> := map[];
    ghost var pys: seq<Block> := [];
    var i := 0;
    while i < |groups|
      invariant 0 <= i <= |groups|
      invariant |pys| == i
      invariant forall k :: 0 <= k < |pys| ==> ParseBlock(groups[k]) == Success(pys[k])
      invariant forall n: i32 :: Lookup(pyMap, n) == PythonFor(pys, n)
    {
      var parsed := ParseBlock(groups[i]);
      if parsed.Failure? {
        MapResultFirstFailure(groups, ParseBlock, i);
        return Failure(parsed.error);
      }
      var b := parsed.value;
      PythonMapStep(pyMap, pys, b);
      SuccessPrefixSnoc(groups, ParseBlock, pys, b);
      if b.number !in pyMap {
        pyMap := pyMap[b.number := b.text];
      }
      pys := pys + [b];
      i := i + 1;
    }
    MapResultAll(groups, ParseBlock, pys);
    r := Success(pyMap);
  }

  /** The second loop of `EstraiStepDaRisposta`: one step per SQL block whose number
      is new, with the code the map holds for that number. */
  method SqlSteps(groups: seq<(string, string)>, pyMap: map<i32, string>, ghost pys: seq<Block>)
    returns (r: Result<seq<GptStep>, Exception>)
    requires forall n: i32 :: Lookup(pyMap, n) == PythonFor(pys, n)
    ensures r.Failure? <==> MapResult(groups, ParseBlock).Failure?
    ensures r.Failure? ==> r.error == MapResult(groups, ParseBlock).error
    ensures r.Success? ==> r.value == DedupBy(StepsFrom(MapResult(groups, ParseBlock).value, pys), StepNumber)
  {
    var steps: seq<GptStep> := [];
    ghost var sqls: seq<Block> := [];
    var i := 0;
    while i < |groups|
      invariant 0 <= i <= |groups|
      invariant |sqls| == i
      invariant forall k :: 0 <= k < |sqls| ==> ParseBlock(groups[k]) == Success(sqls[k])
      invariant steps == DedupBy(StepsFrom(sqls, pys), StepNumber)
    {
      var parsed := ParseBlock(groups[i]);
      if parsed.Failure? {
        MapResultFirstFailure(groups, ParseBlock, i);
        return Failure(parsed.error);
      }
      var b := parsed.value;
      var step := GptStep(b.number, b.text, Lookup(pyMap, b.number));
      SqlStepsStep(sqls, pys, b);
      SuccessPrefixSnoc(groups, ParseBlock, sqls, b);
      if !HasKey(steps, StepNumber, b.number) {
        steps := steps + [step];
      }
      sqls := sqls + [b];
      i := i + 1;
    }
    MapResultAll(groups, ParseBlock, sqls);
    r := Success(steps);
  }

  /** `EstraiStepDaRisposta`: the Python map, the SQL steps, then `Sort` by number. */
  method ExtractSteps(reply: string) returns (r: Result<seq<GptStep>, Exception>)
    ensures r == ExtractedSteps(reply)
  {
    var pyMap := PythonMap(Groups(StepPython, reply));
    if pyMap.Failure? {
      return Failure(pyMap.error);
    }
    var steps := SqlSteps(Groups(StepSql, reply), pyMap.value, BlocksOf(StepPython, reply).value);
    if steps.Failure? {
      return Failure(steps.error);
    }
    r := Success(SortBy(steps.value, StepNumber));
  }

  lemma {:induction false} FirstWithStepsFrom(sqls: seq<Block>, pys: seq<Block>, n: int)
    ensures FirstWith(StepsFrom(sqls, pys), StepNumber, n)
         == match FirstWith(sqls, BlockNumber, n)
            case None => None
            case Some(b) => Some(GptStep(b.number, b.text, PythonFor(pys, b.number)))
  {
    if sqls != [] {
      assert StepsFrom(sqls, pys)[1..] == StepsFrom(sqls[1..], pys);
      FirstWithStepsFrom(sqls[1..], pys, n);
    }
  }

  /** Each step kept from the candidates is the first SQL block of its number, with
      the first Python block of that number. */
  lemma KeptStepsAreFirst(sqls: seq<Block>, pys: seq<Block>, step: GptStep)
    requires step in DedupBy(StepsFrom(sqls, pys), StepNumber)
    ensures FirstWith(sqls, BlockNumber, step.number) == Some(Block(step.number, step.sql))
    ensures step.python == PythonFor(pys, step.number)
  {
    var all := StepsFrom(sqls, pys);
    var d := DedupBy(all, StepNumber);
    var m :| 0 <= m < |d| && d[m] == step;
    DedupByKeepsFirst(all, StepNumber, m);
    FirstWithStepsFrom(sqls, pys, step.number);
  }

  /** Steps as the SQL blocks sqls and the Python blocks pys promise them: strictly
      increasing numbers; each step the first SQL block with its number, paired with
      the first Python block of that number; and a step for every numbered SQL block. */
  predicate WellExtracted(steps: seq<GptStep>, sqls: seq<Block>, pys: seq<Block>) {
    && StrictlyIncreasingBy(steps, StepNumber)
    && (forall k :: 0 <= k < |steps| ==>
          && FirstWith(sqls, BlockNumber, steps[k].number) == Some(Block(steps[k].number, steps[k].sql))
          && steps[k].python == PythonFor(pys, steps[k].number))
    && (forall j :: 0 <= j < |sqls| ==> HasKey(steps, StepNumber, sqls[j].number))
  }

  lemma StepsOfBlocks(sqls: seq<Block>, pys: seq<Block>)
    ensures WellExtracted(SortBy(DedupBy(StepsFrom(sqls, pys), StepNumber), StepNumber), sqls, pys)
  {
    var d := DedupBy(StepsFrom(sqls, pys), StepNumber);
    SortByDistinct(d, StepNumber);
    SortedDistinctIncreasing(SortBy(d, StepNumber), StepNumber);
    SortedStepsAreFirst(sqls, pys);
    SortedStepsCover(sqls, pys);
  }

  lemma SortedStepsAreFirst(sqls: seq<Block>, pys: seq<Block>)
    ensures var steps := SortBy(DedupBy(StepsFrom(sqls, pys), StepNumber), StepNumber);
            forall k :: 0 <= k < |steps| ==>
              && FirstWith(sqls, BlockNumber, steps[k].number) == Some(Block(steps[k].number, steps[k].sql))
              && steps[k].python == PythonFor(pys, steps[k].number)
  {
    var steps := SortBy(DedupBy(StepsFrom(sqls, pys), StepNumber), StepNumber);
    forall k | 0 <= k < |steps|
      ensures FirstWith(sqls, BlockNumber, steps[k].number) == Some(Block(steps[k].number, steps[k].sql))
      ensures steps[k].python == PythonFor(pys, steps[k].number)
    {
      assert steps[k] in multiset(steps);
      KeptStepsAreFirst(sqls, pys, steps[k]);
    }
  }

  lemma SortedStepsCover(sqls: seq<Block>, pys: seq<Block>)
    ensures var steps := SortBy(DedupBy(StepsFrom(sqls, pys), StepNumber), StepNumber);
            forall j :: 0 <= j < |sqls| ==> HasKey(steps, StepNumber, sqls[j].number)
  {
    var d := DedupBy(StepsFrom(sqls, pys), StepNumber);
    forall j | 0 <= j < |sqls| ensures HasKey(SortBy(d, StepNumber), StepNumber, sqls[j].number) {
      assert StepsFrom(sqls, pys)[j].number == sqls[j].number;
      SortedKeepsKeys(d, sqls[j].number);
    }
  }

  /** What `EstraiStepDaRisposta` returns is well extracted from the reply's blocks. */
  lemma ExtractedStepsSpec(reply: string)
    requires ExtractedSteps(reply).Success?
    ensures BlocksOf(StepPython, reply).Success? && BlocksOf(StepSql, reply).Success?
    ensures WellExtracted(ExtractedSteps(reply).value, BlocksOf(StepSql, reply).value, BlocksOf(StepPython, reply).value)
  {
    StepsOfBlocks(BlocksOf(StepSql, reply).value, BlocksOf(StepPython, reply).value);
  }

  lemma SortedKeepsKeys(d: seq<GptStep>, n: int)
    requires HasKey(d, StepNumber, n)
    ensures HasKey(SortBy(d, StepNumber), StepNumber, n)
  {
    var m :| 0 <= m < |d| && StepNumber(d[m]) == n;
    assert d[m] in multiset(d);
    var steps := SortBy(d, StepNumber);
    assert d[m] in multiset(steps);
    var k :| 0 <= k < |steps| && steps[k] == d[m];
  }

  /** The value of the number group of the k-th match of a step pattern, which is
      a run of digits. */
  function TagValue(p: Pattern, s: string, k: nat): nat
    requires (p == StepSql || p == StepPython) && k < |AllMatches(p, s)|
  {
    var h := AllMatches(p, s)[k];
    assert TagShape(p, s, h);
    DigitsValue(Tag(s, h))
  }

  /** A number group that `int.Parse` cannot hold in 32 bits. */
  predicate NumberOverflows(p: Pattern, s: string)
    requires p == StepSql || p == StepPython
  {
    exists k :: 0 <= k < |AllMatches(p, s)| && TagValue(p, s, k) > MaxInt32
  }

  lemma ParseBlockGroup(p: Pattern, s: string, k: nat)
    requires (p == StepSql || p == StepPython) && k < |AllMatches(p, s)|
    ensures var g := ParseBlock(Groups(p, s)[k]);
            && (g.Failure? <==> TagValue(p, s, k) > MaxInt32)
            && (g.Failure? ==> g.error == OverflowError)
            && (g.Success? ==> g.value == Block(TagValue(p, s, k), Trim(Body(s, AllMatches(p, s)[k]))))
  {
    var h := AllMatches(p, s)[k];
    assert TagShape(p, s, h);
    ParseDigits(Tag(s, h));
  }

  /** The blocks of a step pattern parse unless a number overflows, and then the
      error is the overflow. */
  lemma BlocksOfFailure(p: Pattern, s: string)
    requires p == StepSql || p == StepPython
    ensures BlocksOf(p, s).Failure? <==> NumberOverflows(p, s)
    ensures BlocksOf(p, s).Failure? ==> BlocksOf(p, s).error == OverflowError
  {
    var gs := Groups(p, s);
    forall k | 0 <= k < |gs|
      ensures ParseBlock(gs[k]).Failure? <==> TagValue(p, s, k) > MaxInt32
      ensures ParseBlock(gs[k]).Failure? ==> ParseBlock(gs[k]).error == OverflowError
    {
      ParseBlockGroup(p, s, k);
    }
    MapResultSuccess(gs, ParseBlock);
    if BlocksOf(p, s).Failure? {
      MapResultFailure(gs, ParseBlock);
    }
  }

  /** Parsing the steps fails exactly when a step number does not fit in 32 bits. */
  lemma ExtractedStepsFailure(reply: string)
    ensures ExtractedSteps(reply).Failure? <==> NumberOverflows(StepPython, reply) || NumberOverflows(StepSql, reply)
    ensures ExtractedSteps(reply).Failure? ==> ExtractedSteps(reply).error == OverflowError
  {
    BlocksOfFailure(StepPython, reply);
    BlocksOfFailure(StepSql, reply);
  }

  // ---- execution --------------------------------------------------------------------

  /** One iteration of `EseguiStepsAsync`: the query, then the Python code unless it
      is null or white space. */
  function RunStep(step: GptStep, query: Query, python: Python): (r: Result<StepResult, Exception>)
    ensures r.Success? <==> query(step.sql).Success?
                            && (IsNullOrWhiteSpace(step.python) || python(step.python.value, query(step.sql).value).Success?)
    ensures r.Success? ==> && r.value.number == step.number
                           && r.value.table == query(step.sql).value
                           && (r.value.py.None? <==> IsNullOrWhiteSpace(step.python))
                           && (r.value.py.Some? ==> Success(r.value.py.value) == python(step.python.value, r.value.table))
  {
    match query(step.sql)
    case Failure(e) => Failure(e)
    case Success(t) =>
      if IsNullOrWhiteSpace(step.python) then Success(StepResult(step.number, t, None))
      else
        match python(step.python.value, t)
        case Failure(e) => Failure(e)
        case Success(o) => Success(StepResult(step.number, t, Some(o)))
  }

  function Runner(query: Query, python: Python): GptStep -> Result<StepResult, Exception> {
    (s: GptStep) => RunStep(s, query, python)
  }

  /** The steps that run: in number order (`OrderBy` is stable), each number once,
      the first step with it winning. */
  function ScheduledSteps(steps: seq<GptStep>): seq<GptStep> {
    DedupBy(SortBy(steps, StepNumber), StepNumber)
  }

  /** What `EseguiStepsAsync` returns; the first exception ends it. */
  function ExecutedSteps(steps: seq<GptStep>, query: Query, python: Python): Result<seq<StepResult>, Exception> {
    MapResult(ScheduledSteps(steps), Runner(query, python))
  }

  /** The body of the `EseguiStepsAsync` loop for one step. */
  method ExecuteStep(step: GptStep, query: Query, python: Python) returns (r: Result<StepResult, Exception>)
    ensures r == RunStep(step, query, python)
  {
    var table := query(step.sql);
    if table.Failure? {
      return Failure(table.error);
    }
    var pyOut: Option<PythonOutput> := None;
    if !IsNullOrWhiteSpace(step.python) {
      var out := python(step.python.value, table.value);
      if out.Failure? {
        return Failure(out.error);
      }
      pyOut := Some(out.value);
    }
    r := Success(StepResult(step.number, table.value, pyOut));
  }

  /** The state of the `EseguiStepsAsync` loop after the first i ordered elements:
      `executed` holds their keys and `results` are the outputs, in order, of the
      first element of each key. */
  ghost predicate Visited<T, R>(ordered: seq<T>, key: T -> int, run: T -> Result<R, Exception>,
                                i: nat, executed: set<int>, results: seq<R>)
  {
    && i <= |ordered|
    && executed == Keys(ordered[..i], key)
    && |results| == |DedupBy(ordered[..i], key)|
    && forall k :: 0 <= k < |results| ==> run(DedupBy(ordered[..i], key)[k]) == Success(results[k])
  }

  /** An element whose key was seen is skipped. */
  lemma VisitSkip<T, R>(ordered: seq<T>, key: T -> int, run: T -> Result<R, Exception>,
                        i: nat, executed: set<int>, results: seq<R>)
    requires Visited(ordered, key, run, i, executed, results)
    requires i < |ordered| && key(ordered[i]) in executed
    ensures Visited(ordered, key, run, i + 1, executed + {key(ordered[i])}, results)
  {
    DedupByStep(ordered, key, i);
  }

  /** An element with a new key runs, and its failure is the loop's. */
  lemma VisitFails<T, R>(ordered: seq<T>, key: T -> int, run: T -> Result<R, Exception>,
                         i: nat, executed: set<int>, results: seq<R>)
    requires Visited(ordered, key, run, i, executed, results)
    requires i < |ordered| && key(ordered[i]) !in executed && run(ordered[i]).Failure?
    ensures MapResult(DedupBy(ordered, key), run) == Failure(run(ordered[i]).error)
  {
    NextScheduled(ordered, key, run, i, executed, results);
    MapResultFirstFailure(DedupBy(ordered, key), run, |results|);
  }

  /** An element with a new key runs, and its output is the next result. */
  lemma VisitRuns<T, R>(ordered: seq<T>, key: T -> int, run: T -> Result<R, Exception>,
                        i: nat, executed: set<int>, results: seq<R>)
    requires Visited(ordered, key, run, i, executed, results)
    requires i < |ordered| && key(ordered[i]) !in executed && run(ordered[i]).Success?
    ensures Visited(ordered, key, run, i + 1, executed + {key(ordered[i])}, results + [run(ordered[i]).value])
  {
    DedupByStep(ordered, key, i);
    SuccessPrefixSnoc(DedupBy(ordered[..i + 1], key), run, results, run(ordered[i]).value);
  }

  /** The element with a new key is the next one the loop schedules, after those whose
      results it has. */
  lemma NextScheduled<T, R>(ordered: seq<T>, key: T -> int, run: T -> Result<R, Exception>,
                            i: nat, executed: set<int>, results: seq<R>)
    requires Visited(ordered, key, run, i, executed, results)
    requires i < |ordered| && key(ordered[i]) !in executed
    ensures |results| < |DedupBy(ordered, key)| && DedupBy(ordered, key)[|results|] == ordered[i]
    ensures forall k :: 0 <= k < |results| ==> run(DedupBy(ordered, key)[k]) == Success(results[k])
  {
    DedupByStep(ordered, key, i);
    var sched := DedupBy(ordered, key);
    var d := DedupBy(ordered[..i + 1], key);
    assert d[|results|] == ordered[i];
    forall k | 0 <= k < |results| ensures run(sched[k]) == Success(results[k]) {
      assert sched[k] == d[k];
    }
  }

  /** After the last element the results are those of MapResult over the first of
      each key. */
  lemma VisitedAll<T, R>(ordered: seq<T>, key: T -> int, run: T -> Result<R, Exception>,
                         executed: set<int>, results: seq<R>)
    requires Visited(ordered, key, run, |ordered|, executed, results)
    ensures MapResult(DedupBy(ordered, key), run) == Success(results)
  {
    assert ordered[..|ordered|] == ordered;
    MapResultAll(DedupBy(ordered, key), run, results);
  }

  /** The `foreach` of `EseguiStepsAsync` over steps already in order: `executed.Add`
      skips a key seen before, any other element runs, and the first exception ends
      the loop. */
  method RunFirstOfEach<T, R>(ordered: seq<T>, key: T -> int, run: T -> Result<R, Exception>)
    returns (r: Result<seq<R>, Exception>)
    ensures r == MapResult(DedupBy(ordered, key), run)
  {
    var results: seq<R> := [];
    var executed: set<int> := {};
    var i := 0;
    while i < |ordered|
      invariant Visited(ordered, key, run, i, executed, results)
    {
      var x := ordered[i];
      // `executed.Add` inserts the key and reports whether it was new
      var added := key(x) !in executed;
      if added {
        var res := run(x);
        if res.Failure? {
          VisitFails(ordered, key, run, i, executed, results);
          return Failure(res.error);
        }
        VisitRuns(ordered, key, run, i, executed, results);
        results := results + [res.value];
      } else {
        VisitSkip(ordered, key, run, i, executed, results);
      }
      executed := executed + {key(x)};
      i := i + 1;
    }
    VisitedAll(ordered, key, run, executed, results);
    r := Success(results);
  }

  /** `EseguiStepsAsync`: `OrderBy` the number, then each number once. */
  method ExecuteSteps(steps: seq<GptStep>, query: Query, python: Python) returns (r: Result<seq<StepResult>, Exception>)
    ensures r == ExecutedSteps(steps, query, python)
  {
    var ordered := SortBy(steps, StepNumber);
    r := RunFirstOfEach(ordered, StepNumber, Runner(query, python));
  }

  /** The results follow the scheduled steps one to one, in strictly increasing
      number order; each holds its step's table and, exactly when the step has code,
      the code's output. */
  lemma ExecutedStepsSpec(steps: seq<GptStep>, query: Query, python: Python)
    requires ExecutedSteps(steps, query, python).Success?
    ensures var rs := ExecutedSteps(steps, query, python).value;
            var sched := ScheduledSteps(steps);
            && |rs| == |sched|
            && StrictlyIncreasingBy(rs, ResultNumber)
            && forall k :: 0 <= k < |rs| ==>
                 && rs[k].number == sched[k].number
                 && Success(rs[k].table) == query(sched[k].sql)
                 && (rs[k].py.Some? <==> !IsNullOrWhiteSpace(sched[k].python))
  {
    var sched := ScheduledSteps(steps);
    DedupBySortedIncreasing(SortBy(steps, StepNumber), StepNumber);
    var rs := ExecutedSteps(steps, query, python).value;
    MapResultSuccess(sched, Runner(query, python));
    forall k | 0 <= k < |rs| ensures rs[k] == RunStep(sched[k], query, python).value {
      assert rs[k] == Runner(query, python)(sched[k]).value;
    }
  }

  /** Steps as the extractor returns them already are in order and unique, so the
      executor runs every one of them, in the same order. */
  lemma ScheduleOfExtracted(reply: string)
    requires ExtractedSteps(reply).Success?
    ensures ScheduledSteps(ExtractedSteps(reply).value) == ExtractedSteps(reply).value
  {
    var steps := ExtractedSteps(reply).value;
    ExtractedStepsSpec(reply);
    SortBySorted(steps, StepNumber);
    DedupByDistinct(steps, StepNumber);
  }

  // ---- synthesis --------------------------------------------------------------------

  const Closing: string := "Fornisci una breve sintesi."

  function StepHeader(n: int): string {
    "Step " + IntToString(n) + ":"
  }

  /** The lines `InviaAdAnalistaAsync` appends for a script's output, if any. */
  function PythonLines(py: Option<PythonOutput>): seq<string> {
    match py
    case Some(o) => ["Risultato Python: " + o.result, "Formula: " + o.formula, "Spiegazione: " + o.explain]
    case None => []
  }

  /** The lines `InviaAdAnalistaAsync` appends for one result. */
  function SectionLines(r: StepResult): seq<string> {
    [StepHeader(r.number), Markdown(r.table)] + PythonLines(r.py) + [""]
  }

  function AllSectionLines(rs: seq<StepResult>): seq<string> {
    if rs == [] then [] else AllSectionLines(rs[..|rs| - 1]) + SectionLines(rs[|rs| - 1])
  }

  /** The message for the analyst: one section per result in number order, then the
      closing request. */
  function AnalystMessage(results: seq<StepResult>): string {
    Lines(AllSectionLines(SortBy(results, ResultNumber)) + [Closing])
  }

  /** The three `AppendLine` calls for a script's output. */
  method AppendPython(sb: string, py: Option<PythonOutput>) returns (sb': string)
    ensures sb' == sb + Lines(PythonLines(py))
  {
    sb' := sb;
    if py.Some? {
      var o := py.value;
      var l1, l2, l3 := "Risultato Python: " + o.result, "Formula: " + o.formula, "Spiegazione: " + o.explain;
      sb' := sb' + l1 + NewLine;
      sb' := sb' + l2 + NewLine;
      sb' := sb' + l3 + NewLine;
      ThreeLines(l1, l2, l3);
    }
  }

  lemma ThreeLines(l1: string, l2: string, l3: string)
    ensures Lines([l1, l2, l3]) == l1 + NewLine + l2 + NewLine + l3 + NewLine
  {
    LinesSnoc([], l1);
    assert [] + [l1] == [l1];
    LinesSnoc([l1], l2);
    assert [l1] + [l2] == [l1, l2];
    LinesSnoc([l1, l2], l3);
    assert [l1, l2] + [l3] == [l1, l2, l3];
  }

  lemma SectionText(h: string, md: string, py: seq<string>)
    ensures Lines([h, md] + py + [""]) == h + NewLine + md + NewLine + Lines(py) + NewLine
  {
    LinesSnoc([], h);
    assert [] + [h] == [h];
    LinesSnoc([h], md);
    assert [h] + [md] == [h, md];
    LinesAppend([h, md], py);
    LinesSnoc([h, md] + py, "");
  }

  /** The `AppendLine` calls for one result. */
  method AppendSection(sb: string, r: StepResult) returns (sb': string)
    ensures sb' == sb + Lines(SectionLines(r))
  {
    var header := StepHeader(r.number);
    var md := DataTableToMarkdown(r.table);
    var body := header + NewLine + md + NewLine;
    body := AppendPython(body, r.py);
    body := body + NewLine;
    SectionText(header, md, PythonLines(r.py));
    sb' := sb + body;
  }

  lemma SectionsSnoc(rs: seq<StepResult>, i: nat)
    requires i < |rs|
    ensures Lines(AllSectionLines(rs[..i + 1])) == Lines(AllSectionLines(rs[..i])) + Lines(SectionLines(rs[i]))
  {
    assert rs[..i + 1][..i] == rs[..i];
    LinesAppend(AllSectionLines(rs[..i]), SectionLines(rs[i]));
  }

  /** The `foreach` of `InviaAdAnalistaAsync`: one section per result, in order. */
  method AppendSections(rs: seq<StepResult>) returns (sb: string)
    ensures sb == Lines(AllSectionLines(rs))
  {
    sb := "";
    var i := 0;
    while i < |rs|
      invariant i <= |rs|
      invariant sb == Lines(AllSectionLines(rs[..i]))
    {
      SectionsSnoc(rs, i);
      sb := AppendSection(sb, rs[i]);
      i := i + 1;
    }
    assert rs[..i] == rs;
  }

  /** The message `InviaAdAnalistaAsync` builds before handing it to the assistant:
      the sections in number order, then the closing request. */
  method AnalystRequest(results: seq<StepResult>) returns (msg: string)
    ensures msg == AnalystMessage(results)
  {
    var sb := AppendSections(SortBy(results, ResultNumber));
    LinesSnoc(AllSectionLines(SortBy(results, ResultNumber)), Closing);
    msg := sb + Closing + NewLine;
  }

  /** For the executor's results the sections follow execution order, and the
      message ends with the closing request. */
  lemma AnalystMessageOfExecuted(steps: seq<GptStep>, query: Query, python: Python)
    requires ExecutedSteps(steps, query, python).Success?
    ensures var rs := ExecutedSteps(steps, query, python).value;
            AnalystMessage(rs) == Lines(AllSectionLines(rs)) + Closing + NewLine
  {
    var rs := ExecutedSteps(steps, query, python).value;
    ExecutedStepsSpec(steps, query, python);
    SortBySorted(rs, ResultNumber);
    LinesSnoc(AllSectionLines(rs), Closing);
  }
}
