/** The chat window: single-step extraction of a reply (`EstraiSqlPythonEFlag`,
    `TryEstrarreQuery`), the message for the error-corrector assistant
    (`CorreggiRispostaAsync`), and the conversation itself (`GestioneConversazioneAsync`,
    `ProvaRecuperoDaRAGAsync`, `btnFeedback_Click`).

    Everything the window talks to is a parameter: the embedding service, the chat
    completion and the assistants, the data store, the Python sandbox, the graph's
    nearest-neighbour search and its serialisation (see `Services`). */
module MainWindow {
  import opened Wrappers
  import opened Text
  import opened Scanner
  import opened DataTables
  import opened Ordering
  import opened MultiSteps
  import opened BinaryFormat
  import opened HnswIndex

  // ---- single-step extraction -------------------------------------------------------

  /** The reference definition of `Regex.Match`: a match at (i, j) with no match
      starting earlier and no shorter body at i. */
  ghost predicate FirstMatch(p: Pattern, s: string, i: nat, j: nat) {
    && MatchAt(p, s, i, j)
    && (forall i': nat, j': nat :: i' < i ==> !MatchAt(p, s, i', j'))
    && (forall j': nat :: i + |Opener(p)| + MinBody(p) <= j' < j ==> TailAt(p, s, j').None?)
  }

  /** The last group of a match whose body ends at j. */
  function TagText(p: Pattern, s: string, j: nat): string
    requires TailAt(p, s, j).Some?
  {
    s[TailAt(p, s, j).value.0..TailAt(p, s, j).value.1]
  }

  /** The body and last group of the first match of p, if any. */
  function FirstGroups(p: Pattern, s: string): Option<(string, string)> {
    match FirstFrom(p, s, 0)
    case None => None
    case Some(h) => Some((Body(s, h), Tag(s, h)))
  }

  /** The scanner's `FirstFrom` finds exactly the first match. */
  lemma FirstFromIsFirst(p: Pattern, s: string, i: nat, j: nat)
    requires FirstMatch(p, s, i, j)
    ensures FirstFrom(p, s, 0) == Some(HitOf(p, s, i, j))
  {
    var r := FirstFrom(p, s, 0);
    assert r.Some? by { assert MatchAt(p, s, i, j); }
    var h := r.value;
    assert MatchAt(p, s, h.start, h.bodyEnd) && MatchAt(p, s, i, j);
    assert h.start == i;
    assert TailAt(p, s, h.bodyEnd).Some? && TailAt(p, s, j).Some?;
    assert h.bodyEnd == j;
  }

  lemma FirstHitMatches(p: Pattern, s: string)
    requires FirstFrom(p, s, 0).Some?
    ensures var h := FirstFrom(p, s, 0).value; FirstMatch(p, s, h.start, h.bodyEnd)
  {
  }

  lemma HitGroups(p: Pattern, s: string, i: nat, j: nat)
    requires MatchAt(p, s, i, j)
    ensures Body(s, HitOf(p, s, i, j)) == s[i + |Opener(p)|..j]
    ensures Tag(s, HitOf(p, s, i, j)) == TagText(p, s, j)
  {
    var h, t := HitOf(p, s, i, j), TailAt(p, s, j).value;
    assert h.bodyStart == i + |Opener(p)| && h.bodyEnd == j && h.tagStart == t.0 && h.tagEnd == t.1;
  }

  /** `Regex.Match` finds nothing exactly when the pattern matches nowhere; when it
      finds something, that is a first match. */
  lemma FirstGroupsNone(p: Pattern, s: string)
    ensures FirstGroups(p, s).None? <==> forall i: nat, j: nat :: !MatchAt(p, s, i, j)
    ensures FirstGroups(p, s).Some? ==> exists i: nat, j: nat :: FirstMatch(p, s, i, j)
  {
    if FirstFrom(p, s, 0).Some? {
      var h := FirstFrom(p, s, 0).value;
      FirstHitMatches(p, s);
      assert MatchAt(p, s, h.start, h.bodyEnd);
    }
  }

  /** `Regex.Match` returns the groups of the first match. */
  lemma FirstGroupsAt(p: Pattern, s: string, i: nat, j: nat)
    requires FirstMatch(p, s, i, j)
    ensures i + |Opener(p)| <= j <= |s|
    ensures FirstGroups(p, s) == Some((s[i + |Opener(p)|..j], TagText(p, s, j)))
  {
    FirstFromIsFirst(p, s, i, j);
    HitGroups(p, s, i, j);
  }

  /** The flag group is a single `0` or `1`, and `int.Parse` reads it as that number. */
  lemma FlagGroup(s: string)
    requires FirstGroups(FlaggedSql, s).Some?
    ensures var tag := FirstGroups(FlaggedSql, s).value.1;
            (tag == "0" && ParseInt32(tag) == Success(0)) || (tag == "1" && ParseInt32(tag) == Success(1))
  {
    var h := FirstFrom(FlaggedSql, s, 0).value;
    HitOfShape(FlaggedSql, s, h.start, h.bodyEnd);
    var tag := Tag(s, h);
    ParseDigits(tag);
    assert tag[..0] == "";
  }

  /** What `EstraiSqlPythonEFlag` returns. */
  datatype Extraction = Extraction(sql: string, flag: i32, python: Option<string>)

  /** The trimmed body of the first "```python ... ```" block, if any. */
  function PythonBlockOf(reply: string): Option<string> {
    match FirstGroups(PythonBlock, reply)
    case None => None
    case Some(g) => Some(Trim(g.0))
  }

  /** No Python block is found exactly when the reply holds none; otherwise the code is
      the trimmed body of the first one (after its nine-character opener). */
  lemma PythonBlockSpec(reply: string)
    ensures PythonBlockOf(reply).None? <==> forall i: nat, j: nat :: !MatchAt(PythonBlock, reply, i, j)
    ensures PythonBlockOf(reply).Some? ==> exists i: nat, j: nat :: FirstMatch(PythonBlock, reply, i, j)
  {
    FirstGroupsNone(PythonBlock, reply);
  }

  lemma PythonBlockAt(reply: string, i: nat, j: nat)
    requires FirstMatch(PythonBlock, reply, i, j)
    ensures i + 9 <= j <= |reply| && PythonBlockOf(reply) == Some(Trim(reply[i + 9..j]))
  {
    FirstGroupsAt(PythonBlock, reply, i, j);
  }

  /** `EstraiSqlPythonEFlag`: the first `@sql@0` or `@sql@1` block, or an exception
      when there is none; the Python block is looked up on its own. */
  function ExtractSqlPythonFlag(reply: string): Result<Extraction, Exception> {
    match FirstGroups(FlaggedSql, reply)
    case None => Failure(MissingSqlBlock)
    case Some(g) =>
      match ParseInt32(g.1)
      case Failure(e) => Failure(e)
      case Success(flag) => Success(Extraction(Trim(g.0), flag, PythonBlockOf(reply)))
  }

  /** Extraction fails exactly when the reply has no `@...@0|1` block at all, and then
      with the missing-block exception; on success the flag is 0 or 1 and the Python
      part is that of the reply alone, wherever the SQL block sits. */
  lemma ExtractionFails(reply: string)
    ensures var r := ExtractSqlPythonFlag(reply);
            && (r.Failure? <==> forall i: nat, j: nat :: !MatchAt(FlaggedSql, reply, i, j))
            && (r.Failure? ==> r.error == MissingSqlBlock)
            && (r.Success? ==> (r.value.flag == 0 || r.value.flag == 1) && r.value.python == PythonBlockOf(reply))
  {
    FirstGroupsNone(FlaggedSql, reply);
    if FirstGroups(FlaggedSql, reply).Some? {
      FlagGroup(reply);
    }
  }

  lemma FlagTagAt(reply: string, j: nat)
    requires TailAt(FlaggedSql, reply, j).Some?
    ensures j + 2 <= |reply| && TagText(FlaggedSql, reply, j) == [reply[j + 1]]
  {
  }

  /** For the first `@...@0|1` block, at (i, j): the SQL is its trimmed body and the
      flag is the digit after the closing `@`. */
  lemma ExtractionAt(reply: string, i: nat, j: nat)
    requires FirstMatch(FlaggedSql, reply, i, j)
    ensures i + 1 <= j && j + 2 <= |reply|
    ensures ExtractSqlPythonFlag(reply)
            == Success(Extraction(Trim(reply[i + 1..j]), if reply[j + 1] == '1' then 1 else 0, PythonBlockOf(reply)))
  {
    FirstGroupsAt(FlaggedSql, reply, i, j);
    FlagTagAt(reply, j);
    FlagGroup(reply);
    assert FirstGroups(FlaggedSql, reply) == Some((reply[i + 1..j], [reply[j + 1]]));
  }

  /** `TryEstrarreQuery`: `(found, sql, flag)`; an `int.Parse` that threw would be the
      failure. */
  function TryExtractQuery(text: string): Result<(bool, string, i32), Exception> {
    match FirstGroups(FlaggedSql, text)
    case None => Success((false, "", -1))
    case Some(g) =>
      match ParseInt32(g.1)
      case Failure(e) => Failure(e)
      case Success(flag) => Success((true, Trim(g.0), flag))
  }

  /** `TryEstrarreQuery` never throws; it reports no block as `(false, "", -1)` and
      otherwise finds the same SQL and flag as `EstraiSqlPythonEFlag`. */
  lemma TryExtractAgrees(text: string)
    ensures TryExtractQuery(text).Success?
    ensures var t := TryExtractQuery(text).value;
            var e := ExtractSqlPythonFlag(text);
            && (t.0 <==> e.Success?)
            && (!t.0 ==> t == (false, "", -1))
            && (t.0 ==> t.1 == e.value.sql && t.2 == e.value.flag)
  {
    if FirstGroups(FlaggedSql, text).Some? {
      FlagGroup(text);
    }
  }

  // ---- assistant messages -----------------------------------------------------------

  /** `CorreggiRispostaAsync`: the message for the error-corrector assistant. */
  function CorrectorMessage(question: string, prompt: string, reply: string, error: string): string {
    "DOMANDA:\n" + question + "\n\nPROMPT:\n" + prompt + "\n\nRISPOSTA:\n" + reply + "\n\nERRORE:\n" + error
  }

  /** The corrector's message holds the question, the prompt, the failed reply and the
      error text, in that order, each right after its label. */
  lemma CorrectorMessageLayout(question: string, prompt: string, reply: string, error: string)
    ensures var m := CorrectorMessage(question, prompt, reply, error);
            var p := 9 + |question| + 10;
            var r := p + |prompt| + 12;
            var e := r + |reply| + 10;
            && |m| == e + |error|
            && m[..9] == "DOMANDA:\n" && m[9..9 + |question|] == question
            && m[9 + |question|..p] == "\n\nPROMPT:\n" && m[p..p + |prompt|] == prompt
            && m[p + |prompt|..r] == "\n\nRISPOSTA:\n" && m[r..r + |reply|] == reply
            && m[r + |reply|..e] == "\n\nERRORE:\n" && m[e..] == error
  {
  }

  /** The request of `OttieniSpiegazioneDaGPT`: question, SQL and rendered result, one
      `AppendLine` each, then the request for a short explanation. */
  function ExplanationPrompt(question: string, sql: string, t: Table): string {
    Lines(["Domanda: " + question, "Query SQL: " + sql, "Risultati:\n" + Markdown(t), "Spiega in breve."])
  }

  // ---- the services the window calls ------------------------------------------------

  /** An embedding is a float array, so its length fits in an `int`. */
  type Embedder = f: string -> Vector | forall s :: FitsInt32(f(s)) witness (s: string) => []

  /** Everything outside the window, each as the function it computes. A network or
      database call that can fail returns a `Result`. */
  datatype Services = Services(
    embed: Embedder,                          // EmbeddingService.GetEmbeddingAsync(...).ToArray()
    normalize: Normalizer,                    // HnswIndexService.Normalize
    knn: Knn,                                 // the graph's KNNSearch
    serializeGraph: seq<Vector> -> seq<byte>, // the graph's SerializeGraph
    initialPrompt: string -> string,          // BuildInitialPrompt
    complete: string -> string,               // CallGPTAsync
    correct: string -> string,                // the error-corrector assistant
    analyse: string -> string,                // the analyst assistant
    explainForIndex: string -> string,        // GeneraTestoEmbeddingAsync
    describe: Exception -> string,            // Exception.ToString()
    query: Query,                             // EseguiQueryAsync
    python: Python)                           // EseguiPythonAsync on the table's CSV

  // ---- what a turn shows and remembers ----------------------------------------------

  /** A chat bubble: the user's text, a text from the assistant, or a script's output. */
  datatype ChatMessage = UserText(text: string) | BotText(text: string) | BotPython(output: PythonOutput)

  /** A row of `tbEmbeddingRAG` as `GetByIdAsync` reads it. */
  datatype RagRow = RagRow(question: string, sql: string, text: string, python: Option<string>)

  /** A successful answer: the bubbles it adds and the SQL and Python it leaves as the
      last interaction. */
  datatype Answer = Answer(shown: seq<ChatMessage>, sql: string, python: Option<string>)

  /** The outcome of one turn: the exception it ends with, if any; the assistant's
      bubbles; the answer it records as the last interaction (`None`: the fields keep
      their values); the new value of `correctionAttempted` (`None`: unchanged). */
  datatype Turn = Turn(error: Option<Exception>, shown: seq<ChatMessage>, recorded: Option<Answer>, corrected: Option<bool>)

  /** The window's fields. */
  datatype Window = Window(messages: seq<ChatMessage>, lastQuestion: Option<string>, lastSql: Option<string>,
                           lastPython: Option<string>, correctionAttempted: bool)

  /** The window after a turn on `question`. */
  function Apply(w: Window, question: string, t: Turn): Window {
    Window(w.messages + t.shown,
           if t.recorded.Some? then Some(question) else w.lastQuestion,
           if t.recorded.Some? then Some(t.recorded.value.sql) else w.lastSql,
           if t.recorded.Some? then t.recorded.value.python else w.lastPython,
           if t.corrected.Some? then t.corrected.value else w.correctionAttempted)
  }

  function Record(a: Answer): Turn {
    Turn(None, a.shown, Some(a), None)
  }

  function Abort(e: Exception): Turn {
    Turn(Some(e), [], None, None)
  }

  /** A path's answer recorded, or its error reported. */
  function Outcome(res: Result<Answer, Exception>): Turn {
    match res
    case Failure(e) => Abort(e)
    case Success(a) => Record(a)
  }

  // ---- RAG replay -------------------------------------------------------------------

  /** The similarity a top hit must exceed (`0.70f`). */
  const RagThreshold: real := 0.70

  /** The conversation's test: at least one hit and the top score strictly above. */
  function Recalled(hits: seq<(i32, real)>): Option<i32> {
    if |hits| > 0 && hits[0].1 > RagThreshold then Some(hits[0].0) else None
  }

  /** `ProvaRecuperoDaRAGAsync`'s test: at least one hit and the top score not below. */
  function RecalledAtLeast(hits: seq<(i32, real)>): Option<i32> {
    if |hits| == 0 || hits[0].1 < RagThreshold then None else Some(hits[0].0)
  }

  /** The two tests pick the same hit except at a top score of exactly 0.70, which
      only `ProvaRecuperoDaRAGAsync` accepts. */
  lemma ThresholdsDiffer(hits: seq<(i32, real)>)
    ensures Recalled(hits).Some? ==> RecalledAtLeast(hits) == Recalled(hits)
    ensures Recalled(hits) != RecalledAtLeast(hits) <==> |hits| > 0 && hits[0].1 == RagThreshold
  {
  }

  function RagMessage(md: string, row: RagRow): string {
    "**[MEMORIA RAG]**\n\n" + md + "\n\n_" + row.text + "_"
  }

  function RecallMessage(md: string, row: RagRow): string {
    "**(Risposta da memoria RAG)**\n\n" + md + "\n\n_" + row.text + "_"
  }

  /** The replay of a stored row: its query re-run and rendered, with its text. */
  function Replay(row: RagRow, query: Query, message: (string, RagRow) -> string): Result<Option<string>, Exception> {
    match query(row.sql)
    case Failure(e) => Failure(e)
    case Success(t) => Success(Some(message(Markdown(t), row)))
  }

  /** The RAG step of `GestioneConversazioneAsync`: the replayed answer, `None` to go on
      to plan generation, or the exception of the replayed query. */
  function RagAnswer(hits: seq<(i32, real)>, rows: map<i32, RagRow>, query: Query): Result<Option<string>, Exception> {
    match Recalled(hits)
    case None => Success(None)
    case Some(id) => if id in rows then Replay(rows[id], query, RagMessage) else Success(None)
  }

  /** The same for `ProvaRecuperoDaRAGAsync`. */
  function RecallAnswer(hits: seq<(i32, real)>, rows: map<i32, RagRow>, query: Query): Result<Option<string>, Exception> {
    match RecalledAtLeast(hits)
    case None => Success(None)
    case Some(id) => if id in rows then Replay(rows[id], query, RecallMessage) else Success(None)
  }

  /** The conversation goes on to plan generation exactly when there is no hit, the
      top score is not above 0.70, or the top hit's row is missing; it replays only
      the top hit's row, and fails only when that row's query fails. */
  lemma RagAnswerSpec(hits: seq<(i32, real)>, rows: map<i32, RagRow>, query: Query)
    ensures var r := RagAnswer(hits, rows, query);
            && (r == Success(None) <==> |hits| == 0 || !(hits[0].1 > RagThreshold) || hits[0].0 !in rows)
            && (r.Success? && r.value.Some? ==>
                  |hits| > 0 && hits[0].1 > RagThreshold && hits[0].0 in rows
                  && query(rows[hits[0].0].sql).Success?
                  && r.value.value == RagMessage(Markdown(query(rows[hits[0].0].sql).value), rows[hits[0].0]))
            && (r.Failure? ==> |hits| > 0 && hits[0].0 in rows && query(rows[hits[0].0].sql) == Failure(r.error))
  {
  }

  /** Whenever the conversation replays a row, `ProvaRecuperoDaRAGAsync` replays the
      same row; at a top score of exactly 0.70 only the latter does. */
  lemma RecallAcceptsMore(hits: seq<(i32, real)>, rows: map<i32, RagRow>, query: Query)
    ensures RagAnswer(hits, rows, query).Success? && RagAnswer(hits, rows, query).value.Some?
            ==> RecallAnswer(hits, rows, query).Success? && RecallAnswer(hits, rows, query).value.Some?
    ensures |hits| > 0 && hits[0].1 == RagThreshold && hits[0].0 in rows && query(rows[hits[0].0].sql).Success?
            ==> RagAnswer(hits, rows, query) == Success(None) && RecallAnswer(hits, rows, query).value.Some?
  {
  }

  // ---- single-step answers ----------------------------------------------------------

  /** The script's output of an attempt: none when the code is null or blank. */
  function PythonStep(code: Option<string>, t: Table, python: Python): Result<Option<PythonOutput>, Exception> {
    if IsNullOrWhiteSpace(code) then Success(None)
    else
      match python(code.value, t)
      case Failure(e) => Failure(e)
      case Success(o) => Success(Some(o))
  }

  function OutputMessages(out: Option<PythonOutput>): seq<ChatMessage> {
    match out
    case None => []
    case Some(o) => [BotPython(o)]
  }

  /** One pass of the `try` block: extract, query, run the script; only then are the
      table, the explanation (flag 1) and the script's output shown. */
  function AttemptAnswer(question: string, reply: string, sv: Services): Result<Answer, Exception> {
    match ExtractSqlPythonFlag(reply)
    case Failure(e) => Failure(e)
    case Success(x) => AnswerFrom(question, x, sv)
  }

  /** The rest of the pass once the SQL, flag and code are extracted. */
  function AnswerFrom(question: string, x: Extraction, sv: Services): Result<Answer, Exception> {
    match sv.query(x.sql)
    case Failure(e) => Failure(e)
    case Success(t) =>
      match PythonStep(x.python, t, sv.python)
      case Failure(e) => Failure(e)
      case Success(out) => Success(Answer(Explained(question, x.sql, x.flag, t, sv.complete) + OutputMessages(out), x.sql, x.python))
  }

  /** The bubbles before the script's output: the rendered table, then the
      explanation when the flag is 1. */
  function Explained(question: string, sql: string, flag: i32, t: Table, complete: string -> string): seq<ChatMessage> {
    var table := [BotText(Markdown(t))];
    if flag == 1 then table + [BotText(complete(ExplanationPrompt(question, sql, t)))] else table
  }

  /** An attempt succeeds exactly when the reply has an SQL block whose query succeeds
      and whose script, if any, succeeds. It then records that SQL and script, and shows
      the rendered table first, the explanation only for flag 1, and the script's
      output only when there is code. A failure is the first failing step's. */
  lemma AttemptSpec(question: string, reply: string, sv: Services)
    ensures var r := AttemptAnswer(question, reply, sv);
            var x := ExtractSqlPythonFlag(reply);
            && (x.Failure? ==> r == Failure(x.error))
            && (x.Success? && sv.query(x.value.sql).Failure? ==> r == Failure(sv.query(x.value.sql).error))
            && (r.Success? <==> x.Success? && sv.query(x.value.sql).Success?
                                && (IsNullOrWhiteSpace(x.value.python)
                                    || sv.python(x.value.python.value, sv.query(x.value.sql).value).Success?))
            && (r.Success? ==>
                  && r.value.sql == x.value.sql && r.value.python == x.value.python
                  && |r.value.shown| == 1 + (if x.value.flag == 1 then 1 else 0)
                                          + (if IsNullOrWhiteSpace(x.value.python) then 0 else 1)
                  && r.value.shown[0] == BotText(Markdown(sv.query(x.value.sql).value)))
  {
  }

  /** The corrected reply: the corrector is given the question, the initial prompt,
      the failed reply and the text of the first attempt's exception. */
  function CorrectedReply(question: string, prompt: string, reply: string, e: Exception, sv: Services): string {
    sv.correct(CorrectorMessage(question, prompt, reply, sv.describe(e)))
  }

  /** The `for attempt` loop: a failed first attempt is retried once on the corrected
      reply; a second failure is the turn's exception. */
  function SingleStepAnswer(question: string, prompt: string, reply: string, sv: Services): Result<Answer, Exception> {
    match AttemptAnswer(question, reply, sv)
    case Success(a) => Success(a)
    case Failure(e) => AttemptAnswer(question, CorrectedReply(question, prompt, reply, e, sv), sv)
  }

  /** The single-step path: `correctionAttempted` ends true exactly when the first
      attempt failed. */
  function SingleStepTurn(question: string, prompt: string, reply: string, sv: Services): Turn {
    Outcome(SingleStepAnswer(question, prompt, reply, sv)).(corrected := Some(AttemptAnswer(question, reply, sv).Failure?))
  }

  // ---- multi-step answers -----------------------------------------------------------

  /** The bubbles for one step result: `**Step N:**` and the table (the `\\n` of the
      source is a literal backslash and `n`), then the script's output if any. */
  function StepMessage(r: StepResult): seq<ChatMessage> {
    [BotText("**Step " + IntToString(r.number) + ":**\\n\\n" + Markdown(r.table))] + OutputMessages(r.py)
  }

  function StepMessages(rs: seq<StepResult>): seq<ChatMessage> {
    if rs == [] then [] else StepMessages(rs[..|rs| - 1]) + StepMessage(rs[|rs| - 1])
  }

  /** `steps.Select(s => s.Sql)`. */
  function StepSqls(steps: seq<GptStep>): (sqls: seq<string>)
    ensures |sqls| == |steps| && forall k :: 0 <= k < |steps| ==> sqls[k] == steps[k].sql
  {
    seq(|steps|, k requires 0 <= k < |steps| => steps[k].sql)
  }

  /** `steps.Where(s => !IsNullOrWhiteSpace(s.Python)).Select(s => s.Python!)`. */
  function StepPythons(steps: seq<GptStep>): seq<string> {
    if steps == [] then []
    else
      var last := steps[|steps| - 1];
      StepPythons(steps[..|steps| - 1]) + (if IsNullOrWhiteSpace(last.python) then [] else [last.python.value])
  }

  /** The Python code recorded for a plan: the code of exactly the steps that have
      some, in step order; none of it is blank. */
  lemma {:induction false} StepPythonsSpec(steps: seq<GptStep>)
    ensures forall x :: x in StepPythons(steps) ==> !IsNullOrWhiteSpace(Some(x))
    ensures forall x :: x in StepPythons(steps) <==>
              exists k :: 0 <= k < |steps| && !IsNullOrWhiteSpace(steps[k].python) && steps[k].python.value == x
    ensures (forall k :: 0 <= k < |steps| ==> IsNullOrWhiteSpace(steps[k].python)) ==> StepPythons(steps) == []
  {
    if steps != [] {
      var init, last := steps[..|steps| - 1], steps[|steps| - 1];
      var tail := if IsNullOrWhiteSpace(last.python) then [] else [last.python.value];
      assert StepPythons(steps) == StepPythons(init) + tail;
      StepPythonsSpec(init);
      forall x ensures x in StepPythons(steps) <==>
                       exists k :: 0 <= k < |steps| && !IsNullOrWhiteSpace(steps[k].python) && steps[k].python.value == x
      {
        if x in StepPythons(init) {
          var k :| 0 <= k < |init| && !IsNullOrWhiteSpace(init[k].python) && init[k].python.value == x;
          assert steps[k] == init[k];
        }
        if exists k :: 0 <= k < |steps| && !IsNullOrWhiteSpace(steps[k].python) && steps[k].python.value == x {
          var k :| 0 <= k < |steps| && !IsNullOrWhiteSpace(steps[k].python) && steps[k].python.value == x;
          if k < |init| {
            assert init[k] == steps[k];
          }
        }
      }
    }
  }

  /** The multi-step path: extract the plan, run it, show each result in number order
      and then the analyst's synthesis; record all the SQL, and the code of the steps
      that have some, each joined by a blank line. */
  function MultiStepAnswer(reply: string, sv: Services): Result<Answer, Exception> {
    match ExtractedSteps(reply)
    case Failure(e) => Failure(e)
    case Success(steps) =>
      match ExecutedSteps(steps, sv.query, sv.python)
      case Failure(e) => Failure(e)
      case Success(rs) =>
        Success(Answer(StepMessages(SortBy(rs, ResultNumber)) + [BotText(sv.analyse(AnalystMessage(rs)))],
                       Join("\n\n", StepSqls(steps)), Some(Join("\n\n", StepPythons(steps)))))
  }

  function MultiStepTurn(reply: string, sv: Services): Turn {
    Outcome(MultiStepAnswer(reply, sv))
  }

  /** After RAG falls through: ask for a plan and follow the multi-step path when the
      reply carries a step marker, the single-step path otherwise. */
  function PlanTurn(question: string, sv: Services): Turn {
    var prompt := sv.initialPrompt(question);
    var reply := sv.complete(prompt);
    if HasStepMarker(reply) then MultiStepTurn(reply, sv) else SingleStepTurn(question, prompt, reply, sv)
  }

  /** A whole turn of `GestioneConversazioneAsync`, given the index's answer to the
      question and the RAG table. */
  function TurnOf(question: string, hits: Result<seq<(i32, real)>, Exception>, rows: map<i32, RagRow>, sv: Services): Turn {
    TurnAfter(question, RagStep(hits, rows, sv.query), sv)
  }

  /** The turn once step 1 has given its answer: its failure, its replayed text, or
      plan generation when it found nothing. */
  function TurnAfter(question: string, rag: Result<Option<string>, Exception>, sv: Services): Turn {
    match rag
    case Failure(e) => Abort(e)
    case Success(Some(text)) => Turn(None, [BotText(text)], None, None)
    case Success(None) => PlanTurn(question, sv)
  }

  /** A path's outcome records its answer exactly when it succeeds; a failure shows
      nothing. */
  lemma OutcomeShape(res: Result<Answer, Exception>)
    ensures var t := Outcome(res);
            && (t.recorded.Some? <==> res.Success?) && (t.error.Some? <==> res.Failure?)
            && (res.Success? ==> t.recorded.value == res.value && t.shown == res.value.shown)
            && (res.Failure? ==> t.shown == [] && t.error.value == res.error)
            && t.corrected.None?
  {
  }

  /** After plan generation the turn records its answer exactly when it ends without an
      exception, and shows nothing when it fails; only the single-step path sets
      `correctionAttempted`, and then to whether its first attempt failed. */
  lemma PlanTurnShape(question: string, sv: Services)
    ensures var t := PlanTurn(question, sv);
            var prompt := sv.initialPrompt(question);
            var reply := sv.complete(prompt);
            && (t.recorded.Some? <==> t.error.None?)
            && (t.error.Some? ==> t.shown == [])
            && (HasStepMarker(reply) ==> t == Outcome(MultiStepAnswer(reply, sv)))
            && (t.corrected.Some? <==> !HasStepMarker(reply))
            && (t.corrected.Some? ==> t.corrected.value == AttemptAnswer(question, reply, sv).Failure?
                                      && (t.recorded.Some? <==> SingleStepAnswer(question, prompt, reply, sv).Success?))
  {
    var prompt := sv.initialPrompt(question);
    var reply := sv.complete(prompt);
    if HasStepMarker(reply) {
      OutcomeShape(MultiStepAnswer(reply, sv));
    } else {
      OutcomeShape(SingleStepAnswer(question, prompt, reply, sv));
    }
  }

  /** A whole turn: one that fails shows and records nothing; a RAG replay shows one
      bubble and leaves the last interaction and `correctionAttempted` alone; otherwise
      the turn is plan generation's. */
  lemma TurnShape(question: string, hits: Result<seq<(i32, real)>, Exception>, rows: map<i32, RagRow>, sv: Services)
    ensures var t := TurnOf(question, hits, rows, sv);
            var rag := RagStep(hits, rows, sv.query);
            && (t.error.Some? ==> t.shown == [] && t.recorded.None?)
            && (rag.Success? && rag.value.Some? ==> t == Turn(None, [BotText(rag.value.value)], None, None))
            && (rag == Success(None) ==> t == PlanTurn(question, sv))
  {
    if RagStep(hits, rows, sv.query) == Success(None) {
      PlanTurnShape(question, sv);
    }
  }

  /** Step 1 on the index's answer: a failed search, or the RAG replay of its hits. */
  function RagStep(hits: Result<seq<(i32, real)>, Exception>, rows: map<i32, RagRow>, query: Query): Result<Option<string>, Exception> {
    match hits
    case Failure(e) => Failure(e)
    case Success(hs) => RagAnswer(hs, rows, query)
  }

  // ---- the window -------------------------------------------------------------------

  /** The body of the `try` block, up to the first `messaggi.Add`. */
  method Attempt(question: string, reply: string, sv: Services) returns (r: Result<Answer, Exception>)
    ensures r == AttemptAnswer(question, reply, sv)
  {
    var extracted := ExtractSqlPythonFlag(reply);
    if extracted.Failure? {
      return Failure(extracted.error);
    }
    r := RunExtracted(question, extracted.value, sv);
  }

  /** The query, the script and the bubbles for an extracted SQL block. */
  method RunExtracted(question: string, x: Extraction, sv: Services) returns (r: Result<Answer, Exception>)
    ensures r == AnswerFrom(question, x, sv)
  {
    var result := sv.query(x.sql);
    if result.Failure? {
      return Failure(result.error);
    }
    var pyOut := RunScript(x.python, result.value, sv.python);
    if pyOut.Failure? {
      return Failure(pyOut.error);
    }
    var shown := Explain(question, x.sql, x.flag, result.value, sv.complete);
    if pyOut.value.Some? {
      shown := shown + [BotPython(pyOut.value.value)];
    } else {
      assert shown + OutputMessages(pyOut.value) == shown;
    }
    r := Success(Answer(shown, x.sql, x.python));
  }

  /** The script step: `RunPythonScriptAsync` when the code is not blank. */
  method RunScript(code: Option<string>, t: Table, python: Python) returns (r: Result<Option<PythonOutput>, Exception>)
    ensures r == PythonStep(code, t, python)
  {
    if IsNullOrWhiteSpace(code) {
      return Success(None);
    }
    var out := python(code.value, t);
    if out.Failure? {
      return Failure(out.error);
    }
    r := Success(Some(out.value));
  }

  /** The table bubble, then the explanation bubble for flag 1. */
  method Explain(question: string, sql: string, flag: i32, t: Table, complete: string -> string) returns (shown: seq<ChatMessage>)
    ensures shown == Explained(question, sql, flag, t, complete)
  {
    var tableMd := DataTableToMarkdown(t);
    if flag == 1 {
      var prompt := ExplanationRequest(question, sql, t);
      var explanation := complete(prompt);
      shown := [BotText(tableMd), BotText(explanation)];
      assert shown == [BotText(tableMd)] + [BotText(explanation)];
    } else {
      shown := [BotText(tableMd)];
    }
  }

  /** The steps of a plan, run in order, shown by number and summed up by the analyst. */
  method RunPlan(reply: string, sv: Services) returns (r: Result<Answer, Exception>)
    ensures r == MultiStepAnswer(reply, sv)
  {
    var steps := ExtractSteps(reply);
    if steps.Failure? {
      return Failure(steps.error);
    }
    var results := ExecuteSteps(steps.value, sv.query, sv.python);
    if results.Failure? {
      return Failure(results.error);
    }
    var shown := ShowSteps(SortBy(results.value, ResultNumber));
    var request := AnalystRequest(results.value);
    var synthesis := sv.analyse(request);
    var sqls := Join("\n\n", StepSqls(steps.value));
    var pythons := Join("\n\n", StepPythons(steps.value));
    r := Success(Answer(shown + [BotText(synthesis)], sqls, Some(pythons)));
  }

  /** `OttieniSpiegazioneDaGPT` up to the completion call. */
  method ExplanationRequest(question: string, sql: string, t: Table) returns (prompt: string)
    ensures prompt == ExplanationPrompt(question, sql, t)
  {
    var md := DataTableToMarkdown(t);
    var l1, l2, l3, l4 := "Domanda: " + question, "Query SQL: " + sql, "Risultati:\n" + md, "Spiega in breve.";
    prompt := l1 + NewLine + l2 + NewLine + l3 + NewLine + l4 + NewLine;
    FourLines(l1, l2, l3, l4);
  }

  lemma FourLines(l1: string, l2: string, l3: string, l4: string)
    ensures Lines([l1, l2, l3, l4]) == l1 + NewLine + l2 + NewLine + l3 + NewLine + l4 + NewLine
  {
    ThreeLines(l1, l2, l3);
    LinesSnoc([l1, l2, l3], l4);
    assert [l1, l2, l3] + [l4] == [l1, l2, l3, l4];
  }

  /** The explanation request holds the question, the SQL and the rendered table, in
      that order, each right after its label, and ends with the request itself; every
      line is terminated by `Environment.NewLine`. */
  lemma ExplanationPromptLayout(question: string, sql: string, t: Table)
    ensures var m := ExplanationPrompt(question, sql, t);
            var md := Markdown(t);
            var q := 9 + |question|;
            var s := q + 13 + |sql|;
            var r := s + 13;
            var e := r + |md|;
            && |m| == e + 20
            && m[..9] == "Domanda: " && m[9..q] == question
            && m[q..q + 13] == "\r\nQuery SQL: " && m[q + 13..s] == sql
            && m[s..r] == "\r\nRisultati:\n" && m[r..e] == md
            && m[e..] == "\r\nSpiega in breve.\r\n"
  {
    PromptLines(question, sql, Markdown(t));
    PromptText(question, sql, Markdown(t));
  }

  /** The explanation request with every label and terminator written out. */
  function PromptFlat(question: string, sql: string, md: string): string {
    "Domanda: " + question + "\r\nQuery SQL: " + sql + "\r\nRisultati:\n" + md + "\r\nSpiega in breve.\r\n"
  }

  /** Where each part of the flat text sits, for any table text md. */
  lemma PromptText(question: string, sql: string, md: string)
    ensures var m := PromptFlat(question, sql, md);
            var q := 9 + |question|;
            var s := q + 13 + |sql|;
            var r := s + 13;
            var e := r + |md|;
            && |m| == e + 20
            && m[..9] == "Domanda: " && m[9..q] == question
            && m[q..q + 13] == "\r\nQuery SQL: " && m[q + 13..s] == sql
            && m[s..r] == "\r\nRisultati:\n" && m[r..e] == md
            && m[e..] == "\r\nSpiega in breve.\r\n"
  {
  }

  /** Concatenation regroups. */
  lemma Assoc<T>(a: seq<T>, b: seq<T>, c: seq<T>)
    ensures a + (b + c) == a + b + c
  {
  }

  /** The four `AppendLine` calls give the flat text. */
  lemma PromptLines(question: string, sql: string, md: string)
    ensures Lines(["Domanda: " + question, "Query SQL: " + sql, "Risultati:\n" + md, "Spiega in breve."])
         == PromptFlat(question, sql, md)
  {
    var a := "Domanda: " + question;
    FourLines(a, "Query SQL: " + sql, "Risultati:\n" + md, "Spiega in breve.");
    assert NewLine + "Query SQL: " == "\r\nQuery SQL: ";
    assert NewLine + "Risultati:\n" == "\r\nRisultati:\n";
    assert NewLine + "Spiega in breve." + NewLine == "\r\nSpiega in breve.\r\n";
    Assoc(a + NewLine, "Query SQL: ", sql);
    Assoc(a, NewLine, "Query SQL: ");
    var x1 := a + "\r\nQuery SQL: " + sql;
    assert a + NewLine + ("Query SQL: " + sql) == x1;
    Assoc(x1 + NewLine, "Risultati:\n", md);
    Assoc(x1, NewLine, "Risultati:\n");
    var x2 := x1 + "\r\nRisultati:\n" + md;
    assert x1 + NewLine + ("Risultati:\n" + md) == x2;
    Assoc(x2, NewLine, "Spiega in breve.");
    Assoc(x2, NewLine + "Spiega in breve.", NewLine);
    assert x2 + NewLine + "Spiega in breve." + NewLine == x2 + "\r\nSpiega in breve.\r\n";
  }

  /** The `foreach` over the ordered results of the multi-step path. */
  method ShowSteps(rs: seq<StepResult>) returns (shown: seq<ChatMessage>)
    ensures shown == StepMessages(rs)
  {
    shown := [];
    var i := 0;
    while i < |rs|
      invariant i <= |rs|
      invariant shown == StepMessages(rs[..i])
    {
      assert rs[..i + 1][..i] == rs[..i];
      var m := ShowStep(rs[i]);
      shown := shown + m;
      i := i + 1;
    }
    assert rs[..i] == rs;
  }

  /** One iteration: the step's heading and table, then its script's output if any. */
  method ShowStep(r: StepResult) returns (shown: seq<ChatMessage>)
    ensures shown == StepMessage(r)
  {
    var md := DataTableToMarkdown(r.table);
    shown := [BotText("**Step " + IntToString(r.number) + ":**\\n\\n" + md)];
    if r.py.Some? {
      shown := shown + [BotPython(r.py.value)];
    }
  }

  /** `tbEmbeddingRAG`: its rows by identity and the last identity handed out. */
  class RagStore {
    var rows: map<i32, RagRow>
    var lastId: int

    /** Identities are handed out in increasing order, so every row's is at most the
        last one. */
    predicate Valid()
      reads this
    {
      0 <= lastId && forall id :: id in rows ==> id <= lastId
    }

    constructor (rows: map<i32, RagRow>, lastId: int)
      ensures this.rows == rows && this.lastId == lastId
    {
      this.rows := rows;
      this.lastId := lastId;
    }

    /** `GetByIdAsync`: the row with that identity, or `null`. */
    function GetById(id: i32): (r: Option<RagRow>)
      reads this
      ensures r.Some? <==> id in rows
      ensures r.Some? ==> r.value == rows[id]
    {
      if id in rows then Some(rows[id]) else None
    }

    /** `SalvaAsync`: the row goes in under the next identity, which is returned; no
        existing row is overwritten. An identity past `int.MaxValue` fails. */
    method Insert(row: RagRow) returns (r: Result<i32, Exception>)
      requires Valid()
      modifies this
      ensures Valid()
      ensures r == if old(lastId) < MaxInt32 then Success(old(lastId) + 1) else Failure(OverflowError)
      ensures r.Success? ==> r.value !in old(rows) && rows == old(rows)[r.value := row] && lastId == r.value
      ensures r.Failure? ==> rows == old(rows) && lastId == old(lastId)
    {
      if lastId >= MaxInt32 {
        return Failure(OverflowError);
      }
      var id: i32 := lastId + 1;
      rows := rows[id := row];
      lastId := id;
      r := Success(id);
    }
  }

  /** The text `btnFeedback_Click` asks the explainer about. */
  function ConfirmText(question: string, sql: string): string {
    question + "\nSQL:\n" + sql
  }

  /** What `btnFeedback_Click` reports. */
  datatype Feedback = NothingToValidate | Saved(id: i32) | SaveFailed(error: Exception)

  class Conversation {
    var messages: seq<ChatMessage>
    var lastQuestion: Option<string>
    var lastSql: Option<string>
    var lastPython: Option<string>
    var correctionAttempted: bool
    const index: HnswIndexService
    const store: RagStore
    const disk: Disk

    function State(): Window
      reads this
    {
      Window(messages, lastQuestion, lastSql, lastPython, correctionAttempted)
    }

    constructor (index: HnswIndexService, store: RagStore, disk: Disk)
      ensures this.index == index && this.store == store && this.disk == disk
      ensures State() == Window([], None, None, None, false)
    {
      this.index := index;
      this.store := store;
      this.disk := disk;
      messages := [];
      lastQuestion, lastSql, lastPython := None, None, None;
      correctionAttempted := false;
    }

    /** The `messaggi.Add` calls and the `Ultima...` assignments of a successful path. */
    method Remember(question: string, a: Answer)
      modifies this
      ensures State() == Apply(old(State()), question, Record(a))
    {
      messages := messages + a.shown;
      lastQuestion := Some(question);
      lastSql := Some(a.sql);
      lastPython := a.python;
    }

    /** The single-step path: the attempts, then the last interaction recorded only
        on success. */
    method SingleStep(question: string, prompt: string, reply: string, sv: Services)
      returns (r: Option<Exception>, ghost attempts: nat, ghost corrections: nat)
      modifies this
      ensures State() == Apply(old(State()), question, SingleStepTurn(question, prompt, reply, sv))
      ensures r == SingleStepTurn(question, prompt, reply, sv).error
      ensures attempts == (if AttemptAnswer(question, reply, sv).Success? then 1 else 2)
      ensures corrections == attempts - 1
    {
      var result;
      result, attempts, corrections := Attempts(question, prompt, reply, sv);
      r := Conclude(question, result);
    }

    /** The `for attempt` loop: at most two attempts, the corrector called once
        between them; `correctionAttempted` ends true exactly when the first failed. */
    method Attempts(question: string, prompt: string, reply: string, sv: Services)
      returns (result: Result<Answer, Exception>, ghost attempts: nat, ghost corrections: nat)
      modifies this`correctionAttempted
      ensures result == SingleStepAnswer(question, prompt, reply, sv)
      ensures correctionAttempted == AttemptAnswer(question, reply, sv).Failure?
      ensures attempts == (if AttemptAnswer(question, reply, sv).Success? then 1 else 2)
      ensures corrections == attempts - 1
    {
      ghost var first := AttemptAnswer(question, reply, sv);
      ghost var retry := if first.Success? then reply else CorrectedReply(question, prompt, reply, first.error, sv);
      correctionAttempted := false;
      var gptReply := reply;
      var attempt := 0;
      result, attempts, corrections := Failure(MissingSqlBlock), 0, 0;  // set by every exit
      while attempt < 2
        invariant attempt <= 2 && attempts == attempt && corrections == (if attempt == 0 then 0 else 1)
        invariant correctionAttempted == (attempt >= 1)
        invariant gptReply == (if attempt == 0 then reply else retry)
        invariant attempt >= 1 ==> first.Failure?
        invariant attempt == 2 ==> result == AttemptAnswer(question, retry, sv) && result.Failure?
      {
        var a := Attempt(question, gptReply, sv);
        attempts := attempts + 1;
        if a.Success? {
          result := a;
          break;
        }
        if attempt == 0 {
          correctionAttempted := true;
          gptReply := sv.correct(CorrectorMessage(question, prompt, gptReply, sv.describe(a.error)));
          corrections := corrections + 1;
        } else {
          result := a;
        }
        attempt := attempt + 1;
      }
    }

    /** The multi-step path: no retry, and the last interaction recorded only when the
        whole plan ran. */
    method MultiStep(question: string, reply: string, sv: Services) returns (r: Option<Exception>)
      modifies this
      ensures State() == Apply(old(State()), question, MultiStepTurn(reply, sv))
      ensures r == MultiStepTurn(reply, sv).error
    {
      var a := RunPlan(reply, sv);
      r := Conclude(question, a);
    }

    /** A path's answer recorded, or its error returned. */
    method Conclude(question: string, res: Result<Answer, Exception>) returns (r: Option<Exception>)
      modifies this
      ensures State() == Apply(old(State()), question, Outcome(res))
      ensures r == Outcome(res).error
    {
      if res.Failure? {
        return Some(res.error);
      }
      Remember(question, res.value);
      r := None;
    }

    /** Plan generation and whichever path the reply calls for. */
    method Plan(question: string, sv: Services) returns (r: Option<Exception>)
      modifies this
      ensures State() == Apply(old(State()), question, PlanTurn(question, sv))
      ensures r == PlanTurn(question, sv).error
    {
      var prompt := sv.initialPrompt(question);
      var reply := sv.complete(prompt);
      if HasStepMarker(reply) {
        r := MultiStep(question, reply, sv);
      } else {
        ghost var attempts: nat, corrections: nat;
        r, attempts, corrections := SingleStep(question, prompt, reply, sv);
      }
    }

    /** `GestioneConversazioneAsync`: show the question, try the RAG replay, and
        otherwise ask for a plan. */
    method HandleQuestion(question: string, sv: Services) returns (r: Option<Exception>)
      modifies this
      ensures var t := TurnOf(question, old(index.Search(sv.normalize(sv.embed(question)), DefaultK, sv.normalize, sv.knn)),
                              old(store.rows), sv);
              && State() == Apply(old(State()).(messages := old(messages) + [UserText(question)]), question, t)
              && r == t.error
    {
      messages := messages + [UserText(question)];
      var replayed := Recall(question, sv);
      r := Continue(question, replayed, sv);
    }

    /** The rest of the turn after step 1. */
    method Continue(question: string, replayed: Result<Option<string>, Exception>, sv: Services) returns (r: Option<Exception>)
      modifies this
      ensures State() == Apply(old(State()), question, TurnAfter(question, replayed, sv))
      ensures r == TurnAfter(question, replayed, sv).error
    {
      if replayed.Failure? {
        r := Some(replayed.error);
      } else if replayed.value.Some? {
        messages := messages + [BotText(replayed.value.value)];
        r := None;
      } else {
        r := Plan(question, sv);
      }
    }

    /** Step 1 of `GestioneConversazioneAsync`: the question's normalised embedding is
        looked up in the index, and the top hit replayed. */
    method Recall(question: string, sv: Services) returns (r: Result<Option<string>, Exception>)
      ensures r == RagStep(index.Search(sv.normalize(sv.embed(question)), DefaultK, sv.normalize, sv.knn), store.rows, sv.query)
    {
      var vecQuery := sv.normalize(sv.embed(question));
      var hits := index.Search(vecQuery, DefaultK, sv.normalize, sv.knn);
      if hits.Failure? {
        return Failure(hits.error);
      }
      r := RagReplay(hits.value, sv.query);
    }

    /** The top hit above the threshold, its row, and the replay of the row's query. */
    method RagReplay(hits: seq<(i32, real)>, query: Query) returns (r: Result<Option<string>, Exception>)
      ensures r == RagAnswer(hits, store.rows, query)
    {
      if |hits| > 0 && hits[0].1 > RagThreshold {
        var bestId := hits[0].0;
        var row := store.GetById(bestId);
        if row.Some? {
          var dt := query(row.value.sql);
          if dt.Failure? {
            return Failure(dt.error);
          }
          var md := DataTableToMarkdown(dt.value);
          return Success(Some(RagMessage(md, row.value)));
        }
      }
      r := Success(None);
    }

    /** `ProvaRecuperoDaRAGAsync`: it replays whenever the conversation's RAG step would,
        and otherwise only for a top score of at least 0.70 whose row exists. */
    function TryRecall(question: string, sv: Services): (r: Result<Option<string>, Exception>)
      reads index, store
      ensures var hits := index.Search(sv.normalize(sv.embed(question)), DefaultK, sv.normalize, sv.knn);
              var rag := RagStep(hits, store.rows, sv.query);
              && (rag.Success? && rag.value.Some? ==> r.Success? && r.value.Some?)
              && (r.Success? && r.value.Some? ==>
                    hits.Success? && |hits.value| > 0 && hits.value[0].1 >= RagThreshold && hits.value[0].0 in store.rows)
    {
      match index.Search(sv.normalize(sv.embed(question)), DefaultK, sv.normalize, sv.knn)
      case Failure(e) => Failure(e)
      case Success(top) => RecallAcceptsMore(top, store.rows, sv.query); RecallAnswer(top, store.rows, sv.query)
    }

    /** `btnFeedback_Click`: without a last question and SQL nothing happens; otherwise
        the explained interaction is inserted into the RAG table, its new identity and
        vector are added to the index, and the index is saved. */
    method Confirm(sv: Services) returns (f: Feedback)
      requires store.Valid() && index.Bounded() && |index.vectors| < MaxInt32 && |index.ids| < MaxInt32
      modifies store, index, disk
      ensures store.Valid() && index.Bounded()
      ensures lastQuestion.None? || lastSql.None? ==>
                f == NothingToValidate && store.rows == old(store.rows) && store.lastId == old(store.lastId)
                && index.vectors == old(index.vectors) && index.ids == old(index.ids) && disk.files == old(disk.files)
      ensures lastQuestion.Some? && lastSql.Some? && old(store.lastId) >= MaxInt32 ==>
                f == SaveFailed(OverflowError) && store.rows == old(store.rows) && store.lastId == old(store.lastId)
                && index.vectors == old(index.vectors) && index.ids == old(index.ids) && disk.files == old(disk.files)
      ensures lastQuestion.Some? && lastSql.Some? && old(store.lastId) < MaxInt32 ==>
                var text := sv.explainForIndex(ConfirmText(lastQuestion.value, lastSql.value));
                && f == Saved(old(store.lastId) + 1) && f.id !in old(store.rows) && store.lastId == f.id
                && store.rows == old(store.rows)[f.id := RagRow(lastQuestion.value, lastSql.value, text, lastPython)]
                && index.ids == old(index.ids) + [f.id]
                && index.vectors == old(index.vectors) + [sv.normalize(sv.normalize(sv.embed(text)))]
                && disk.files == SavedFiles(old(disk.files), index.pathGraph, sv.serializeGraph(index.vectors),
                                            index.vectors, index.ids)
    {
      if lastQuestion.None? || lastSql.None? {
        return NothingToValidate;
      }
      f := Persist(lastQuestion.value, lastSql.value, sv.explainForIndex, sv.embed, sv.normalize, sv.serializeGraph);
    }

    /** Steps 2 to 5 for a question and its SQL: the explanation for the index, its
        embedding, the row and vector learnt, then the index saved when they were. */
    method Persist(question: string, sql: string, explain: string -> string, embed: Embedder,
                   normalize: Normalizer, serializeGraph: seq<Vector> -> seq<byte>) returns (f: Feedback)
      requires store.Valid() && index.Bounded() && |index.vectors| < MaxInt32 && |index.ids| < MaxInt32
      modifies store, index, disk
      ensures store.Valid() && index.Bounded()
      ensures old(store.lastId) >= MaxInt32 ==>
                f == SaveFailed(OverflowError) && store.rows == old(store.rows) && store.lastId == old(store.lastId)
                && index.vectors == old(index.vectors) && index.ids == old(index.ids) && disk.files == old(disk.files)
      ensures old(store.lastId) < MaxInt32 ==>
                var text := explain(ConfirmText(question, sql));
                && f == Saved(old(store.lastId) + 1) && f.id !in old(store.rows) && store.lastId == f.id
                && store.rows == old(store.rows)[f.id := RagRow(question, sql, text, lastPython)]
                && index.ids == old(index.ids) + [f.id]
                && index.vectors == old(index.vectors) + [normalize(normalize(embed(text)))]
                && disk.files == SavedFiles(old(disk.files), index.pathGraph, serializeGraph(index.vectors),
                                            index.vectors, index.ids)
    {
      var text := explain(ConfirmText(question, sql));
      var vec := embed(text);
      var vecNorm := normalize(vec);
      f := LearnAndSave(RagRow(question, sql, text, lastPython), vecNorm, normalize, serializeGraph);
    }

    /** Steps 3 to 5: the row and its vector learnt, then the index saved when they were. */
    method LearnAndSave(row: RagRow, vector: Vector, normalize: Normalizer,
                        serializeGraph: seq<Vector> -> seq<byte>) returns (f: Feedback)
      requires store.Valid() && index.Bounded() && |index.vectors| < MaxInt32 && |index.ids| < MaxInt32
      requires FitsInt32(vector)
      modifies store, index, disk
      ensures store.Valid() && index.Bounded()
      ensures old(store.lastId) >= MaxInt32 ==>
                f == SaveFailed(OverflowError) && store.rows == old(store.rows) && store.lastId == old(store.lastId)
                && index.vectors == old(index.vectors) && index.ids == old(index.ids) && disk.files == old(disk.files)
      ensures old(store.lastId) < MaxInt32 ==>
                && f == Saved(old(store.lastId) + 1) && f.id !in old(store.rows) && store.lastId == f.id
                && store.rows == old(store.rows)[f.id := row]
                && index.ids == old(index.ids) + [f.id]
                && index.vectors == old(index.vectors) + [normalize(vector)]
                && disk.files == SavedFiles(old(disk.files), index.pathGraph, serializeGraph(index.vectors),
                                            index.vectors, index.ids)
    {
      f := Learn(row, vector, normalize);
      if f.Saved? {
        index.Save(disk, serializeGraph);
      }
    }

    /** Steps 3 and 4: the row stored under a new identity, then its vector added to
        the index under that identity. */
    method Learn(row: RagRow, vector: Vector, normalize: Normalizer) returns (f: Feedback)
      requires store.Valid() && index.Bounded() && |index.vectors| < MaxInt32 && |index.ids| < MaxInt32
      requires FitsInt32(vector)
      modifies store, index
      ensures store.Valid() && index.Bounded()
      ensures f.Saved? || f == SaveFailed(OverflowError)
      ensures f.Saved? <==> old(store.lastId) < MaxInt32
      ensures f.SaveFailed? ==>
                store.rows == old(store.rows) && store.lastId == old(store.lastId) && index.vectors == old(index.vectors) && index.ids == old(index.ids)
      ensures f.Saved? ==>
                && f.id == old(store.lastId) + 1 && f.id !in old(store.rows) && store.lastId == f.id
                && store.rows == old(store.rows)[f.id := row]
                && index.ids == old(index.ids) + [f.id]
                && index.vectors == old(index.vectors) + [normalize(vector)]
    {
      var newId := store.Insert(row);
      if newId.Failure? {
        return SaveFailed(newId.error);
      }
      ParseFormatRoundTrip(newId.value);
      var added := index.Add(IntToString(newId.value), vector, normalize);
      f := Saved(newId.value);
    }
  }
}
