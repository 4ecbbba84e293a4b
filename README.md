# Report_Consumo_Camion: a verified model of the question-answering core

Report_Consumo_Camion is a WPF chat window that answers questions about truck fuel
consumption. A question runs through these steps:

1. The question is embedded and looked up in an HNSW vector index of validated
   interactions. A close enough hit replays the stored SQL (the RAG replay).
2. Otherwise a language model is asked for a plan. That plan is either:
   - a single `@sql@0|1` block with an optional ```` ```python ```` block, executed
     with one self-correction retry; or
   - numbered `@sql@3 - N` steps, executed in order and summarised by an analyst
     assistant.
3. The user can confirm an answer with the feedback button. The interaction is then
   stored in the RAG table, its vector is added to the index, and the index is saved
   to three files.

The model is written in Dafny. Its modules follow the program's structure:

- `Wrappers`: `Option`, `Result` and the exceptions the program raises, each named
  by its cause. Also `MapResult`, a `foreach` whose body can throw.
- `Text`: `char.IsWhiteSpace`, `string.Trim`, `int.Parse` into 32 bits with
  overflow, `int.ToString`, and `string.Join`.
- `Scanner`: a leftmost, lazy matcher for the four regular expressions of the core.
  These are `@(.+?)@(0|1)`, ```` ```python(.*?)``` ````, `@(?<sql>.+?)@3\s*-\s*(?<n>\d+)`
  and ```` ```python(?<code>.*?)```\s*@3\s*-\s*(?<n>\d+) ````, plus the multi-step
  trigger `@3\s*-\s*\d+`. It provides `Regex.Match` (first match) and
  `Regex.Matches` (each match searched from where the previous one ended).
- `Ordering`: the stable sort used for `List.Sort` and `OrderBy` on step numbers,
  and "keep the first element of each key".
- `DataTables`: a query result as column names plus cell texts, and
  `DataTableToMarkdown`.
- `MultiSteps` (`Multi-Steps.cs`): `EstraiStepDaRisposta`, `EseguiStepsAsync` and
  the prompt built by `InviaAdAnalistaAsync`.
- `BinaryFormat`: the `.ids` and `.vec` files written by `BinaryWriter`, as
  little-endian `int32` values and `float32` bit patterns. Their loaders are
  included.
- `Paths`: `Path.ChangeExtension`.
- `HnswIndex` (`HnswIndexService.cs`): the service's two parallel lists `_ids` and
  `_vectors` as fields of a class. It covers `Add`, `Search`, `Save`, the load
  condition of the constructor, and the files on a `Disk` object.
- `MainWindow` (`MainWindow.xaml.cs`):
  - single-step extraction and `TryEstrarreQuery`;
  - the corrector message and the explanation prompt;
  - the RAG table as a `RagStore` class;
  - the window as a `Conversation` class. Its fields are `messaggi`,
    `UltimaDomandaUtente`, `UltimaQuerySql`, `UltimoPythonCode` and
    `correctionAttempted`. Its methods follow `GestioneConversazioneAsync` and
    `btnFeedback_Click` statement by statement.

Everything outside the window is a parameter, bundled in `Services`:
- the embedding service, `Normalize`, and the graph's `KNNSearch` and `SerializeGraph`;
- `BuildInitialPrompt`, the completion call, the corrector, analyst and
  index-explanation assistants, and `Exception.ToString()`;
- the SQL query and the Python sandbox.

A call that can throw returns a `Result`. Each method is proved against a
specification function of its inputs or of the old state. The properties the
program promises are lemmas about those functions.

Behaviour worth noting, as the code has it:

- **What triggers a correction.** The `catch (Exception ex) when (attempt == 0)` at
  MainWindow.xaml.cs:303 catches every exception of the first single-step attempt.
  That includes the missing `@...@0|1` block thrown at MainWindow.xaml.cs:432, so any
  failure of the first attempt leads to the corrector.
- **Sandbox failures.** `EseguiPythonAsync` throws on a script error
  (MainWindow.xaml.cs:580 and :591). A failing sandbox therefore aborts the attempt
  or the plan like any other exception.
- **No retry on the multi-step path.** The multi-step branch at
  MainWindow.xaml.cs:235-259 has no corrector call and no second attempt.
- **The threshold.** The RAG replay at MainWindow.xaml.cs:212 needs a top score
  above `0.70f`.

## Model

| member | source | states |
|---|---|---|
| Text.Trim | Report_Consumo_Camion/Multi-Steps.cs:27 | `Trim` removes a maximal run of white space at both ends. The result is a slice of the input with only white space around it. When it is non-empty, it starts and ends with a non-blank character. |
| Text.TrimIdempotent | Report_Consumo_Camion/MainWindow.xaml.cs:434 | Trimming twice is trimming once. |
| Text.ParseInt32 | Report_Consumo_Camion/Multi-Steps.cs:25 | `int.Parse` fails only with a format or an overflow exception. |
| Text.ParseDigits | Report_Consumo_Camion/Multi-Steps.cs:33 | A run of ASCII digits parses to its decimal value when that fits in 32 bits, and to an overflow exception otherwise. |
| Text.NatToString | Report_Consumo_Camion/MainWindow.xaml.cs:167 | A non-negative number prints as a digit run whose value is the number. |
| Text.IntToString | Report_Consumo_Camion/MainWindow.xaml.cs:167 | `ToString` of an int is non-empty, ends in a digit, and starts with a digit exactly when the number is non-negative. |
| Text.ParseFormatRoundTrip | Report_Consumo_Camion/HnswIndexService.cs:68 | `int.Parse(n.ToString())` gives back n for every 32-bit n, so the id handed to `Add` always parses. |
| Wrappers.MapResultSuccess | Report_Consumo_Camion/Multi-Steps.cs:50-64 | A throwing `foreach` succeeds exactly when every element's body succeeds, and then yields each body's value in order. |
| Wrappers.MapResultFailure | Report_Consumo_Camion/Multi-Steps.cs:55 | A throwing `foreach` that fails fails with the exception of some element, and every earlier element succeeded. |
| Wrappers.MapResultFirstFailure | Report_Consumo_Camion/Multi-Steps.cs:55 | The loop's exception is that of the first failing element. |
| Scanner.LazyTail | Report_Consumo_Camion/MainWindow.xaml.cs:431 | The lazy body ends at the first position where the tail matches. No earlier position matches, and None means none matches at all. |
| Scanner.FirstFrom | Report_Consumo_Camion/MainWindow.xaml.cs:431 | `Regex.Match`: the hit is a match, no match starts earlier, and no shorter body matches at its start. None means there is no match anywhere. |
| Scanner.MatchesFrom | Report_Consumo_Camion/Multi-Steps.cs:23 | `Regex.Matches`: each hit is well formed and has its pattern's tag, and hits do not overlap and are in text order. |
| Scanner.MatchesFromAreMatches | Report_Consumo_Camion/Multi-Steps.cs:23 | Every hit of `Regex.Matches` is a match of the pattern: an opener, a body of at least the minimum length, and the pattern's tail. |
| Scanner.HasStepMarker | Report_Consumo_Camion/MainWindow.xaml.cs:235 | `Regex.IsMatch(reply, "@3\s*-\s*\d+")` holds exactly when a step tag with ASCII digits occurs at some position. |
| Scanner.StepTagAt | Report_Consumo_Camion/Multi-Steps.cs:30 | A step tag `@3\s*-\s*\d+` found at j ends in a non-empty run of ASCII digits after j. |
| Scanner.HitOfShape | Report_Consumo_Camion/Multi-Steps.cs:22 | The number group of a step match is a digit run, and the flag group of an `@(0|1)` match is one `0` or `1`. |
| Ordering.SortBy | Report_Consumo_Camion/Multi-Steps.cs:40 | Sorting by step number gives a sorted permutation of the input. |
| Ordering.SortByStable | Report_Consumo_Camion/Multi-Steps.cs:50 | The sort is stable: for every key, the first element with that key is the same before and after sorting. |
| Ordering.DedupBy | Report_Consumo_Camion/Multi-Steps.cs:34-35 | Keeping the first element of each number gives distinct numbers drawn from the input, and every input number stays represented. |
| Ordering.DedupByKeepsFirst | Report_Consumo_Camion/Multi-Steps.cs:34-35 | Each kept element is the first in text order with its number. |
| Ordering.DedupByHasKey | Report_Consumo_Camion/Multi-Steps.cs:52-53 | A number occurs among the kept elements exactly when it occurs in the input. |
| Ordering.DedupBySortedIncreasing | Report_Consumo_Camion/Multi-Steps.cs:50-53 | Deduplicating a list sorted by number leaves strictly increasing numbers. |
| Ordering.SortByDistinct | Report_Consumo_Camion/Multi-Steps.cs:40 | Sorting keeps numbers distinct. |
| Ordering.SortBySorted | Report_Consumo_Camion/Multi-Steps.cs:50 | `OrderBy` on an already sorted list leaves it unchanged. |
| Ordering.DedupByDistinct | Report_Consumo_Camion/Multi-Steps.cs:52-53 | The `HashSet` guard skips nothing when the numbers are already distinct. |
| MultiSteps.Groups | Report_Consumo_Camion/Multi-Steps.cs:23 | The code or SQL group and the number group of each match, in text order. |
| MultiSteps.StepsFrom | Report_Consumo_Camion/Multi-Steps.cs:36-38 | One candidate step per SQL block, with its number, trimmed SQL and the Python found for that number. |
| MultiSteps.PythonMap | Report_Consumo_Camion/Multi-Steps.cs:21-28 | The `pyMap` loop fails exactly when a number overflows, with that exception. Otherwise each number maps to the trimmed code of its first Python block. |
| MultiSteps.SqlSteps | Report_Consumo_Camion/Multi-Steps.cs:30-39 | The SQL loop fails exactly when a number overflows. Otherwise it keeps the first block of each number, in text order, with its Python. |
| MultiSteps.ExtractSteps | Report_Consumo_Camion/Multi-Steps.cs:18-42 | `EstraiStepDaRisposta` loops, map and in-place sort compute exactly `ExtractedSteps`. |
| MultiSteps.ExtractedStepsSpec | Report_Consumo_Camion/Multi-Steps.cs:31-40 | The steps have strictly increasing numbers. Each is the first SQL block, trimmed, with its number, and carries the first Python block of that number or none. Every SQL block's number has a step. |
| MultiSteps.KeptStepsAreFirst | Report_Consumo_Camion/Multi-Steps.cs:34-38 | A kept step is the first SQL block with its number, and its Python is looked up by that number. |
| MultiSteps.StepsOfBlocks | Report_Consumo_Camion/Multi-Steps.cs:31-40 | Sorting the deduplicated candidates meets every condition of `ExtractedStepsSpec`. |
| MultiSteps.SortedStepsCover | Report_Consumo_Camion/Multi-Steps.cs:31-39 | No SQL block's number is lost. |
| MultiSteps.ParseBlockGroup | Report_Consumo_Camion/Multi-Steps.cs:25 | A block's number fails to parse exactly when its digits exceed `int.MaxValue`, and then with an overflow exception. Otherwise the block is that number and the trimmed group text. |
| MultiSteps.BlocksOfFailure | Report_Consumo_Camion/Multi-Steps.cs:23-25 | Scanning one kind of block fails exactly when some match's number overflows. |
| MultiSteps.ExtractedStepsFailure | Report_Consumo_Camion/Multi-Steps.cs:18-42 | Step extraction fails exactly when a Python or SQL block's number overflows, and then with an overflow exception. |
| MultiSteps.RunStep | Report_Consumo_Camion/Multi-Steps.cs:55-63 | A step succeeds exactly when its query succeeds and, if its code is not blank, so does the sandbox. Its result carries the step's number and the table. It holds Python output exactly when the code is not blank, and that output is the sandbox's. |
| MultiSteps.ExecuteStep | Report_Consumo_Camion/Multi-Steps.cs:55-63 | The loop body computes `RunStep`. |
| MultiSteps.RunFirstOfEach | Report_Consumo_Camion/Multi-Steps.cs:49-64 | The `executed` loop computes the first-failure map over the first element of each number. |
| MultiSteps.ExecuteSteps | Report_Consumo_Camion/Multi-Steps.cs:46-66 | `EseguiStepsAsync` computes `ExecutedSteps`: it runs the stably ordered steps, each number once, and the first failure ends it. |
| MultiSteps.ExecutedStepsSpec | Report_Consumo_Camion/Multi-Steps.cs:50-63 | The results follow the scheduled steps one to one, with strictly increasing numbers. Each result holds its step's number and query table, and has Python output exactly when the step's code is not blank. |
| MultiSteps.ScheduleOfExtracted | Report_Consumo_Camion/MainWindow.xaml.cs:237-238 | For extracted steps the executor's ordering and deduplication change nothing. |
| MultiSteps.AppendPython | Report_Consumo_Camion/Multi-Steps.cs:77-82 | The three Python lines are written only when there is output. |
| MultiSteps.AppendSection | Report_Consumo_Camion/Multi-Steps.cs:75-83 | One section: `Step N:`, the Markdown table, the Python lines, and a blank line. |
| MultiSteps.AppendSections | Report_Consumo_Camion/Multi-Steps.cs:73-84 | The loop appends one section per result, in order. |
| MultiSteps.AnalystRequest | Report_Consumo_Camion/Multi-Steps.cs:70-85 | The synthesis prompt is the sections of the results sorted by number, then `Fornisci una breve sintesi.`. |
| MultiSteps.AnalystMessageOfExecuted | Report_Consumo_Camion/Multi-Steps.cs:73-85 | For executed results the prompt is their sections, in their own order, with the closing line last. |
| DataTables.AppendCells | Report_Consumo_Camion/MainWindow.xaml.cs:514-515 | The cell loop appends `"| " + x + " "` per item. |
| DataTables.AppendDivider | Report_Consumo_Camion/MainWindow.xaml.cs:507-508 | The divider loop appends `|---` once per column. |
| DataTables.AppendHeader | Report_Consumo_Camion/MainWindow.xaml.cs:501-509 | The header line and the divider line, each terminated. |
| DataTables.DataTableToMarkdown | Report_Consumo_Camion/MainWindow.xaml.cs:494-520 | The nested loops compute `Markdown`. A table without rows gives exactly `Nessun dato trovato.`. |
| DataTables.MarkdownShape | Report_Consumo_Camion/MainWindow.xaml.cs:496-519 | A table with rows renders as rows + 2 terminated lines, each ending in `|`. When no name or cell contains `|`, each line has columns + 1 bars, one `| x ` cell per column. |
| DataTables.LinesAppend | Report_Consumo_Camion/MainWindow.xaml.cs:504 | `AppendLine` over two runs of lines is their concatenation. |
| BinaryFormat.U32RoundTrip | Report_Consumo_Camion/HnswIndexService.cs:145 | The four little-endian bytes of a 32-bit value decode to it. |
| BinaryFormat.ReadInt32Of | Report_Consumo_Camion/HnswIndexService.cs:161 | `ReadInt32` at a position reads back the `int32` written there. |
| BinaryFormat.SaveIds | Report_Consumo_Camion/HnswIndexService.cs:147-157 | `SaveIds` writes no file for an empty list. Otherwise it writes the `int32` count followed by each id. |
| BinaryFormat.LoadIds | Report_Consumo_Camion/HnswIndexService.cs:173-181 | `LoadIds` computes `DecodeIds`, including end-of-stream and negative-capacity failures. |
| BinaryFormat.DecodeIds | Report_Consumo_Camion/HnswIndexService.cs:173-181 | A decoded id list fits in an `int`. |
| BinaryFormat.IdsRoundTrip | Report_Consumo_Camion/HnswIndexService.cs:147-181 | Loading what `SaveIds` wrote for a non-empty list gives back that list. |
| BinaryFormat.WriteFloats | Report_Consumo_Camion/HnswIndexService.cs:144-145 | The inner loop writes the vector's values in order. |
| BinaryFormat.SaveVectors | Report_Consumo_Camion/HnswIndexService.cs:134-146 | `SaveVectors` writes no file for an empty list. Otherwise it writes the count, the length of the first vector, then every value. |
| BinaryFormat.ReadVector | Report_Consumo_Camion/HnswIndexService.cs:166-168 | The inner loop reads dim values or fails at the end of the stream. |
| BinaryFormat.LoadVectors | Report_Consumo_Camion/HnswIndexService.cs:158-172 | `LoadVectors` computes `DecodeVectors`, including the `new List(count)` and `new float[dim]` failures. |
| BinaryFormat.DecodeVectors | Report_Consumo_Camion/HnswIndexService.cs:158-172 | Decoded vectors fit in .NET lists and all have the header's length. |
| BinaryFormat.VectorsRoundTrip | Report_Consumo_Camion/HnswIndexService.cs:134-172 | Loading what `SaveVectors` wrote for a non-empty list of same-length vectors gives back those vectors. |
| Paths.ChangeExtension | Report_Consumo_Camion/HnswIndexService.cs:131 | An empty path stays empty. Otherwise the path's stem, without its extension, is followed by the new one, a dot being added when it lacks one. |
| Paths.ChangeExtensionTwice | Report_Consumo_Camion/HnswIndexService.cs:131-133 | Changing an extension twice is changing it once to the second. |
| Paths.ChangeExtensionDistinct | Report_Consumo_Camion/HnswIndexService.cs:131-133 | Two different plain extensions give two different paths with the same stem. |
| HnswIndex.FilePathsDistinct | Report_Consumo_Camion/HnswIndexService.cs:131-133 | The `.vec` and `.ids` paths differ and share the graph path's stem. |
| HnswIndex.LoadState | Report_Consumo_Camion/HnswIndexService.cs:45-48 | Unless the graph, `.vec` and `.ids` files all exist, both lists start empty. Loaded lists fit in .NET lists and the vectors share one length. |
| HnswIndex.SaveLoadRoundTrip | Report_Consumo_Camion/HnswIndexService.cs:103-120 | Reopening an index on what `Save` wrote for non-empty, consistent lists gives back the same vectors and ids. |
| HnswIndex.Scores | Report_Consumo_Camion/HnswIndexService.cs:91-96 | Each hit at position p becomes `(_ids[p], 1 - distance)`, one per hit in order. A position outside `_ids` fails with index-out-of-range, and only then. |
| HnswIndex.HnswIndexService.Open | Report_Consumo_Camion/HnswIndexService.cs:24-61 | The constructor loads both lists exactly as `LoadState` says, or fails with its exception. |
| HnswIndex.HnswIndexService.Add | Report_Consumo_Camion/HnswIndexService.cs:66-73 | A non-numeric or overflowing id throws before either list changes. Otherwise the parsed id and the normalised vector are appended. Equal list lengths are preserved. |
| HnswIndex.HnswIndexService.Search | Report_Consumo_Camion/HnswIndexService.cs:78-97 | A null KNN result is an empty list. Otherwise the result is the hits mapped to ids and similarities, failing exactly when a hit is outside `_ids`. |
| HnswIndex.ConsistentSearchSucceeds | Report_Consumo_Camion/HnswIndexService.cs:89-96 | With equal list lengths and in-range hits, `Search` cannot fail, and every id it returns is in `_ids`. |
| HnswIndex.HnswIndexService.Save | Report_Consumo_Camion/HnswIndexService.cs:103-120 | Nothing is written when there are no vectors. Otherwise the graph image, the vectors file and the ids file are written. |
| HnswIndex.Disk.Write | Report_Consumo_Camion/HnswIndexService.cs:113 | `File.Create` replaces the file's content and touches no other file. |
| MainWindow.FirstFromIsFirst | Report_Consumo_Camion/MainWindow.xaml.cs:431 | The scanner's first hit is the leftmost match with the shortest body. |
| MainWindow.FirstGroupsNone | Report_Consumo_Camion/MainWindow.xaml.cs:431-432 | `Match.Success` is false exactly when the reply contains no match anywhere. |
| MainWindow.FlagGroup | Report_Consumo_Camion/MainWindow.xaml.cs:435 | The flag group is `0` or `1`, and `int.Parse` reads it as that number. |
| MainWindow.PythonBlockSpec | Report_Consumo_Camion/MainWindow.xaml.cs:437-440 | There is no Python exactly when the reply has no ```` ```python...``` ```` block. Otherwise it comes from the first such block. |
| MainWindow.PythonBlockAt | Report_Consumo_Camion/MainWindow.xaml.cs:438-440 | The Python is the trimmed body of the first block, after its nine-character opener. |
| MainWindow.ExtractionFails | Report_Consumo_Camion/MainWindow.xaml.cs:431-440 | Single-step extraction throws exactly when there is no `@...@0|1` block, with the missing-block exception. On success the flag is 0 or 1, and the Python does not depend on where the SQL block is. |
| MainWindow.ExtractionAt | Report_Consumo_Camion/MainWindow.xaml.cs:431-435 | For the first block at (i, j), the SQL is the trimmed text between the `@`s and the flag is the digit after the second `@`. |
| MainWindow.TryExtractAgrees | Report_Consumo_Camion/MainWindow.xaml.cs:662-671 | `TryEstrarreQuery` never throws. With no block it returns `(false, "", -1)`. Otherwise it returns true with the same SQL and flag as `EstraiSqlPythonEFlag`. |
| MainWindow.CorrectorMessageLayout | Report_Consumo_Camion/MainWindow.xaml.cs:423-427 | The corrector's message holds the question, the prompt, the failed reply and the error text, in that order, each right after its label. |
| MainWindow.ThresholdsDiffer | Report_Consumo_Camion/MainWindow.xaml.cs:329 | The conversation's test `> 0.70` and `ProvaRecuperoDaRAGAsync`'s `< 0.70` rejection disagree exactly at a top score of 0.70. |
| MainWindow.RagAnswerSpec | Report_Consumo_Camion/MainWindow.xaml.cs:212-228 | The turn goes on to plan generation exactly when there is no hit, the top score is not above 0.70, or the top row is missing. Otherwise it replays the top row's query as the `[MEMORIA RAG]` bubble, or fails with that query's exception. |
| MainWindow.RecallAcceptsMore | Report_Consumo_Camion/MainWindow.xaml.cs:323-337 | `ProvaRecuperoDaRAGAsync` replays whenever the conversation does, and also at exactly 0.70. |
| MainWindow.AttemptSpec | Report_Consumo_Camion/MainWindow.xaml.cs:267-301 | An attempt succeeds exactly when extraction, the query and any script succeed, and otherwise fails with the first failing step's exception. On success it records that SQL and code. It shows the rendered table first, plus one bubble for flag 1 and one when there is code. |
| MainWindow.StepSqls | Report_Consumo_Camion/MainWindow.xaml.cs:256 | `steps.Select(s => s.Sql)`, one SQL per step in order. |
| MainWindow.StepPythonsSpec | Report_Consumo_Camion/MainWindow.xaml.cs:257 | The recorded code is exactly the code of the steps that have non-blank code. None of it is blank, and there is none when no step has code. |
| MainWindow.OutcomeShape | Report_Consumo_Camion/MainWindow.xaml.cs:296-301 | A path records its answer as the last interaction exactly when it succeeds. A failure shows nothing and leaves `correctionAttempted` alone. |
| MainWindow.PlanTurnShape | Report_Consumo_Camion/MainWindow.xaml.cs:232-315 | After plan generation, a turn records exactly when it ends without an exception, and a failure shows nothing. The multi-step path is followed exactly when the reply has a step marker. Only the single-step path sets `correctionAttempted`, to whether its first attempt failed. |
| MainWindow.TurnShape | Report_Consumo_Camion/MainWindow.xaml.cs:192-228 | A failing turn shows and records nothing. A RAG replay shows one bubble and changes none of the last-interaction fields. Otherwise the turn is plan generation's. |
| MainWindow.Attempt | Report_Consumo_Camion/MainWindow.xaml.cs:267-301 | The body of the `try` block computes `AttemptAnswer`. |
| MainWindow.RunExtracted | Report_Consumo_Camion/MainWindow.xaml.cs:269-294 | Query, rendering, script and explanation compute `AnswerFrom`. |
| MainWindow.RunScript | Report_Consumo_Camion/MainWindow.xaml.cs:274-280 | The sandbox runs only for non-blank code. |
| MainWindow.Explain | Report_Consumo_Camion/MainWindow.xaml.cs:282-291 | The table bubble is shown, and the explanation bubble only for flag 1. |
| MainWindow.ExplanationRequest | Report_Consumo_Camion/MainWindow.xaml.cs:357-363 | The explanation prompt has the question, the SQL, the rendered results and `Spiega in breve.`, one line each. |
| MainWindow.ExplanationPromptLayout | Report_Consumo_Camion/MainWindow.xaml.cs:357-363 | The question follows `Domanda: `, the SQL follows `Query SQL: `, the Markdown table follows `Risultati:` and a line feed, and `Spiega in breve.` comes last. Every line ends with CRLF. |
| MainWindow.RunPlan | Report_Consumo_Camion/MainWindow.xaml.cs:237-257 | Extraction, execution, display and synthesis compute `MultiStepAnswer`. |
| MainWindow.ShowSteps | Report_Consumo_Camion/MainWindow.xaml.cs:244-250 | The display loop shows each result's heading and table, then its Python output if any. |
| MainWindow.ShowStep | Report_Consumo_Camion/MainWindow.xaml.cs:246-249 | One iteration of the display loop. |
| MainWindow.RagStore.GetById | Report_Consumo_Camion/MainWindow.xaml.cs:775-786 | The row is found exactly when the id is in the table, and it is that row. |
| MainWindow.RagStore.Insert | Report_Consumo_Camion/MainWindow.xaml.cs:750-772 | A new row gets the next identity, one not used yet, and nothing else changes. An exhausted `int` identity fails with an overflow and changes nothing. |
| MainWindow.Conversation.constructor | Report_Consumo_Camion/MainWindow.xaml.cs:60-68 | The window starts with no messages, no last interaction and `correctionAttempted` false. |
| MainWindow.Conversation.Remember | Report_Consumo_Camion/MainWindow.xaml.cs:298-300 | A successful path appends its bubbles and records the question, SQL and code. |
| MainWindow.Conversation.Attempts | Report_Consumo_Camion/MainWindow.xaml.cs:262-315 | The `for attempt` loop computes `SingleStepAnswer`. It makes one attempt, or two with exactly one corrector call when the first fails. `correctionAttempted` ends true exactly when the first attempt failed. |
| MainWindow.Conversation.SingleStep | Report_Consumo_Camion/MainWindow.xaml.cs:262-315 | The single-step path changes the window as `SingleStepTurn` says, with one or two attempts and one fewer corrections. |
| MainWindow.Conversation.MultiStep | Report_Consumo_Camion/MainWindow.xaml.cs:235-260 | The multi-step path changes the window as `MultiStepTurn` says. |
| MainWindow.Conversation.Conclude | Report_Consumo_Camion/MainWindow.xaml.cs:293-301 | An answer is shown and recorded, or its exception is returned. |
| MainWindow.Conversation.Plan | Report_Consumo_Camion/MainWindow.xaml.cs:231-260 | Plan generation changes the window as `PlanTurn` says. |
| MainWindow.Conversation.HandleQuestion | Report_Consumo_Camion/MainWindow.xaml.cs:192-318 | `GestioneConversazioneAsync` adds the user's bubble, then changes the window as `TurnOf` says for the index's hits and the RAG table. |
| MainWindow.Conversation.Continue | Report_Consumo_Camion/MainWindow.xaml.cs:212-233 | After step 1 the turn replays, fails, or goes on to plan generation, as `TurnAfter` says. |
| MainWindow.Conversation.Recall | Report_Consumo_Camion/MainWindow.xaml.cs:198-202 | The question's normalised embedding is searched with k = 3, and the RAG step is applied to the hits. |
| MainWindow.Conversation.RagReplay | Report_Consumo_Camion/MainWindow.xaml.cs:212-227 | The replay computes `RagAnswer`. |
| MainWindow.Conversation.TryRecall | Report_Consumo_Camion/MainWindow.xaml.cs:323-337 | `ProvaRecuperoDaRAGAsync` replays whenever the conversation's RAG step does, and only for a top score of at least 0.70 whose row exists. |
| MainWindow.Conversation.Confirm | Report_Consumo_Camion/MainWindow.xaml.cs:141-180 | Without a last question or SQL, nothing changes. An exhausted identity changes neither the store, the index nor the disk. Otherwise the row is stored under the next identity, one not used before, which becomes the store's last identity. That id and the normalised embedding of the explanation are appended to the index, and the index is saved. |
| MainWindow.Conversation.Persist | Report_Consumo_Camion/MainWindow.xaml.cs:151-169 | Explanation, embedding, insert, index add and save, in that order, with the effects stated for `Confirm`. |
| MainWindow.Conversation.LearnAndSave | Report_Consumo_Camion/MainWindow.xaml.cs:160-169 | The insert under a fresh identity, one past the last and then the last, the index add of that id and the save. An exhausted identity changes nothing. |
| MainWindow.Conversation.Learn | Report_Consumo_Camion/MainWindow.xaml.cs:160-167 | The row is inserted, then its new identity, printed and parsed back, is added to the index with the vector. The new identity is one past the previous last, unused, and becomes the last. Lists stay bounded, and on failure nothing changes. |

## Left out

- The HNSW graph itself (`SmallWorld`, `AddItems`, `KNNSearch`, `SerializeGraph`, `DeserializeGraph`) is a third-party library. KNN search and graph serialisation are parameters, and the graph image on disk is opaque bytes.
- `Normalize` and cosine distance are floating-point arithmetic. `Normalize` is a parameter that keeps a vector's length; scores are `real`.
- MainWindow.RagAnswerSpec: the threshold `0.70f` is the real 0.70. The model does not capture that the float literal is slightly below 0.70.
- The embedding, completion, assistant and corrector calls, `BuildInitialPrompt`, SQL execution and the Python sandbox are parameters. Their network, process, temporary-file and CSV I/O is outside the model.
- The assistant, completion, embedding and store calls are total in the model: they always return. Three consequences of their exceptions are therefore not modelled:
  - an explanation failure at MainWindow.xaml.cs:284 is caught at line 303 and leads to the corrector and a second attempt;
  - an analyst failure at line 252 leaves the step bubbles of lines 244-250 on screen in a failed turn, which `TurnShape` and `PlanTurnShape` do not cover;
  - the `catch` at line 175 reports explainer, embedding or `SalvaAsync` failures in `btnFeedback_Click`.
- The database behind `RAGService` is a `RagStore` with an identity counter. `SCOPE_IDENTITY()` overflowing an `int` identity becomes `OverflowError`. The `EmbeddingJson`, `UtenteValidazione` and creation-date columns are not stored, because nothing in the core reads them back.
- HnswIndex.HnswIndexService.Add requires the lists and the vector to fit in a .NET `int` length, which is the bound .NET itself imposes on a list.
- MainWindow.Conversation.Confirm: `MessageBox` reports and the `catch` that shows an exception's message are left out. Failures are the returned `Feedback`.
- MainWindow.Conversation.SingleStep: the model records the answer after the loop rather than inside its `try` block. The two are equivalent, because nothing runs in between.
- `Directory.CreateDirectory` and `Path.GetDirectoryName` failures are not modelled. `File.Create` always succeeds on the `Disk`.
- The UI is left out: progress bar, loading text, `MessageBox`, DEBUG pop-ups, converters, `btnSalvaEmbedding_Click`, `OnClosing` and `App.xaml.cs`. Logging (`Logger.cs`) is left out too.
- The `async`/`await` plumbing, cancellation tokens and the graph's `threadSafe` locking are concurrency concerns and are not modelled.
- A Python output is the three strings the script prints as JSON. Parsing that JSON with `JsonConvert` happens inside the sandbox parameter.
- `Exception.ToString()` is a parameter, because its text depends on the runtime.
- The `**Step N:**` bubble contains a literal backslash and `n` before the table. The escaped `\\n` in the interpolated string at MainWindow.xaml.cs:247 produces exactly that.
- Scanner.HasStepMarker: `\d` is ASCII `0`-`9` only, whereas .NET's `\d` matches every Unicode decimal digit. For a reply such as `@SELECT 1@3 - ٣` the source takes the multi-step path, and `int.Parse` then throws a `FormatException` that ends the turn. The model takes the single-step path instead.
- Scanner.StepTagAt: the digit runs of the tags and of the number groups at Multi-Steps.cs:23 and :30 are ASCII digits only, for the same reason.
- MultiSteps.ExtractedStepsFailure: "fails exactly when a number overflows" holds for ASCII digit runs. With a non-ASCII decimal digit the source fails with a `FormatException` instead, which the model does not produce.
- MultiSteps.BlocksOfFailure, MultiSteps.PythonMap, MultiSteps.SqlSteps, MultiSteps.ParseBlockGroup: the same ASCII restriction applies to their failure conditions.
