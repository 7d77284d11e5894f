# A browser-extension agent: its service worker and side panel, modelled in Dafny

The extension is an in-browser assistant. Its service worker (`sw.js`) takes
the user's message from the side panel. It asks a chat-completion service for
the next assistant message, at most ten times. It runs the tools the model
calls: page tools, tab tools and small storage-backed stubs for fetch, files
and notes. It streams the final answer back to the side panel. The side panel
(`sidepanel.js`) shows that stream and picks models from the service's
listing. It turns pipe tables in answers into HTML, and it shows each tool
result as JSON with long `html`/`text` fields replaced by placeholders.

The model has one module per concern:

| module | what it holds |
|---|---|
| `Wrappers` | `Option` |
| `Text` | the ECMAScript string operations the code relies on: ASCII lower-casing, `trim` and `\s`, `includes`/`indexOf`, `split`/`join` with a literal separator |
| `EventStream` | the reader of the streamed completion (a simplified `text/event-stream` reader after the WHATWG HTML Living Standard, section 9.2) |
| `TabMatch` | `sim` (the Levenshtein table, filled in a 2-D array), `activateTabByMatch`, `closeTabByMatch` |
| `Policy` | the domain allowlist and `mcp_fetch_get` |
| `VirtualFs` | `mcp_fs_read`/`mcp_fs_write` over a file map held by a `Store` object, and `mcp_rag_query` |
| `Tools` | the tool registry, `buildToolSchemas`, `dispatchToolCall` and `getHumanToolFeedback` |
| `Agent` | the turn loop `handleSideInput`, with the completion service, the streaming service and the tool executor as oracles |
| `ModelPicker` | `isFreeModel`, `isStealthModel`, `fuzzyScore`, `filterModels`, `limitPaid`, `flattenGroups` |
| `PipeTables` | `convertPipeTablesToHtml` |
| `JsonViewer` | the placeholder replacer, `findFirstHeavy` (a queue drained from the front) and the preview counter |
| `StreamView` | `appendStreamText`, its render timer, the abort reset, and the short label of an "Executing:" status |

Code that changes things step by step is imperative Dafny:
- the read loop of the stream;
- the `dp` table of `sim`;
- the tab searches;
- the turn loop and the loop over tool calls;
- the file store;
- `fuzzyScore`, `flattenGroups` and the pipe-table loop;
- the breadth-first search;
- the preview counter and the streaming bubble.

Each of these methods is proved against a function that specifies it. The
properties are then proved of that function. Expression-level code
(`isAllowed`, routing, feedback, `filterModels`) is functions.

Where the code and the documentation of the extension differ, the model
follows the code:
- `getHumanToolFeedback` tests `!r.ok` first, so its "Could not switch tab"
  branch can never run. `Tools.Feedback` has no such branch.
- `[DONE]` ends only the event it is in, not the whole read.
- The rest of the buffer at the end of the stream is never parsed.
- The error the side panel shows for a thrown error is `Error: ` followed by
  `String(e)`. Since `String(new Error(m))` is already `Error: m`, the prefix
  appears twice.
- An id of 0 returned by `open_tab` or `switch_tab` is falsy. The worker then
  stays on its tab.

## Model

| member | source | states |
|---|---|---|
| Text.Lower | sw.js:77 | lower-casing keeps the length and maps each character by itself, ASCII capitals to small letters and every other character to itself |
| Text.LowerIdempotent | sw.js:77 | lower-casing twice is lower-casing once |
| Text.LowerAppend | sw.js:77 | lower-casing distributes over concatenation |
| Text.IndexOf | sw.js:78 | `indexOf` returns a position where the pattern occurs |
| Text.IndexOfFirst | sw.js:78 | no occurrence lies before the one `indexOf` returns, and none at all when it returns -1 |
| Text.IndexOfNone | sw.js:78 | `indexOf` is -1 exactly when `includes` is false |
| Text.IndexOfAt | sw.js:78 | an occurrence with none before it is what `indexOf` returns |
| Text.TrimStartSpec | sw.js:230 | the leading trim removes a white-space prefix, up to the first other character |
| Text.TrimEndSpec | sw.js:230 | the trailing trim removes a white-space suffix, back to the last other character |
| Text.TrimSpec | sw.js:230 | `trim` removes white space at both ends and nothing else: the result is a slice of the input with only white space around it, and it starts and ends with other characters |
| Text.TrimNoop | sw.js:230 | a string that neither starts nor ends with white space is its own trim |
| Text.TrimOfSpaces | sidepanel.js:144 | a string of white space trims to the empty string |
| Text.JoinSplit | sw.js:225-226 | joining the pieces of a split with the same separator gives the string back |
| Text.SplitPiecesFree | sw.js:225-226 | no piece of a split contains the separator |
| Text.SplitAppend | sw.js:223-226 | appending to a string changes only the last piece of its split: the pieces before it are complete and stay as they are |
| Text.SplitJoin | sidepanel.js:371 | splitting on one character undoes joining pieces that do not contain it |
| Text.SplitWithout | sw.js:225 | a string without the separator is one piece |
| EventStream.ReadStream | sw.js:212-257 | however the body is cut into chunks, the read ends as the reading of the concatenated stream does, and announces the start, each accepted text and an abort in that order |
| EventStream.ReadEvent | sw.js:228-254 | the line loop of one event returns what the line-by-line reading of that event gives: `fullText` is the concatenation of the texts gathered before and in the event, one delta notice follows the start notice per text, and the tool-call flag is set exactly when that reading aborts |
| EventStream.ChunkStep | sw.js:223-226 | after a chunk is appended, the events completed are those before the last piece of the split, and the kept rest holds no blank line |
| EventStream.EventStep | sw.js:227-228 | events are read in order; an event that stops the read ends it |
| EventStream.LineStep | sw.js:229-253 | a non-`data:` line and a record that does not parse or has no delta are skipped; `[DONE]` ends the event; a tool-call delta ends the read; a non-empty string content is gathered |
| EventStream.ScanLinesExtends | sw.js:247-249 | reading the lines of an event only appends non-empty texts |
| EventStream.ScanEventsExtends | sw.js:247-249 | reading events only appends non-empty texts |
| EventStream.PiecesNonEmpty | sw.js:247 | every text the reader announces is non-empty |
| EventStream.ScanEventsAppend | sw.js:227 | reading more events continues from where the earlier ones left off, unless they stopped the read |
| EventStream.CompleteEventsAppend | sw.js:225-226 | the complete events of a longer stream are those of its beginning, then those the addition completes |
| EventStream.AbortIsFinal | sw.js:242-246 | once a tool-call delta has stopped the read, nothing arriving later changes the outcome |
| EventStream.PiecesGrow | sw.js:223-249 | more input never retracts an announced text |
| EventStream.UnterminatedEventIgnored | sw.js:222-257 | an event not yet closed by a blank line is not read, however much of it has arrived |
| EventStream.LinesAfterStopIgnored | sw.js:233-235 | lines after a `[DONE]` line or a tool-call line of the same event are never read |
| EventStream.SplitDataStream | sw.js:225-226 | a stream of `data:` events splits into exactly those events and an empty rest |
| EventStream.DataLineAction | sw.js:230-249 | a `data:` line of a plain payload is read as that payload's text |
| EventStream.ScanDataLine | sw.js:228-249 | the event of such a line contributes exactly its text |
| EventStream.ScanDataLines | sw.js:227-249 | a sequence of such events contributes their texts in order, with no abort |
| EventStream.DataStreamRoundTrip | sw.js:214-257 | what a server streams as plain text deltas is what the reader gathers: the texts in order, and the answer is their concatenation |
| TabMatch.FillRow | sw.js:87-92 | the inner loop fills row `i` of the table from the row above with the edit-distance recurrence and changes no other row |
| TabMatch.DistStep | sw.js:89-90 | each cell is the least of a deletion, an insertion and a change of the last character |
| TabMatch.EditDistance | sw.js:84-93 | the table's last cell is the Levenshtein distance of the two strings |
| TabMatch.DistZero | sw.js:93 | the distance is 0 exactly between equal strings |
| TabMatch.DistLower | sw.js:93 | the distance is at least the difference in length |
| TabMatch.DistUpper | sw.js:93-94 | the distance never exceeds the longer length |
| TabMatch.DistSymmetric | sw.js:81-93 | the distance does not depend on the order of the two strings |
| TabMatch.SimilarityRange | sw.js:81-96 | `sim` lies in [0, 1] and is 1 exactly when the strings agree up to case |
| TabMatch.SimilarityEmpty | sw.js:83 | two empty strings score exactly 1 |
| TabMatch.Sim | sw.js:81-96 | `sim` lower-cases both sides and returns one minus the distance over the longer length |
| TabMatch.FindHit | sw.js:78 | `find` returns a tab whose lower-cased title or URL contains the needle |
| TabMatch.FindHitFirst | sw.js:78 | it returns the first such tab, and none only when no tab has a hit |
| TabMatch.TabScore | sw.js:100-101 | a tab's score is the best of its title's, URL's and host's similarity |
| TabMatch.ScoresAt | sw.js:99-101 | the k-th score is the k-th tab's score |
| TabMatch.BestUnique | sw.js:102 | the earliest greatest positive score is at one position only |
| TabMatch.BestIndexSpec | sw.js:97-103 | the reference search finds the earliest greatest positive score, and finds none only when no score is positive |
| TabMatch.BestSoFarStep | sw.js:102 | a strictly greater score takes over; an equal one does not |
| TabMatch.BestMatch | sw.js:97-103 | the fuzzy pass, starting from 0 with a strict `>`, ends at the earliest greatest positive score, or none when no score is positive |
| TabMatch.ActivateTabByMatch | sw.js:75-109 | the first substring hit wins; failing one, the earliest best-scoring tab is taken if its score reaches 0.6, and otherwise no tab matched |
| TabMatch.SubstringWins | sw.js:78-80 | a tab with a substring hit is never passed over for a better-scoring tab after it |
| TabMatch.CloseTabByMatch | sw.js:121-128 | closing finds no tab exactly when none has a substring hit; otherwise it removes the first hit, and only it, from the tabs |
| Policy.IsAllowed | sw.js:131-138 | an empty allowlist permits everything, even a URL that does not parse; otherwise an unparsable URL is refused and a host is allowed exactly when it equals an entry or ends with `.` and the entry |
| Policy.CoversSubdomain | sw.js:136 | an entry that covers a host covers every sub-domain of it |
| Policy.AllowedSubdomain | sw.js:136 | an allowed host keeps its sub-domains allowed |
| Policy.EntryAllowed | sw.js:136 | every entry allows its own domain |
| Policy.Truncate | sw.js:159 | the body is cut to its first 500000 characters, and a shorter one is kept whole |
| Policy.FetchGet | sw.js:153-160 | a fetch is refused exactly when the allowlist does not permit the host; a permitted fetch that the network rejects fails with the network's error; otherwise it returns the status, the headers and a prefix of the body of at most 500000 characters |
| VirtualFs.ReadOf | sw.js:162-165 | reading gives the stored value when it is truthy, and the empty string when the path is missing or holds an empty string, 0, false or null |
| VirtualFs.WriteOf | sw.js:167-173 | a write stores the content value itself under the path, removes the path for an undefined content, and leaves every other path as it was |
| VirtualFs.ReadAfterWrite | sw.js:162-173 | reading a path just written gives what was written when it is truthy or a string, and the empty string for a falsy value |
| VirtualFs.WriteIsolated | sw.js:162-173 | writing one path does not change what another path reads |
| VirtualFs.WriteSameIsInvisible | sw.js:162-173 | writing back what a path reads changes nothing a reader can see |
| VirtualFs.Store.constructor | sw.js:163 | the store starts with the given file map |
| VirtualFs.Store.Read | sw.js:162-165 | reading the store gives what the file map reads, truthy value or empty string |
| VirtualFs.Store.Write | sw.js:167-173 | writing updates the file map in place as a write does |
| VirtualFs.Matching | sw.js:178-179 | the kept notes are matching notes of the corpus |
| VirtualFs.RagQuery | sw.js:175-181 | at most ten results, each a matching note of the corpus |
| VirtualFs.MatchingComplete | sw.js:178-179 | every matching note is kept, in corpus order |
| VirtualFs.RagQueryComplete | sw.js:178-180 | a matching note with fewer than ten matching notes before it is among the results, in its place |
| VirtualFs.RagQueryCaseInsensitive | sw.js:178 | the query is insensitive to the case of its letters |
| VirtualFs.MatchingCaseInsensitive | sw.js:178 | the filter is insensitive to the case of the query |
| Tools.ToolNamed | sw.js:292-310 | the `switch` selects only a tool of that name |
| Tools.NameRoundTrip | sw.js:292-308 | every tool is reached by its own name |
| Tools.NamesDistinct | sw.js:292-308 | no two tools share a name |
| Tools.NamedTool | sw.js:292-308 | two tools have the same name exactly when they are the same tool |
| Tools.ToolSchemas | sw.js:264-283 | fifteen tools are offered to the model |
| Tools.SchemasMatchHandlers | sw.js:264-310 | every offered tool has a handler, every handler is offered, and no name is offered twice |
| Tools.SchemaNames | sw.js:264-283 | the offered names, in offering order |
| Tools.SchemaIndex | sw.js:264-283 | every tool stands at a place among the schemas under its own name |
| Tools.SchemaTool | sw.js:264-283 | the tool of the k-th schema stands at place k |
| Tools.ArgsOf | sw.js:290 | the arguments are null exactly when their text, or `{}` when it is missing or empty, parses to null |
| Tools.UnparsableArgsAreEmpty | sw.js:290 | arguments that do not parse are read as `{}` |
| Tools.MissingArgsAreEmptyObject | sw.js:290 | missing or empty arguments are parsed as "{}" |
| Tools.Route | sw.js:292-308 | only `mcp.fs.write` changes the files, and only when it does not throw; with null arguments exactly the tools that read an argument throw; otherwise a handler throws exactly when a tab search gets no string `match`, the notes search gets no string `q` while there are notes, or a permitted fetch is rejected by the network, or the browser call that changes tabs or storage rejects (`chrome.tabs.create` for `open_tab`, `update` or `remove` once a tab search picked a tab, `chrome.storage.local.set` for a write), which is then thrown as it is; a write that does not throw stores the `content` value itself |
| Tools.ContentOf | sw.js:170 | the value a write stores is the `content` argument itself, and undefined exactly when it is absent |
| Tools.DispatchOf | sw.js:285-311 | an unknown name gives `Unknown tool <name>` without touching the files; only `mcp.fs.write` changes them |
| Tools.ThrowsExactly | sw.js:285-311 | a call throws exactly when its arguments are null and its tool reads one, or `switch_tab` or `close_tab` gets no string `match`, or `mcp.rag.query` gets no string `q` while there are notes, or a permitted `mcp.fetch.get` is rejected by the network, or the browser call that changes tabs or storage rejects: `open_tab` and `mcp.fs.write` always make one, `switch_tab` and `close_tab` once they picked a tab |
| Tools.FetchThroughTools | sw.js:305 | a fetch with null arguments throws a TypeError; one outside the allowlist is refused with the policy error; one inside it returns the response with its body cut short, or throws the network's error when the network rejects it |
| Tools.WriteThenReadThroughTools | sw.js:306-307 | a write whose storage call rejects throws that error and leaves the files as they were; otherwise the value written reads back through the tools as itself when it is truthy or a string, and as the empty string when it is 0, false or null |
| Tools.Dispatch | sw.js:285-311 | dispatching runs the tab searches as loops and updates the store in place, with the outcome and the new files that dispatching specifies, null arguments included |
| Tools.TabLine | sw.js:337 | each listed tab is a line starting with "- " |
| Tools.TabLineSeq | sw.js:337 | one line per tab, in tab order |
| Tools.Listed | sw.js:337 | the first ten tabs are listed, and all of them when there are at most ten |
| Tools.Feedback | sw.js:328-351 | a failure names the tool and its error; a tab list starts with its heading; any tool without its own summary gives "Executed tool: <name>" |
| Tools.TabListLines | sw.js:336-338 | the tab list reads line by line as the heading, one line per listed tab in order, and an ellipsis exactly when tabs were left out |
| Tools.TabListJoined | sw.js:336-338 | the tab list is those lines joined by line breaks |
| Tools.TabListSingleLines | sw.js:337-338 | with single-line tab names, no line of the list contains a line break |
| Tools.NoTabsListed | sw.js:336-338 | an empty tab list is the heading alone |
| Agent.StatusEvents | sw.js:26-29 | a status is sent exactly when the tab id is truthy, and at most one |
| Agent.Seeded | sw.js:360-388 | the conversation starts from the saved one, or from the system prompt alone when none is saved |
| Agent.Adopt | sw.js:410-415 | the tab changes only after an `ok` result of `open_tab` or `switch_tab`, and then to its truthy id |
| Agent.Tagged | sw.js:244-249 | the reader's notices are sent in order, each tagged with the tab |
| Agent.Answer | sw.js:452-467 | a reply with text ends the loop; when the streaming request fails, only the final answer with the reply's text is sent; otherwise the stream's start comes first, and STREAM_END is sent exactly when the whole body was read without a tool-call abort, while a body that breaks off or is aborted ends with the final answer; the conversation, the steps and the tab stay as they were |
| Agent.TurnCalls | sw.js:396-397 | every turn asks the completion service once |
| Agent.LoopCalls | sw.js:396-473 | the remaining turns ask the completion service at most once per turn left |
| Agent.ModelCallsBounded | sw.js:360-397 | a request whose saved conversation can be read asks the completion service at least once and at most ten times; one whose read fails asks it never |
| Agent.RunCallsQuiet | sw.js:406-448 | running tool calls sends no terminal event |
| Agent.AnswerSettled | sw.js:452-467 | sending an answer adds exactly one terminal event, as the last event |
| Agent.TurnSettled | sw.js:396-473 | after any turn, no terminal event has been sent except an answer as the last event |
| Agent.LoopSettled | sw.js:396-473 | the whole loop keeps that |
| Agent.FinishOneTerminal | sw.js:476-489 | from a state where at most an answer has been sent as the last event, the end of a request leaves exactly one terminal event, followed only by status events, when the save succeeds or the loop crashed; when the save of an answered request fails, the answer is followed by the save's error, nothing else is terminal, and nothing is saved |
| Agent.OneTerminalEvent | sw.js:354-490 | a request whose saved conversation cannot be read sends no terminal event and saves nothing; otherwise, when the save succeeds, it ends with exactly one terminal event followed only by status events, an error exactly when nothing is saved; when the save fails, nothing is saved and the answer, if any, is followed by the save's error |
| Agent.TurnExtends | sw.js:401-449 | a turn only appends to the conversation |
| Agent.LoopExtends | sw.js:396-473 | the loop only appends to the conversation |
| Agent.SavedHistory | sw.js:360-482 | a saved conversation starts with the seeded one and the user's message |
| Agent.CallStepReturned | sw.js:407-447 | a call that returns adds its step and its tool message with the call's id |
| Agent.CallsRecorded | sw.js:406-449 | tool calls that all return give one step and one tool message each, in call order, with the call's id and name |
| Agent.CallsOutputs | sw.js:442-449 | the tool messages are one per call, in call order |
| Agent.CallsSteps | sw.js:435-440 | the steps are one per call, in call order |
| Agent.ToolTurnRecorded | sw.js:401-449 | a turn whose tool calls all return appends the reply, then one tool message per call, and one step per call |
| Agent.TabAdoption | sw.js:410-415 | the tab after a reply's calls is the one before them, or the truthy id of an `ok` `open_tab` or `switch_tab` result among them |
| Agent.StopsAtAnswer | sw.js:452-472 | a reply with text, or one without tool calls, is the last the loop asks for |
| Agent.LoopToolsOnly | sw.js:396-473 | replies with tool calls only use up all ten turns |
| Agent.TenTurnsThenFallback | sw.js:476-482 | after ten replies with tool calls only, the fixed answer "Completed the requested actions." is sent and the conversation is saved; when that save fails, the save's error follows the answer and nothing is saved |
| Agent.RunToolCalls | sw.js:406-449 | the loop over one reply's tool calls runs them in order and leaves at the first that throws |
| Agent.SendAnswer | sw.js:452-467 | the answer is streamed, or falls back to the reply's text when the stream fails, breaks off or is aborted, as `Answer` says |
| Agent.TakeTurn | sw.js:397-472 | one pass of the loop body |
| Agent.HandleSideInput | sw.js:354-490 | a request, served turn by turn, has the events, the saved conversation, the tab and the number of completion requests that the request specifies, including a failed read of the saved conversation and a failed save |
| Agent.RunTurns | sw.js:396-473 | the bounded `for` loop over the turns |
| Agent.Conclude | sw.js:476-489 | the end of a request: the fallback answer or the error, the save or its error, then the idle status |
| ModelPicker.IsFreeModelSpec | sidepanel.js:954-956 | an id is free exactly when `:free`, in any case, ends it before trailing white space |
| ModelPicker.StealthModelSpec | sidepanel.js:958-960 | an id is a stealth model exactly when it is `openrouter/` followed by anything but `auto` and `auto:free`; the prefix is matched with its letter case, so `OpenRouter/…` never is one |
| ModelPicker.Greedy | sidepanel.js:967-972 | the scan takes at most the needle's length of characters and scores between 3 and 5 points for each |
| ModelPicker.GreedyComplete | sidepanel.js:968-973 | the scan takes the whole needle exactly when the needle is a subsequence of the haystack |
| ModelPicker.PrefixIsSubsequence | sidepanel.js:974 | a prefix is a subsequence |
| ModelPicker.FuzzyScoreRange | sidepanel.js:962-976 | the score is 0 for an empty needle, and -1 exactly when the needle is not a subsequence; otherwise it lies between 3 and 5 points per needle character, plus 8 exactly when the haystack starts with the needle |
| ModelPicker.FuzzyScore | sidepanel.js:962-976 | the loop computes that score |
| ModelPicker.Keep | sidepanel.js:1015-1020 | filtering keeps exactly the elements that pass |
| ModelPicker.KeepCounts | sidepanel.js:1015-1020 | filtering keeps every copy of a kept element and none of the others |
| ModelPicker.KeepSorted | sidepanel.js:1017-1020 | filtering a sorted list keeps it sorted |
| ModelPicker.Insert | sidepanel.js:1016 | inserting adds one element and loses none |
| ModelPicker.InsertSorted | sidepanel.js:1016 | inserting into a sorted list keeps it sorted |
| ModelPicker.SortDesc | sidepanel.js:1016 | sorting is a permutation |
| ModelPicker.SortDescSorted | sidepanel.js:1016 | sorting puts the best score first |
| ModelPicker.ScoredModels | sidepanel.js:1015 | every model paired with its score, in listing order |
| ModelPicker.Models | sidepanel.js:1016 | the models of the pairs, in order |
| ModelPicker.LimitPaid | sidepanel.js:1000-1003 | exactly the first min(n, 50) items, all of them when there are at most fifty |
| ModelPicker.FilterModels | sidepanel.js:1005-1025 | the result is two groups |
| ModelPicker.BlankQuery | sidepanel.js:1006-1014 | a blank query lists exactly the stealth models, then exactly the free ones |
| ModelPicker.RankedSpec | sidepanel.js:1015-1016 | ranking keeps each matching model with its own score, every copy of it, best first |
| ModelPicker.ModelsOrdered | sidepanel.js:1016 | the models of a ranked list come in non-increasing score |
| ModelPicker.ConsideredSpec | sidepanel.js:1015-1017 | a query considers the matching models, only the free ones when free models are asked for alone, best first |
| ModelPicker.ScoredGroup | sidepanel.js:1016-1020 | the models of a group are exactly those whose scored pair is in it |
| ModelPicker.NoPaidAmongFree | sidepanel.js:1017-1020 | no paid model remains once only free ones are asked for |
| ModelPicker.FreeGroupSpec | sidepanel.js:1015-1022 | for a non-blank query the Free group holds exactly the free models that match, best match first |
| ModelPicker.PaidGroupSpec | sidepanel.js:1015-1024 | for a non-blank query the Paid group holds only paid models that match, best first; none when free models are asked for alone; otherwise exactly min(n, 50) of the n matching paid listings, all of them when n is at most fifty, and no matching paid model left out scores more than any shown |
| ModelPicker.PaidAreBest | sidepanel.js:1000-1020 | a matching paid model that the first fifty leave out scores no more than any of them |
| ModelPicker.GroupRows | sidepanel.js:1030-1032 | an empty group gives no row; another gives its title, then its items in order |
| ModelPicker.FlattenGroups | sidepanel.js:1027-1035 | the loop gives the rows of the groups, in group order |
| ModelPicker.FlattenSnoc | sidepanel.js:1029-1033 | one more group appends its rows |
| ModelPicker.FlattenLength | sidepanel.js:1027-1035 | the number of rows is one plus the size of each non-empty group, summed |
| ModelPicker.FlattenItems | sidepanel.js:1027-1035 | the models of the rows are the groups' items, in group order |
| PipeTables.PipeLineMatches | sidepanel.js:375-382 | recognising a header or a row line through `trim` is the same as matching its regular expression |
| PipeTables.TableHasSeparator | sidepanel.js:376-378 | a table takes its header and a separator line after it |
| PipeTables.TrimAll | sidepanel.js:379 | every cell is trimmed, in order |
| PipeTables.Cells | sidepanel.js:379 | a line has at least one cell |
| Text.SpacesFrom | sidepanel.js:390 | `\s*` takes the whole run of white space |
| PipeTables.FirstBr | sidepanel.js:390 | the leftmost `<br>`, with none before it, or none at all |
| PipeTables.SplitBr | sidepanel.js:390 | a cell splits into at least one part |
| PipeTables.NonEmpty | sidepanel.js:390 | only the non-empty parts are kept |
| PipeTables.PlainCellUnchanged | sidepanel.js:389-396 | a cell without bullet markers is kept as it is |
| PipeTables.RowsEnd | sidepanel.js:382-385 | the rows run up to the first line that is not a row line |
| PipeTables.CollectRows | sidepanel.js:382-385 | the inner loop collects exactly those row lines |
| PipeTables.ConvertFrom | sidepanel.js:373-405 | never more output lines than input lines, and at least one for a non-empty input |
| PipeTables.ConvertAt | sidepanel.js:373-405 | one pass of the loop emits one line and moves forward |
| PipeTables.ConvertPipeTablesToHtml | sidepanel.js:369-410 | the loop gives the converted text |
| PipeTables.ConvertFromPlain | sidepanel.js:403-404 | lines with no table among them come out as they went in |
| PipeTables.NoTableUnchanged | sidepanel.js:369-406 | text with no header line followed by a separator line is returned unchanged |
| PipeTables.PipeFreeUnchanged | sidepanel.js:369-406 | text without a pipe is returned unchanged |
| PipeTables.PlainLineKept | sidepanel.js:403-404 | a line that does not start a table is kept as it is and in its place |
| PipeTables.TableConsumesRows | sidepanel.js:378-401 | a table is its header, its separator and every row line right after them, and it becomes one line |
| PipeTables.ConvertFromWithout | sidepanel.js:386-400 | no output line contains a line break |
| PipeTables.ConvertedLines | sidepanel.js:400-406 | the lines of the result are the converted lines: a table collapses into one line and no other line is split or merged |
| JsonViewer.NatToString | sidepanel.js:512 | an array index is written as a non-empty string of digits |
| JsonViewer.IndexNotHeavy | sidepanel.js:486-488 | an array index is never a heavy key |
| JsonViewer.ArrayFields | sidepanel.js:512 | the members of an array are its items, keyed by index |
| JsonViewer.Fields | sidepanel.js:511-512 | a scalar has no keys, and every member is smaller than its container |
| JsonViewer.ScalarNotHeavy | sidepanel.js:511 | a scalar holds no heavy field |
| JsonViewer.Redact | sidepanel.js:485-494 | nothing changes when the replacer met no heavy field |
| JsonViewer.RedactShape | sidepanel.js:485-494 | the replacer keeps every key and its place, writes a string under a key named `html` or `text` as the placeholder with the lower-cased key and the string's length, redacts every other member and every array item in turn, and leaves a scalar unchanged |
| JsonViewer.RedactFlag | sidepanel.js:482-494 | the replacer reports a heavy field exactly when one exists |
| JsonViewer.ArrayHeavy | sidepanel.js:486-488 | an array holds a heavy field exactly when one of its items does |
| JsonViewer.ScanFields | sidepanel.js:512-522 | a scan that finds nothing queues no more than the value holds |
| JsonViewer.ScanKeys | sidepanel.js:512-522 | the loop over the keys stops at the first heavy field, and otherwise appends every object-valued member to the queue |
| JsonViewer.ScanStops | sidepanel.js:515-518 | a heavy field ends the scan with its hit |
| JsonViewer.ScanGoesOn | sidepanel.js:521 | past a field that is not heavy, the scan goes on with the field's value queued if it is an object |
| JsonViewer.FindFirstHeavy | sidepanel.js:506-527 | the queue drained from the front finds a field exactly when the result holds a heavy one; the field found is a string under a heavy key that its path reaches from the root, and no heavy string lies on a shorter path |
| JsonViewer.ScanFound | sidepanel.js:515-518 | a scan finds something exactly when one of the fields is heavy |
| JsonViewer.ScanPushed | sidepanel.js:521 | what a scan queues holds a heavy field exactly when some field's value does |
| JsonViewer.SearchFindsIff | sidepanel.js:506-527 | the search finds something exactly when some queued value holds a heavy field |
| JsonViewer.PreviewIffRedacted | sidepanel.js:505-528 | a preview is offered exactly when the replacer met a heavy field |
| JsonViewer.ScanFoundSound | sidepanel.js:514-518 | a scan's hit is a heavy string field of the scanned value, one key below it |
| JsonViewer.SearchSound | sidepanel.js:506-527 | every hit of a search from reached values names a heavy key holding a string that its path reaches |
| JsonViewer.FindFirstHeavySound | sidepanel.js:506-527 | the preview is a string under a key named `html` or `text`, lower-cased, and its path leads to it from the root |
| JsonViewer.SearchFirst | sidepanel.js:508-523 | from a queue ordered by depth, holding at most two depths, below which every heavy string lies, the search finds one no deeper than any other |
| JsonViewer.StepLayered | sidepanel.js:510-522 | scanning the front keeps the queue ordered by depth, with at most two depths |
| JsonViewer.StepCovers | sidepanel.js:510-522 | scanning a front value that holds no heavy string keeps every heavy string below a queued value |
| JsonViewer.FindFirstHeavyFirst | sidepanel.js:506-527 | the search from the root finds a heavy string no deeper than any other |
| JsonViewer.Preview.constructor | sidepanel.js:558-571 | the preview starts at 1000 characters, rendered: it shows the first `shown` characters and the buttons are off exactly when all of it shows |
| JsonViewer.Preview.Render | sidepanel.js:561-568 | the preview shows the first `shown` characters, and both buttons are switched off once all of them show |
| JsonViewer.Preview.ReadMore | sidepanel.js:569 | "Read more" shows 500 more characters, up to the whole text |
| JsonViewer.Preview.ShowAll | sidepanel.js:570 | "Show all" shows the whole text and switches both buttons off |
| JsonViewer.ShownAfterClicks | sidepanel.js:559-569 | after n clicks 1000 plus 500 n characters show, up to the whole text |
| JsonViewer.ClicksToShowAll | sidepanel.js:559-569 | a text of more than 1000 characters shows in full after (length - 1000) / 500 clicks, rounded up, and not one click earlier |
| StreamView.BlankIsSpace | sidepanel.js:144 | a delta is blank exactly when it holds only white space |
| StreamView.DropBlank | sidepanel.js:144-146 | the deltas from the first one with content on; all those before it are blank |
| StreamView.NonBlank | sidepanel.js:144 | the deltas that are not blank |
| StreamView.RunStreaming | sidepanel.js:157 | under the corrected blank rule, once a bubble exists every delta is appended |
| StreamView.RunShowsContent | sidepanel.js:144-157 | under the corrected blank rule, the bubble shows every delta from the first one with content on, and exists exactly when there is one |
| StreamView.ShownIsWorkerText | sidepanel.js:144-157 | the bubble shows the text the worker accumulated, less only the white space before the first delta with content |
| StreamView.LeadingBlanks | sidepanel.js:144 | the blank deltas before the first with content hold only white space |
| StreamView.RunAsWrittenKeepsNonBlank | sidepanel.js:144-157 | as written, the bubble shows exactly the deltas that are not blank |
| StreamView.BlankDeltaDropped | sidepanel.js:144 | as written, a blank delta between two others is lost |
| StreamView.Stream.constructor | sidepanel.js:141 | the panel starts with no bubble, no buffer and no render pending |
| StreamView.Stream.AppendStreamTextAsWritten | sidepanel.js:142-170 | as written: a blank delta is skipped whatever the state; any other creates the bubble if none exists, is appended, and schedules a render unless one is pending |
| StreamView.Stream.AppendStreamText | sidepanel.js:142-170 | under the corrected blank rule (a blank delta is skipped only while no bubble exists): a delta creates the bubble if there is content and none exists, is appended, and schedules a render unless one is pending or the delta was skipped |
| StreamView.Stream.Flush | sidepanel.js:160-169 | when a render is pending and the bubble exists, the timer copies the bubble's text into the buffer; the render is no longer pending and the bubble is unchanged |
| StreamView.Stream.Abort | sidepanel.js:698-706 | an abort discards the bubble and the buffer |
| StreamView.AbortThenAppend | sidepanel.js:698-706 | after an abort, the deltas that follow build a bubble from nothing: it shows every delta from the first with content on, exists exactly when there is one, and the buffer stays empty |
| StreamView.Captured | sidepanel.js:802 | the captured tool name is never empty |
| StreamView.ExecutingNamesTool | sidepanel.js:783-804 | the status the worker sends before a tool runs names that tool's label |
| StreamView.RegistryLabels | sidepanel.js:26-43 | every tool of the registry gets its short label |
| StreamView.RegistryNamesLabelled | sidepanel.js:26-43 | every tool of the registry has a non-empty short label |
| StreamView.UnlabelledShowsName | sidepanel.js:804 | a tool without a short label is shown by its own name |
| StreamView.GateIgnoresCase | sidepanel.js:783 | the "Executing:" gate ignores case |

## Left out

- The browser APIs (tabs, storage, scripting, side panel, runtime messaging), `fetch`, `TextDecoder` and `JSON.parse` are parameters. Tabs are a given sequence, storage is a map, the network and the parser are functions, and the completion service and the tools are oracles indexed by turn and call. The streaming request is one given reply: it fails, or it delivers a body in chunks that may break off. Reading and saving the conversation in session storage are given outcomes: the read fails or not, and the save fails with an error or not. Likewise the browser calls that change tabs or storage in a tool (`chrome.tabs.create`, `update`, `remove` and `chrome.storage.local.set`) either succeed or reject with a given error; why they reject (a url that is not a string, a tab closed since the query, a full quota) is not modelled.
- The page tools are the content script's canned answers; content.js is not part of this model.
- The system prompt's wording is a constant message. Timers, throttling and durations (`Date.now`, `setTimeout`) are left out; the render timer is a pending flag and a `Flush` method.
- `dispatchToolCall`'s path for a call that carries `name` and `arguments` at top level is not modelled. The model always reads the `function` part, which is what the completion service sends.
- Tools.Route: a thrown `TypeError` is modelled as a fixed text, not its wording.
- Redact: its own contract states only that nothing changes when no heavy field was met; the placeholder replacement is stated by RedactShape.
- `JSON.stringify` (its serialisation and indentation) is not modelled. `Redact` gives the redacted value, not its text, and the `catch` fallbacks of the stringify calls are left out.
- The model counts lengths in code points, where JavaScript counts UTF-16 code units. Lower-casing is ASCII only.
- Object keys keep their order of insertion. The rule that puts integer-like keys first in `Object.keys` is not modelled.
- Label lookups on keys of `Object.prototype` are not modelled.
- The regular expressions are modelled by hand, one per use: the pipe-table patterns, `<br\s*\/?>`, `^[-*]\s+`, `:free\s*$` and `^Executing:\s+(.+)$`. There is no general regular-expression engine.
- ModelPicker.SortDesc: it is a stable insertion sort. The model relies on stability, which `Array.prototype.sort` guarantees, and not on the engine's algorithm.
- The floating-point form of `sim` is the exact rational `1 - dist / maxLen` in `real`.
- URL parsing is a parameter: the host of a URL, or none when it does not parse.
- The confirmation handshake (`CONFIRM_REQUEST`), `checkRobotsTxt`, `listTabs` and `openTab` internals, screenshots, and the cancel message the side panel sends are left out. The worker never handles `CANCEL_RUN`.
- `basicMarkdown`, `renderMarkdown`, `sanitize`, `enhanceLinks`, the DOM of `endStream` and the thinking blocks, and the side panel's own writes to session storage are left out.
- A tool argument that is not a string is kept as an opaque value with its text and its truthiness. Numbers, objects and arrays are not modelled further, and a file read hands such a value back as it was stored.

## Findings

| source | as written | input that shows it | evidently intended | confidence | as-written member | corrected member |
|---|---|---|---|---|---|---|
| sidepanel.js:142-157 | the blank test at line 144 drops every whitespace-only delta, even in the middle of an answer | the deltas "a", "\n\n", "b" show "ab" in the bubble, while the worker's text is "a\n\nb" | skip blank deltas only while no bubble exists, as the comment "avoid creating empty bubbles" says | medium, not executed | StreamView.Stream.AppendStreamTextAsWritten | StreamView.Stream.AppendStreamText |
