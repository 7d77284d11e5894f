/**
 * The tools the agent offers the model, how a call is routed to its handler
 * (`buildToolSchemas` and `dispatchToolCall` in sw.js), and the one-line
 * summary of a result shown to the user (`getHumanToolFeedback`).
 *
 * Everything the handlers reach outside the service worker (the page's
 * content script, the tab strip, screenshots, the network, JSON.parse) is
 * given as an environment of canned answers. The virtual file system is the
 * only state a call changes.
 */
module Tools {
  import opened Wrappers
  import opened Text
  import TabMatch
  import Policy
  import VirtualFs

  datatype Tool =
    | ReadPage | Click | ClickText | TypeText | Scroll | ExtractTable
    | OpenTab | SwitchTab | CloseTab | GetTabs | Screenshot
    | FetchGet | FsRead | FsWrite | RagQuery

  /** The name the model calls a tool by. */
  function NameOf(t: Tool): string {
    match t
    case ReadPage => "read_page"
    case Click => "click"
    case ClickText => "click_text"
    case TypeText => "type"
    case Scroll => "scroll"
    case ExtractTable => "extract_table"
    case OpenTab => "open_tab"
    case SwitchTab => "switch_tab"
    case CloseTab => "close_tab"
    case GetTabs => "get_tabs"
    case Screenshot => "screenshot"
    case FetchGet => "mcp.fetch.get"
    case FsRead => "mcp.fs.read"
    case FsWrite => "mcp.fs.write"
    case RagQuery => "mcp.rag.query"
  }

  /** The `switch` of `dispatchToolCall`: the tool a name selects, if any. */
  function ToolNamed(name: string): (r: Option<Tool>)
    ensures r.Some? ==> NameOf(r.value) == name
  {
    if name == "read_page" then Some(ReadPage)
    else if name == "click" then Some(Click)
    else if name == "click_text" then Some(ClickText)
    else if name == "type" then Some(TypeText)
    else if name == "scroll" then Some(Scroll)
    else if name == "extract_table" then Some(ExtractTable)
    else if name == "screenshot" then Some(Screenshot)
    else if name == "get_tabs" then Some(GetTabs)
    else if name == "open_tab" then Some(OpenTab)
    else if name == "switch_tab" then Some(SwitchTab)
    else if name == "close_tab" then Some(CloseTab)
    else if name == "mcp.fetch.get" then Some(FetchGet)
    else if name == "mcp.fs.read" then Some(FsRead)
    else if name == "mcp.fs.write" then Some(FsWrite)
    else if name == "mcp.rag.query" then Some(RagQuery)
    else None
  }

  /** Every tool is reached by its own name, so no two tools share a name. */
  lemma NameRoundTrip(t: Tool)
    ensures ToolNamed(NameOf(t)) == Some(t)
  {
    if t.ReadPage? || t.Click? || t.ClickText? || t.TypeText? || t.Scroll? {
      PageToolsNamed(t);
    } else if t.ExtractTable? || t.Screenshot? || t.GetTabs? || t.OpenTab? || t.SwitchTab? {
      TabToolsNamed(t);
    } else {
      OtherToolsNamed(t);
    }
  }

  lemma PageToolsNamed(t: Tool)
    requires t.ReadPage? || t.Click? || t.ClickText? || t.TypeText? || t.Scroll?
    ensures ToolNamed(NameOf(t)) == Some(t)
  {
  }

  lemma TabToolsNamed(t: Tool)
    requires t.ExtractTable? || t.Screenshot? || t.GetTabs? || t.OpenTab? || t.SwitchTab?
    ensures ToolNamed(NameOf(t)) == Some(t)
  {
  }

  lemma OtherToolsNamed(t: Tool)
    requires t.CloseTab? || t.FetchGet? || t.FsRead? || t.FsWrite? || t.RagQuery?
    ensures ToolNamed(NameOf(t)) == Some(t)
  {
  }

  lemma NamesDistinct(t: Tool, u: Tool)
    requires NameOf(t) == NameOf(u)
    ensures t == u
  {
    NameRoundTrip(t);
    NameRoundTrip(u);
  }

  /** What the model is told about a tool: its name and the arguments it must supply. */
  datatype Schema = Schema(name: string, required: seq<string>)

  /** `buildToolSchemas`, in its order. */
  function ToolSchemas(): (schemas: seq<Schema>)
    ensures |schemas| == 15
  {
    [ Schema("read_page", []),
      Schema("click", ["selector"]),
      Schema("click_text", ["text"]),
      Schema("type", ["selector", "text"]),
      Schema("scroll", []),
      Schema("extract_table", ["selector"]),
      Schema("open_tab", ["url"]),
      Schema("switch_tab", ["match"]),
      Schema("close_tab", ["match"]),
      Schema("get_tabs", []),
      Schema("screenshot", []),
      Schema("mcp.fetch.get", ["url"]),
      Schema("mcp.fs.read", ["path"]),
      Schema("mcp.fs.write", ["path", "content"]),
      Schema("mcp.rag.query", ["q"]) ]
  }

  /** Every tool offered to the model has a handler, and every handler is offered, exactly once. */
  lemma SchemasMatchHandlers()
    ensures forall k :: 0 <= k < |ToolSchemas()| ==> ToolNamed(ToolSchemas()[k].name).Some?
    ensures forall t: Tool :: NameOf(t) in SchemaNames()
    ensures forall k, l :: 0 <= k < l < |ToolSchemas()| ==> ToolSchemas()[k].name != ToolSchemas()[l].name
  {
    forall k | 0 <= k < |ToolSchemas()|
      ensures ToolNamed(ToolSchemas()[k].name).Some?
    {
      NameRoundTrip(SchemaTool(k));
    }
    forall t: Tool
      ensures NameOf(t) in SchemaNames()
    {
      var k := SchemaIndex(t);
      assert SchemaNames()[k] == NameOf(t);
    }
    forall k, l | 0 <= k < l < |ToolSchemas()|
      ensures ToolSchemas()[k].name != ToolSchemas()[l].name
    {
      if ToolSchemas()[k].name == ToolSchemas()[l].name {
        NamesDistinct(SchemaTool(k), SchemaTool(l));
      }
    }
  }

  /** The names of the offered tools, in order. */
  function SchemaNames(): (names: seq<string>)
    ensures |names| == |ToolSchemas()|
    ensures forall k :: 0 <= k < |names| ==> names[k] == ToolSchemas()[k].name
  {
    seq(|ToolSchemas()|, k requires 0 <= k < |ToolSchemas()| => ToolSchemas()[k].name)
  }

  /** Where a tool stands among the schemas. */
  function SchemaIndex(t: Tool): (k: nat)
    ensures k < |ToolSchemas()| && ToolSchemas()[k].name == NameOf(t)
  {
    match t
    case ReadPage => 0
    case Click => 1
    case ClickText => 2
    case TypeText => 3
    case Scroll => 4
    case ExtractTable => 5
    case OpenTab => 6
    case SwitchTab => 7
    case CloseTab => 8
    case GetTabs => 9
    case Screenshot => 10
    case FetchGet => 11
    case FsRead => 12
    case FsWrite => 13
    case RagQuery => 14
  }

  /** The tool the k-th schema offers. */
  function SchemaTool(k: nat): (t: Tool)
    requires k < |ToolSchemas()|
    ensures SchemaIndex(t) == k
  {
    [ReadPage, Click, ClickText, TypeText, Scroll, ExtractTable, OpenTab, SwitchTab,
     CloseTab, GetTabs, Screenshot, FetchGet, FsRead, FsWrite, RagQuery][k]
  }

  // ---------------------------------------------------------------------------
  // Calls and their arguments

  /** The properties of the parsed arguments, by key. */
  type Args = map<string, VirtualFs.Value>

  /** `String(args[key])`: "undefined" for a missing key. */
  function TextOf(args: Args, key: string): string {
    if key !in args then "undefined"
    else match args[key]
      case Str(s) => s
      case Other(t, _) => t
  }

  /** The string `args[key]`, when it is one. */
  function StringArg(args: Args, key: string): Option<string> {
    if key in args && args[key].Str? then Some(args[key].s) else None
  }

  /** A tool call of an assistant message: its id and its `function` part. */
  datatype Call = Call(id: string, name: string, arguments: Option<string>)

  /**
   * What `JSON.parse` gives for a text: it throws; it gives `null`, on which
   * reading any property throws; or it gives a value with these properties
   * (an array, a number, a string or a boolean has none of the keys a
   * handler reads, so it has no properties here).
   */
  datatype Parsed = Unparsable | Null | Object(fields: Args)

  /**
   * The arguments of a call: `JSON.parse(arguments || '{}')`, and `{}` when
   * parsing throws; None is `null`. `parse` stands for JSON.parse.
   */
  function ArgsOf(call: Call, parse: string -> Parsed): (args: Option<Args>)
    ensures args.None? <==> parse(if call.arguments.None? || call.arguments.value == [] then "{}" else call.arguments.value).Null?
  {
    var text := if call.arguments.None? || call.arguments.value == [] then "{}" else call.arguments.value;
    match parse(text)
    case Unparsable => Some(map[])
    case Null => None
    case Object(a) => Some(a)
  }

  /** Unparsable arguments are treated as none at all. */
  lemma UnparsableArgsAreEmpty(call: Call, parse: string -> Parsed)
    requires call.arguments.Some? && call.arguments.value != []
    requires parse(call.arguments.value).Unparsable?
    ensures ArgsOf(call, parse) == Some(map[])
  {
  }

  /** A missing or empty `arguments` is read as "{}". */
  lemma MissingArgsAreEmptyObject(call: Call, parse: string -> Parsed)
    requires call.arguments.None? || call.arguments.value == []
    ensures ArgsOf(call, parse) == ArgsOf(call.(arguments := Some("{}")), parse)
  {
  }

  // ---------------------------------------------------------------------------
  // Results

  /** The `result` part of a successful tool result. */
  datatype Payload =
    | Nothing
    | PageData(data: string)
    | TabRef(id: int, title: Option<string>, url: Option<string>)
    | TabList(tabs: seq<TabMatch.Tab>)
    | FileContent(content: VirtualFs.Value)
    | NoteList(notes: seq<VirtualFs.Note>)
    | Http(status: int, headers: map<string, string>, body: string)
    | Image(dataUrl: string)

  /** `{ok: true, ...}` or `{ok: false, error}`. */
  datatype ToolResult = Ok(payload: Payload) | Failed(error: string)

  /** A handler either returns a result or throws. */
  datatype Outcome = Returned(result: ToolResult) | Threw(error: string)

  /**
   * What the handlers find outside the service worker: the content script's
   * answer for a page tool, the screenshot, the open tabs, the tab a new tab
   * request creates, the allowlist, the host of a URL (None when it does not
   * parse), the network's answer and the notes corpus. The content script
   * is handed the arguments as they are, `null` (None) included.
   * `changeRejects` is the error that the browser call changing tabs or
   * storage (`chrome.tabs.create`, `update` or `remove`,
   * `chrome.storage.local.set`) rejects with, if it does: for a url that is
   * not a string, a tab closed since the query, or a full storage quota.
   */
  datatype Env = Env(
    page: (string, Option<Args>) -> ToolResult,
    screenshot: ToolResult,
    tabs: seq<TabMatch.Tab>,
    created: TabMatch.Tab,
    allowlist: seq<string>,
    hostOf: string -> Option<string>,
    response: Policy.Network,
    notes: seq<VirtualFs.Note>,
    changeRejects: Option<string>)

  const NoTabMatched: string := "No tab matched"
  const NotAllowedByPolicy: string := "Domain not allowed by policy"
  /** What a method call on `undefined` or on a non-string throws. */
  const TypeErrorText: string := "TypeError"

  /** How a handler that changes tabs or storage ends: it returns `result` unless the change rejects. */
  function AfterChange(env: Env, result: ToolResult): Outcome {
    match env.changeRejects
    case Some(e) => Threw(e)
    case None => Returned(result)
  }

  /** How `activateTabByMatch` ends: the tab it picks is activated, and the activation may reject. */
  function SwitchOutcome(env: Env, query: string): Outcome {
    match TabMatch.Activation(env.tabs, Lower(query))
    case Some(i) => AfterChange(env, Ok(TabRef(env.tabs[i].id, env.tabs[i].title, env.tabs[i].url)))
    case None => Returned(Failed(NoTabMatched))
  }

  /** How `closeTabByMatch` ends: the tab it picks is removed, and the removal may reject. */
  function CloseOutcome(env: Env, query: string): Outcome {
    match TabMatch.CloseTabByMatch(env.tabs, query)
    case NoTabMatched => Returned(Failed(NoTabMatched))
    case Closed(_, _) => AfterChange(env, Ok(Nothing))
  }

  /**
   * The handler gets as far as its browser call that changes tabs or storage:
   * always for `open_tab` and `mcp.fs.write`, and for the tab searches when
   * they pick a tab.
   */
  predicate Changes(tool: Tool, args: Args, env: Env) {
    || tool == OpenTab || tool == FsWrite
    || (tool == SwitchTab && StringArg(args, "match").Some?
        && TabMatch.Activation(env.tabs, Lower(StringArg(args, "match").value)).Some?)
    || (tool == CloseTab && StringArg(args, "match").Some?
        && TabMatch.CloseTabByMatch(env.tabs, StringArg(args, "match").value).Closed?)
  }

  /** How `mcp_fetch_get` ends for the URL `url`: a rejected fetch is thrown on. */
  function FetchOutcome(env: Env, url: string): Outcome {
    match Policy.FetchGet(env.allowlist, env.hostOf(url), env.response)
    case NotAllowed => Returned(Failed(NotAllowedByPolicy))
    case Fetched(status, headers, body) => Returned(Ok(Http(status, headers, body)))
    case Rejected(e) => Threw(e)
  }

  /** `mcp_rag_query`: a missing or non-string query throws as soon as there is a note to compare it with. */
  function RagResult(env: Env, q: Option<string>): Outcome {
    match q
    case Some(s) => Returned(Ok(NoteList(VirtualFs.RagQuery(env.notes, s))))
    case None => if env.notes == [] then Returned(Ok(NoteList([]))) else Threw(TypeErrorText)
  }

  /** The value `fs[path] = args.content` stores: the argument itself, or undefined (None) when it is absent. */
  function ContentOf(args: Args): (content: Option<VirtualFs.Value>)
    ensures content.Some? <==> "content" in args
    ensures content.Some? ==> content.value == args["content"]
  {
    if "content" in args then Some(args["content"]) else None
  }

  /** The handlers that read a property of their arguments, which throws when the arguments are `null`. */
  predicate ReadsArgs(tool: Tool) {
    tool.OpenTab? || tool.SwitchTab? || tool.CloseTab? || tool.FetchGet? || tool.FsRead? || tool.FsWrite? || tool.RagQuery?
  }

  /**
   * `dispatchToolCall` for a call whose name selects a tool: the outcome, and
   * the file map afterwards. `args` is None when the arguments are `null`.
   */
  function Route(tool: Tool, args: Option<Args>, env: Env, files: map<string, VirtualFs.Value>): (r: (Outcome, map<string, VirtualFs.Value>))
    ensures tool != FsWrite || r.0.Threw? ==> r.1 == files
    ensures args.None? ==> (r.0.Threw? <==> ReadsArgs(tool))
    ensures args.Some? ==>
      (r.0.Threw? <==> ((tool == SwitchTab || tool == CloseTab) && StringArg(args.value, "match").None?)
                       || (tool == RagQuery && StringArg(args.value, "q").None? && env.notes != [])
                       || (tool == FetchGet && Policy.IsAllowed(env.allowlist, env.hostOf(TextOf(args.value, "url"))) && env.response.Rejects?)
                       || (Changes(tool, args.value, env) && env.changeRejects.Some?))
    ensures args.Some? && Changes(tool, args.value, env) && env.changeRejects.Some? ==> r.0 == Threw(env.changeRejects.value)
    ensures tool == FsWrite && args.Some? && env.changeRejects.None? ==>
      r == (Returned(Ok(Nothing)), VirtualFs.WriteOf(files, TextOf(args.value, "path"), ContentOf(args.value)))
  {
    if args.None? && ReadsArgs(tool) then (Threw(TypeErrorText), files)
    else
    var a := args.GetOr(map[]);
    match tool
    case ReadPage => (Returned(env.page("read_page", args)), files)
    case Click => (Returned(env.page("click", args)), files)
    case ClickText => (Returned(env.page("click_text", args)), files)
    case TypeText => (Returned(env.page("type", args)), files)
    case Scroll => (Returned(env.page("scroll", args)), files)
    case ExtractTable => (Returned(env.page("extract_table", args)), files)
    case Screenshot => (Returned(env.screenshot), files)
    case GetTabs => (Returned(Ok(TabList(env.tabs))), files)
    case OpenTab => (AfterChange(env, Ok(TabRef(env.created.id, env.created.title, env.created.url))), files)
    case SwitchTab =>
      (match StringArg(a, "match")
       case Some(q) => SwitchOutcome(env, q)
       case None => Threw(TypeErrorText), files)
    case CloseTab =>
      (match StringArg(a, "match")
       case Some(q) => CloseOutcome(env, q)
       case None => Threw(TypeErrorText), files)
    case FetchGet => (FetchOutcome(env, TextOf(a, "url")), files)
    case FsRead => (Returned(Ok(FileContent(VirtualFs.ReadOf(files, TextOf(a, "path"))))), files)
    case FsWrite =>
      if env.changeRejects.Some? then (Threw(env.changeRejects.value), files)
      else (Returned(Ok(Nothing)), VirtualFs.WriteOf(files, TextOf(a, "path"), ContentOf(a)))
    case RagQuery => (RagResult(env, StringArg(a, "q")), files)
  }

  /** The whole of `dispatchToolCall`: an unknown name is reported, not thrown. */
  function DispatchOf(call: Call, parse: string -> Parsed, env: Env, files: map<string, VirtualFs.Value>): (r: (Outcome, map<string, VirtualFs.Value>))
    ensures ToolNamed(call.name).None? ==> r == (Returned(Failed("Unknown tool " + call.name)), files)
    ensures call.name != "mcp.fs.write" ==> r.1 == files
  {
    match ToolNamed(call.name)
    case None => (Returned(Failed("Unknown tool " + call.name)), files)
    case Some(t) =>
      assert NameOf(t) == call.name;
      Route(t, ArgsOf(call, parse), env, files)
  }

  /**
   * A handler throws only when its arguments are `null` and it reads one of
   * them, when the tab searches get no string to search for, when the notes
   * search gets none while there are notes to search, when an allowed
   * fetch is rejected, or when its browser call that changes tabs or storage
   * rejects.
   */
  lemma ThrowsExactly(call: Call, parse: string -> Parsed, env: Env, files: map<string, VirtualFs.Value>)
    ensures var args := ArgsOf(call, parse);
      DispatchOf(call, parse, env, files).0.Threw?
      <==> (args.None? && ToolNamed(call.name).Some? && ReadsArgs(ToolNamed(call.name).value))
           || (args.Some? &&
                (((call.name == "switch_tab" || call.name == "close_tab") && StringArg(args.value, "match").None?)
                 || (call.name == "mcp.rag.query" && StringArg(args.value, "q").None? && env.notes != [])
                 || (call.name == "mcp.fetch.get" && Policy.IsAllowed(env.allowlist, env.hostOf(TextOf(args.value, "url")))
                     && env.response.Rejects?)
                 || (ToolNamed(call.name).Some? && Changes(ToolNamed(call.name).value, args.value, env) && env.changeRejects.Some?)))
  {
    match ToolNamed(call.name)
    case None =>
      assert call.name != NameOf(SwitchTab) by { NameRoundTrip(SwitchTab); }
      assert call.name != NameOf(CloseTab) by { NameRoundTrip(CloseTab); }
      assert call.name != NameOf(RagQuery) by { NameRoundTrip(RagQuery); }
      assert call.name != NameOf(FetchGet) by { NameRoundTrip(FetchGet); }
    case Some(t) =>
      assert NameOf(t) == call.name;
      NamedTool(t, SwitchTab);
      NamedTool(t, CloseTab);
      NamedTool(t, RagQuery);
      NamedTool(t, FetchGet);
  }

  lemma NamedTool(t: Tool, u: Tool)
    ensures NameOf(t) == NameOf(u) <==> t == u
  {
    if NameOf(t) == NameOf(u) {
      NamesDistinct(t, u);
    }
  }

  /**
   * A fetch outside the allowlist is refused; one inside it returns the
   * response, its body cut short, or throws what the network rejected with;
   * `null` arguments throw before the allowlist is consulted.
   */
  lemma FetchThroughTools(call: Call, parse: string -> Parsed, env: Env, files: map<string, VirtualFs.Value>)
    requires call.name == "mcp.fetch.get"
    ensures var args := ArgsOf(call, parse);
      var out := DispatchOf(call, parse, env, files).0;
      && (args.None? ==> out == Threw(TypeErrorText))
      && (args.Some? ==>
           var host := env.hostOf(TextOf(args.value, "url"));
           && (!Policy.IsAllowed(env.allowlist, host) ==> out == Returned(Failed(NotAllowedByPolicy)))
           && (Policy.IsAllowed(env.allowlist, host) && env.response.Responds? ==>
                 var res := env.response.response;
                 out == Returned(Ok(Http(res.status, res.headers, Policy.Truncate(res.body)))))
           && (Policy.IsAllowed(env.allowlist, host) && env.response.Rejects? ==> out == Threw(env.response.error)))
  {
    NameRoundTrip(FetchGet);
    assert ToolNamed(call.name) == Some(FetchGet);
  }

  /**
   * A value written through the tools reads back through the tools: itself
   * when it is truthy (a string always is itself), and "" when it is falsy.
   */
  lemma WriteThenReadThroughTools(path: string, content: VirtualFs.Value, parse: string -> Parsed, env: Env,
                                  files: map<string, VirtualFs.Value>, write: Call, read: Call)
    requires write.name == "mcp.fs.write" && read.name == "mcp.fs.read"
    requires ArgsOf(write, parse) == Some(map["path" := VirtualFs.Str(path), "content" := content])
    requires ArgsOf(read, parse) == Some(map["path" := VirtualFs.Str(path)])
    ensures env.changeRejects.Some? ==>
      DispatchOf(write, parse, env, files) == (Threw(env.changeRejects.value), files)
    ensures var after := DispatchOf(write, parse, env, files).1;
      var back := DispatchOf(read, parse, env, after).0;
      env.changeRejects.None? ==>
      && (VirtualFs.Truthy(content) || content.Str? ==> back == Returned(Ok(FileContent(content))))
      && (!VirtualFs.Truthy(content) ==> back == Returned(Ok(FileContent(VirtualFs.Str([])))))
  {
    NameRoundTrip(FsWrite);
    NameRoundTrip(FsRead);
    assert ToolNamed(write.name) == Some(FsWrite) && ToolNamed(read.name) == Some(FsRead);
    var args := ArgsOf(write, parse).value;
    assert TextOf(args, "path") == path;
    assert ContentOf(args) == Some(content);
    VirtualFs.ReadAfterWrite(files, path, content);
  }

  /**
   * `dispatchToolCall` as the service worker runs it: the tab searches run
   * as loops, the file store is updated in place.
   */
  method Dispatch(call: Call, parse: string -> Parsed, env: Env, store: VirtualFs.Store) returns (outcome: Outcome)
    modifies store
    ensures (outcome, store.files) == DispatchOf(call, parse, env, old(store.files))
  {
    var tool := ToolNamed(call.name);
    if tool.None? {
      return Returned(Failed("Unknown tool " + call.name));
    }
    var parsed := ArgsOf(call, parse);
    if parsed.None? && ReadsArgs(tool.value) {
      return Threw(TypeErrorText);
    }
    var args := parsed.GetOr(map[]);
    match tool.value
    case SwitchTab =>
      var q := StringArg(args, "match");
      if q.None? {
        return Threw(TypeErrorText);
      }
      var i := TabMatch.ActivateTabByMatch(env.tabs, q.value);
      if i.None? {
        outcome := Returned(Failed(NoTabMatched));
      } else if env.changeRejects.Some? {
        outcome := Threw(env.changeRejects.value);
      } else {
        var t := env.tabs[i.value];
        outcome := Returned(Ok(TabRef(t.id, t.title, t.url)));
      }
    case FsRead =>
      var content := store.Read(TextOf(args, "path"));
      outcome := Returned(Ok(FileContent(content)));
    case FsWrite =>
      if env.changeRejects.Some? {
        return Threw(env.changeRejects.value);
      }
      store.Write(TextOf(args, "path"), ContentOf(args));
      outcome := Returned(Ok(Nothing));
    case _ =>
      outcome := Route(tool.value, parsed, env, store.files).0;
  }

  // ---------------------------------------------------------------------------
  // Feedback shown to the user

  /** `a || b` on an optional string: an absent or empty `a` gives way to `b`. */
  function OrElse(a: Option<string>, b: string): string {
    if a.Some? && a.value != [] then a.value else b
  }

  /** `String(x)` of an optional string. */
  function Shown(a: Option<string>): string {
    a.GetOr("undefined")
  }

  /** The ellipsis as it stands in the source file: the UTF-8 bytes of U+2026 read as Windows-1252. */
  const Ellipsis: string := "\U{E2}\U{20AC}\U{A6}"

  const MaxListed: nat := 10

  /** The text a tab is listed by: `t.title || t.url`. */
  function TabName(t: TabMatch.Tab): string {
    OrElse(t.title, Shown(t.url))
  }

  /** One line of the tab list: the active tab's name in bold. */
  function TabLine(t: TabMatch.Tab): (line: string)
    ensures StartsWith(line, "- ")
  {
    var mark := if t.active then "**" else "";
    "- " + mark + TabName(t) + mark
  }

  function TabLineSeq(tabs: seq<TabMatch.Tab>): (lines: seq<string>)
    ensures |lines| == |tabs|
    ensures forall k :: 0 <= k < |tabs| ==> lines[k] == TabLine(tabs[k])
  {
    seq(|tabs|, k requires 0 <= k < |tabs| => TabLine(tabs[k]))
  }

  /** The first ten tabs, which are the ones listed. */
  function Listed(tabs: seq<TabMatch.Tab>): (listed: seq<TabMatch.Tab>)
    ensures |listed| <= MaxListed && |listed| <= |tabs|
    ensures listed == tabs[..|listed|]
    ensures |listed| == if |tabs| <= MaxListed then |tabs| else MaxListed
  {
    if |tabs| <= MaxListed then tabs else tabs[..MaxListed]
  }

  /** `lines.join('\n')`, which is "" for no lines. */
  function JoinLines(lines: seq<string>): string {
    if lines == [] then "" else Join(lines, "\n")
  }

  /** The summary of `get_tabs`. */
  function TabListText(tabs: seq<TabMatch.Tab>): string {
    "Open tabs:\n" + JoinLines(TabLineSeq(Listed(tabs))) + (if |tabs| > MaxListed then "\n" + Ellipsis else "")
  }

  /** `getHumanToolFeedback`: a failure names the tool and the error; otherwise a summary per tool. */
  function Feedback(name: string, r: ToolResult): (text: string)
    ensures r.Failed? ==> text == "Tool error (" + name + "): " + r.error
    ensures r.Ok? && name == "get_tabs" ==> StartsWith(text, "Open tabs:\n")
    ensures r.Ok? && name !in {"screenshot", "get_tabs", "switch_tab", "open_tab", "click", "click_text"} ==> text == "Executed tool: " + name
  {
    match r
    case Failed(e) => "Tool error (" + name + "): " + e
    case Ok(payload) =>
      if name == "screenshot" then "Screenshot captured."
      else if name == "get_tabs" then
        TabListText(if payload.TabList? then payload.tabs else [])
      else if name == "switch_tab" then
        "Switched to: **" + (if payload.TabRef? then Shown(payload.title) else "undefined") + "**"
      else if name == "open_tab" then
        "Opened: " + (if payload.TabRef? then OrElse(payload.title, OrElse(payload.url, "")) else "")
      else if name == "click_text" || name == "click" then "Clicked element."
      else "Executed tool: " + name
  }

  /** No tab's title or address spans several lines. */
  predicate SingleLineNames(tabs: seq<TabMatch.Tab>) {
    forall k :: 0 <= k < |tabs| ==> '\n' !in TabName(tabs[k])
  }

  /**
   * The tab list reads line by line as the heading, one line per listed tab
   * (the first ten, in order), and a closing ellipsis exactly when tabs were
   * left out.
   */
  lemma TabListLines(tabs: seq<TabMatch.Tab>)
    requires tabs != [] && SingleLineNames(tabs)
    ensures Split(Feedback("get_tabs", Ok(TabList(tabs))), "\n")
      == ["Open tabs:"] + TabLineSeq(Listed(tabs)) + (if |tabs| > MaxListed then [Ellipsis] else [])
  {
    var all := ["Open tabs:"] + TabLineSeq(Listed(tabs)) + (if |tabs| > MaxListed then [Ellipsis] else []);
    TabListJoined(tabs);
    TabListSingleLines(tabs);
    SplitJoin(all, '\n');
  }

  lemma TabListJoined(tabs: seq<TabMatch.Tab>)
    requires tabs != []
    ensures TabListText(tabs) == Join(["Open tabs:"] + TabLineSeq(Listed(tabs)) + (if |tabs| > MaxListed then [Ellipsis] else []), "\n")
  {
    var lines := TabLineSeq(Listed(tabs));
    var extra: seq<string> := if |tabs| > MaxListed then [Ellipsis] else [];
    HeadJoin("Open tabs:", lines, extra);
    assert "Open tabs:" + "\n" == "Open tabs:\n";
  }

  /** A heading, lines and an optional last line, joined by line breaks. */
  lemma HeadJoin(head: string, lines: seq<string>, extra: seq<string>)
    requires lines != [] && |extra| <= 1
    ensures Join([head] + lines + extra, "\n")
      == head + "\n" + Join(lines, "\n") + (if extra == [] then "" else "\n" + extra[0])
  {
    JoinStep(head, lines + extra, "\n");
    assert [head] + lines + extra == [head] + (lines + extra);
    if extra != [] {
      JoinSnoc(lines, extra[0], "\n");
      assert lines + extra == lines + [extra[0]];
    } else {
      assert lines + extra == lines;
    }
  }

  lemma TabListSingleLines(tabs: seq<TabMatch.Tab>)
    requires SingleLineNames(tabs)
    ensures var all := ["Open tabs:"] + TabLineSeq(Listed(tabs)) + (if |tabs| > MaxListed then [Ellipsis] else []);
      forall k :: 0 <= k < |all| ==> '\n' !in all[k]
  {
    var lines := TabLineSeq(Listed(tabs));
    var all := ["Open tabs:"] + lines + (if |tabs| > MaxListed then [Ellipsis] else []);
    forall k | 0 <= k < |all|
      ensures '\n' !in all[k]
    {
      if 1 <= k <= |lines| {
        var t := Listed(tabs)[k - 1];
        assert t == tabs[k - 1];
        assert all[k] == "- " + (if t.active then "**" else "") + TabName(t) + (if t.active then "**" else "");
      }
    }
  }

  /** An empty tab list is the heading alone. */
  lemma NoTabsListed()
    ensures Feedback("get_tabs", Ok(TabList([]))) == "Open tabs:\n"
  {
  }
}
