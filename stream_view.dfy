/**
 * The side panel's handling of the worker's stream notices: the text of a
 * streamed answer grows delta by delta in one bubble (`appendStreamText`), a
 * render timer copies it into the session buffer, an abort discards both;
 * and the short label shown for an "Executing: <tool>" status.
 */
module StreamView {
  import opened Wrappers
  import opened Text
  import Tools

  // ---------------------------------------------------------------------------
  // Accumulating deltas

  /** `!text || !String(text).trim()`: a delta that holds nothing but white space. */
  predicate IsBlank(d: string) {
    Trim(d) == []
  }

  lemma BlankIsSpace(d: string)
    ensures IsBlank(d) <==> AllSpace(d)
  {
    TrimStartSpec(d);
    if AllSpace(d) {
      TrimOfSpaces(d);
    }
    if !AllSpace(d) {
      var k :| 0 <= k < |d| && !IsSpace(d[k]);
      var u := TrimStart(d);
      assert u != [];
      TrimEndSpec(u);
    }
  }

  /**
   * One delta as `appendStreamText` is written: every blank delta is
   * dropped, even in the middle of an answer.
   */
  function AppendAsWritten(streaming: bool, text: string, d: string): (bool, string) {
    if IsBlank(d) then (streaming, text) else (true, text + d)
  }

  /**
   * One delta with the evident intent of the blank test, "skip empty deltas to
   * avoid creating empty bubbles": a blank delta is dropped only while no
   * bubble exists yet.
   */
  function AppendStep(streaming: bool, text: string, d: string): (bool, string) {
    if Skips(streaming, d) then (streaming, text) else (true, text + d)
  }

  /** The corrected delta handler returns early: an empty delta, or a blank one with no bubble yet. */
  predicate Skips(streaming: bool, d: string) {
    d == [] || (!streaming && IsBlank(d))
  }

  /** The state after the deltas of one answer, from no bubble, as written. */
  function RunAsWritten(streaming: bool, text: string, ds: seq<string>): (bool, string)
    decreases |ds|
  {
    if ds == [] then (streaming, text)
    else
      var st := AppendAsWritten(streaming, text, ds[0]);
      RunAsWritten(st.0, st.1, ds[1..])
  }

  /** The state after the deltas of one answer, from no bubble. */
  function Run(streaming: bool, text: string, ds: seq<string>): (bool, string)
    decreases |ds|
  {
    if ds == [] then (streaming, text)
    else
      var st := AppendStep(streaming, text, ds[0]);
      Run(st.0, st.1, ds[1..])
  }

  /** The deltas from the first one that is not blank on. */
  function DropBlank(ds: seq<string>): (rest: seq<string>)
    ensures |rest| <= |ds| && rest == ds[|ds| - |rest|..]
    ensures rest != [] ==> !IsBlank(rest[0])
    ensures forall k :: 0 <= k < |ds| - |rest| ==> IsBlank(ds[k])
  {
    if ds == [] || !IsBlank(ds[0]) then ds
    else
      var rest := DropBlank(ds[1..]);
      assert ds[1..][|ds| - 1 - |rest|..] == ds[|ds| - |rest|..];
      rest
  }

  /** The deltas that are not blank, in order. */
  function NonBlank(ds: seq<string>): (kept: seq<string>)
    ensures |kept| <= |ds|
    ensures forall k :: 0 <= k < |kept| ==> !IsBlank(kept[k])
  {
    if ds == [] then []
    else if IsBlank(ds[0]) then NonBlank(ds[1..])
    else [ds[0]] + NonBlank(ds[1..])
  }

  /** Once a bubble exists every delta is appended. */
  lemma {:induction false} RunStreaming(text: string, ds: seq<string>)
    ensures Run(true, text, ds) == (true, text + Concat(ds))
    decreases |ds|
  {
    if ds != [] && ds[0] == [] {
      assert Concat(ds) == Concat(ds[1..]);
      RunStreaming(text, ds[1..]);
    } else if ds != [] {
      RunStreaming(text + ds[0], ds[1..]);
      assert text + ds[0] + Concat(ds[1..]) == text + (ds[0] + Concat(ds[1..]));
    } else {
      assert text + Concat(ds) == text;
    }
  }

  /** The bubble shows every delta from the first one that is not blank on. */
  lemma {:induction false} RunShowsContent(ds: seq<string>)
    ensures Run(false, [], ds) == (DropBlank(ds) != [], Concat(DropBlank(ds)))
  {
    if ds != [] {
      if IsBlank(ds[0]) {
        RunShowsContent(ds[1..]);
      } else {
        assert ds[0] != [] && [] + ds[0] == ds[0];
        RunStreaming(ds[0], ds[1..]);
      }
    }
  }

  lemma {:induction false} ConcatAllSpace(ds: seq<string>)
    requires forall k :: 0 <= k < |ds| ==> IsBlank(ds[k])
    ensures AllSpace(Concat(ds))
  {
    if ds != [] {
      BlankIsSpace(ds[0]);
      ConcatAllSpace(ds[1..]);
      var c := Concat(ds);
      assert c == ds[0] + Concat(ds[1..]);
      assert forall k :: |ds[0]| <= k < |c| ==> c[k] == Concat(ds[1..])[k - |ds[0]|];
    }
  }

  lemma {:induction false} ConcatSplit(ds: seq<string>, n: nat)
    requires n <= |ds|
    ensures Concat(ds) == Concat(ds[..n]) + Concat(ds[n..])
  {
    if n > 0 {
      ConcatSplit(ds[1..], n - 1);
      assert ds[1..][..n - 1] == ds[..n][1..];
      assert ds[1..][n - 1..] == ds[n..];
    }
  }

  /**
   * What the bubble shows is what the worker accumulated in `fullText` (every
   * delta in order), less only the white space that came before the first
   * delta with content.
   */
  lemma ShownIsWorkerText(ds: seq<string>)
    ensures var shown := Run(false, [], ds).1;
      exists lead :: AllSpace(lead) && Concat(ds) == lead + shown
  {
    RunShowsContent(ds);
    var n := |ds| - |DropBlank(ds)|;
    ConcatSplit(ds, n);
    LeadingBlanks(ds);
    var lead := Concat(ds[..n]);
    assert AllSpace(lead) && Concat(ds) == lead + Run(false, [], ds).1;
  }

  /** The blank deltas before the first one with content hold only white space. */
  lemma LeadingBlanks(ds: seq<string>)
    ensures AllSpace(Concat(ds[..|ds| - |DropBlank(ds)|]))
  {
    var n := |ds| - |DropBlank(ds)|;
    assert forall k :: 0 <= k < n ==> ds[..n][k] == ds[k];
    ConcatAllSpace(ds[..n]);
  }

  /** As written, the bubble shows exactly the deltas that are not blank. */
  lemma {:induction false} RunAsWrittenKeepsNonBlank(streaming: bool, text: string, ds: seq<string>)
    ensures RunAsWritten(streaming, text, ds).1 == text + Concat(NonBlank(ds))
    decreases |ds|
  {
    if ds != [] {
      var st := AppendAsWritten(streaming, text, ds[0]);
      RunAsWrittenKeepsNonBlank(st.0, st.1, ds[1..]);
      if !IsBlank(ds[0]) {
        assert text + ds[0] + Concat(NonBlank(ds[1..])) == text + (ds[0] + Concat(NonBlank(ds[1..])));
      }
    }
  }

  /**
   * As written, a blank delta between two others is lost: "a", "\n\n", "b"
   * show "ab", where the worker's text, and the intended bubble, is "a\n\nb".
   */
  lemma BlankDeltaDropped()
    ensures RunAsWritten(false, [], ["a", "\n\n", "b"]).1 == "ab"
    ensures Concat(["a", "\n\n", "b"]) == "a\n\nb"
    ensures Run(false, [], ["a", "\n\n", "b"]).1 == "a\n\nb"
  {
    assert IsBlank("\n\n") by {
      BlankIsSpace("\n\n");
    }
    assert !IsBlank("a") by {
      BlankIsSpace("a");
    }
    assert !IsBlank("b") by {
      BlankIsSpace("b");
    }
    var ds := ["a", "\n\n", "b"];
    assert ds[1..] == ["\n\n", "b"] && ds[1..][1..] == ["b"] && ds[1..][1..][1..] == [];
  }

  // ---------------------------------------------------------------------------
  // The panel's streaming state

  /** `streamingState`, `streamBuffer` and the pending render timer. */
  class Stream {
    /** A streaming bubble exists. */
    var streaming: bool
    /** `streamingState.text`; empty when there is no bubble. */
    var text: string
    /** `streamBuffer`, the copy kept in session storage. */
    var buffer: string
    /** A render is scheduled (`renderThrottleTimer`). */
    var pending: bool

    /** A bubble holds some content, and the buffer never holds text the bubble does not. */
    ghost predicate Valid()
      reads this
    {
      && (!streaming ==> text == [])
      && (streaming ==> !AllSpace(text))
      && buffer <= text
    }

    constructor ()
      ensures !streaming && text == [] && buffer == [] && !pending && Valid()
    {
      streaming := false;
      text := [];
      buffer := [];
      pending := false;
    }

    /**
     * `SIDE_STREAM_DELTA` as written: every blank delta returns early, so a
     * line break sent on its own in mid-answer never reaches the bubble.
     */
    method AppendStreamTextAsWritten(d: string)
      requires Valid()
      modifies this
      ensures (streaming, text) == AppendAsWritten(old(streaming), old(text), d)
      ensures buffer == old(buffer)
      ensures pending == (old(pending) || !IsBlank(d))
      ensures Valid()
    {
      if IsBlank(d) {
        return;
      }
      BlankIsSpace(d);
      var k :| 0 <= k < |d| && !IsSpace(d[k]);
      assert (text + d)[|text| + k] == d[k];
      streaming := true;
      text := text + d;
      pending := true;
    }

    /**
     * `SIDE_STREAM_DELTA` with the corrected blank check: a blank delta is
     * skipped only while there is no bubble; the rest of the model uses this
     * one.
     */
    method AppendStreamText(d: string)
      requires Valid()
      modifies this
      ensures (streaming, text) == AppendStep(old(streaming), old(text), d)
      ensures buffer == old(buffer)
      ensures pending == (old(pending) || !Skips(old(streaming), d))
      ensures Valid()
    {
      if Skips(streaming, d) {
        return;
      }
      if !streaming {
        BlankIsSpace(d);
        var k :| 0 <= k < |d| && !IsSpace(d[k]);
        assert (text + d)[|text| + k] == d[k];
        streaming := true;
      } else {
        var k :| 0 <= k < |text| && !IsSpace(text[k]);
        assert (text + d)[k] == text[k];
      }
      text := text + d;
      pending := true;
    }

    /** The render timer firing: the buffer catches up with the bubble, unless the bubble is gone. */
    method Flush()
      requires Valid()
      modifies this
      ensures !pending
      ensures streaming == old(streaming) && text == old(text)
      ensures buffer == if old(pending) && old(streaming) then old(text) else old(buffer)
      ensures Valid()
    {
      if pending {
        if streaming {
          buffer := text;
        }
        pending := false;
      }
    }

    /** `SIDE_STREAM_ABORT`: the partial bubble and the buffer are discarded. */
    method Abort()
      modifies this
      ensures !streaming && text == [] && buffer == []
      ensures pending == old(pending)
      ensures Valid()
    {
      streaming := false;
      text := [];
      buffer := [];
    }
  }

  /**
   * An abort followed by the deltas of the next answer: whatever the panel
   * showed before, the bubble ends up with every delta from the first one
   * that is not blank on, as if nothing had streamed before, and the buffer
   * stays empty until the next render.
   */
  method AbortThenAppend(s: Stream, ds: seq<string>)
    modifies s
    ensures s.streaming == (DropBlank(ds) != []) && s.text == Concat(DropBlank(ds))
    ensures s.buffer == [] && s.Valid()
  {
    s.Abort();
    var k := 0;
    while k < |ds|
      invariant k <= |ds| && s.Valid() && s.buffer == []
      invariant Run(s.streaming, s.text, ds[k..]) == Run(false, [], ds)
    {
      assert ds[k..][1..] == ds[k + 1..];
      s.AppendStreamText(ds[k]);
      k := k + 1;
    }
    RunShowsContent(ds);
  }

  // ---------------------------------------------------------------------------
  // Tool labels

  /** `TOOL_SHORT_LABELS`. */
  const ShortLabels: map<string, string> := map[
    "open_tab_and_read" := "Opening Link & Reading",
    "open_tab" := "Opening Link",
    "switch_tab" := "Switching Tab",
    "close_tab" := "Closing Tab",
    "get_tabs" := "Listing Tabs",
    "read_page" := "Reading Page",
    "click_text" := "Clicking Text",
    "click" := "Clicking Element",
    "type" := "Typing Text",
    "scroll" := "Scrolling",
    "extract_table" := "Extracting Table",
    "screenshot" := "Taking Screenshot",
    "mcp.fetch.get" := "Fetching URL",
    "mcp.fs.read" := "Reading File",
    "mcp.fs.write" := "Writing File",
    "mcp.rag.query" := "Searching Notes"
  ]

  const ExecutingLength: nat := 10

  /** `/^Executing:\s+/i`: the status opens a running step. */
  predicate IsExecuting(text: string) {
    |text| > ExecutingLength && Lower(text[..ExecutingLength]) == "executing:" && IsSpace(text[ExecutingLength])
  }

  /**
   * The group of `/^Executing:\s+(.+)$/i` for an executing status: `\s+`
   * takes the whole run of white space, or gives its last character back
   * when nothing follows it; `.+` must then reach the end of the text.
   */
  function Captured(text: string): (g: Option<string>)
    requires IsExecuting(text)
    ensures g.Some? ==> |g.value| >= 1
  {
    var j := SpacesFrom(text, ExecutingLength);
    if j < |text| then
      if NoBreak(text[j..]) then Some(text[j..]) else None
    else if |text| > ExecutingLength + 1 && !IsLineTerminator(text[|text| - 1]) then Some([text[|text| - 1]])
    else None
  }

  /** `TOOL_SHORT_LABELS[toolName] || toolName`. */
  function Label(name: string): string {
    if name in ShortLabels && ShortLabels[name] != [] then ShortLabels[name] else name
  }

  /** The header of the running step an executing status opens; None when the status opens none. */
  function StepLabel(text: string): Option<string> {
    if !IsExecuting(text) then None
    else
      var toolName := match Captured(text) case Some(g) => Trim(g) case None => [];
      Some(Label(toolName))
  }

  /** Characters of the registry's tool names. */
  predicate NameChar(c: char) {
    ('a' <= c <= 'z') || c == '_' || c == '.'
  }

  /** A plain tool name: not empty, made of lower-case letters, `_` and `.`. */
  predicate PlainName(name: string) {
    |name| >= 1 && forall k :: 0 <= k < |name| ==> NameChar(name[k])
  }

  /** The status the worker sends before running a tool names the tool. */
  lemma {:induction false} ExecutingNamesTool(name: string)
    requires PlainName(name)
    ensures StepLabel("Executing: " + name) == Some(Label(name))
  {
    var text := "Executing: " + name;
    assert text[..ExecutingLength] == "Executing:";
    assert Lower("Executing:") == "executing:";
    assert text[ExecutingLength] == ' ';
    assert text[ExecutingLength + 1] == name[0];
    assert SpacesFrom(text, ExecutingLength + 1) == ExecutingLength + 1;
    assert text[ExecutingLength + 1..] == name;
    assert Captured(text) == Some(name);
    TrimNoop(name);
  }

  /** Every tool of the registry gets its short label. */
  lemma RegistryLabels(t: Tools.Tool)
    ensures Tools.NameOf(t) in ShortLabels
    ensures StepLabel("Executing: " + Tools.NameOf(t)) == Some(ShortLabels[Tools.NameOf(t)])
  {
    RegistryNamesPlain(t);
    RegistryNamesLabelled(t);
    ExecutingNamesTool(Tools.NameOf(t));
  }

  lemma RegistryNamesPlain(t: Tools.Tool)
    ensures PlainName(Tools.NameOf(t))
  {
    if t.ReadPage? || t.Click? || t.ClickText? || t.TypeText? || t.Scroll? {
      PagePlain(t);
    } else if t.ExtractTable? || t.OpenTab? || t.SwitchTab? || t.CloseTab? || t.GetTabs? {
      TabsPlain(t);
    } else {
      OthersPlain(t);
    }
  }

  lemma PagePlain(t: Tools.Tool)
    requires t.ReadPage? || t.Click? || t.ClickText? || t.TypeText? || t.Scroll?
    ensures PlainName(Tools.NameOf(t))
  {
  }

  lemma TabsPlain(t: Tools.Tool)
    requires t.ExtractTable? || t.OpenTab? || t.SwitchTab? || t.CloseTab? || t.GetTabs?
    ensures PlainName(Tools.NameOf(t))
  {
  }

  lemma OthersPlain(t: Tools.Tool)
    requires t.Screenshot? || t.FetchGet? || t.FsRead? || t.FsWrite? || t.RagQuery?
    ensures PlainName(Tools.NameOf(t))
  {
  }

  lemma RegistryNamesLabelled(t: Tools.Tool)
    ensures Tools.NameOf(t) in ShortLabels && ShortLabels[Tools.NameOf(t)] != []
  {
  }

  /** A tool without a short label is shown by its own name. */
  lemma UnlabelledShowsName(name: string)
    requires PlainName(name) && name !in ShortLabels
    ensures StepLabel("Executing: " + name) == Some(name)
  {
    ExecutingNamesTool(name);
  }

  /** The gate ignores case: "EXECUTING:" opens a step just as "Executing:" does. */
  lemma GateIgnoresCase(text: string)
    ensures IsExecuting(text) <==> IsExecuting(Lower(text))
  {
    if |text| > ExecutingLength {
      assert Lower(text)[..ExecutingLength] == Lower(text[..ExecutingLength]);
      LowerIdempotent(text[..ExecutingLength]);
    }
  }
}
