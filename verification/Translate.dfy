/** The event translator: Claude events projected one by one into chat chunks, and its buffered
    counterpart. Events are as the line parser builds them. How a tool result or a tool input is
    worded is left opaque: the event carries the rendered strings. */
module Translate {
  import opened Wrappers

  datatype Verbosity = TextOnly | Verbose | Narrated

  datatype Usage = Usage(prompt: int, completion: int, total: int)

  datatype Content =
    | Text(text: string)
    | ToolUse(id: string, name: string, input: string, summary: string)
    | Thinking(text: string)
    | OtherContent

  datatype UserContent =
    | ToolResult(isError: bool, body: string, head: string)
    | OtherUserContent

  /** The inner type of a stream event, and of its delta: only two of them matter. */
  datatype StreamKind = ContentBlockDelta | OtherStreamKind
  datatype DeltaKind = TextDelta | OtherDeltaKind

  /** `usage` of a result is `None` when absent or undecodable, otherwise the two counts. */
  datatype Event =
    | StreamEvent(kind: StreamKind, delta: DeltaKind, text: string)
    | Assistant(content: seq<Content>)
    | User(items: seq<UserContent>)
    | Result(stopReason: string, result: string, usage: Option<(int, int)>)
    | StreamError(message: string)
    | OtherEvent

  datatype Chunk = Chunk(role: string, content: string, toolCalls: seq<string>,
                         finish: Option<string>, usage: Option<Usage>)

  datatype Response = Response(text: string, finish: string, usage: Option<Usage>)

  function MapStopReason(r: string): string {
    match r
    case "max_tokens" => "length"
    case "tool_use" => "tool_calls"
    case _ => "stop"
  }

  function MapUsage(u: Option<(int, int)>): Option<Usage> {
    match u
    case Some((i, o)) => Option.Some(Usage(i, o, i + o))
    case None => Option.None
  }

  /** The mutable part of a translator. */
  datatype State = State(roleEmitted: bool, toolCallIndex: nat, toolCallByID: map<string, nat>, partialTextSeen: bool)

  const START := State(false, 0, map[], false)

  // ---- what one event becomes ----

  function Delta(st: State, content: string): (State, seq<Chunk>) {
    (st.(roleEmitted := true),
     [Chunk(if st.roleEmitted then "" else "assistant", content, [], Option.None, Option.None)])
  }

  function Terminal(finish: string, usage: Option<Usage>): seq<Chunk> {
    [Chunk("", "", [], Some(finish), usage)]
  }

  /** The text an event streams incrementally. */
  function DeltaText(ev: Event): string {
    if ev.StreamEvent? && ev.kind.ContentBlockDelta? && ev.delta.TextDelta? then ev.text else ""
  }

  function ContentText(cs: seq<Content>): string {
    if cs == [] then ""
    else ContentText(cs[..|cs| - 1]) + if cs[|cs| - 1].Text? then cs[|cs| - 1].text else ""
  }

  /** One content item of an assistant message in the two modes that walk them. */
  function Item(st: State, v: Verbosity, c: Content): (State, seq<Chunk>) {
    match c
    case Text(text) => if text == "" || st.partialTextSeen then (st, []) else Delta(st, text)
    case ToolUse(id, name, input, summary) =>
      if v.Verbose? then
        Delta(st.(toolCallByID := st.toolCallByID[id := st.toolCallIndex], toolCallIndex := st.toolCallIndex + 1),
              "\n\n**\U{1F527} " + name + "**\n```json\n" + (if input == "" then "{}" else input) + "\n```\n")
      else Delta(st, "\n\U{1F527} " + name + "(" + summary + ")\n")
    case Thinking(text) =>
      if v.Verbose? && text != "" then Delta(st, "\n[thinking] " + text + "\n") else (st, [])
    case OtherContent => (st, [])
  }

  function Items(st: State, v: Verbosity, cs: seq<Content>): (State, seq<Chunk>) {
    if cs == [] then (st, [])
    else
      var (st1, out1) := Items(st, v, cs[..|cs| - 1]);
      var (st2, out2) := Item(st1, v, cs[|cs| - 1]);
      (st2, out1 + out2)
  }

  function UserItem(st: State, v: Verbosity, c: UserContent): (State, seq<Chunk>) {
    match c
    case ToolResult(isError, body, head) =>
      if v.Verbose? then
        Delta(st, "\n**" + (if isError then "\U{26A0} error" else "\U{21AA} result") + "**\n````\n" + body + "\n````\n")
      else Delta(st, "   " + (if isError then "\U{2717}" else "\U{21B3}") + " " + head + "\n")
    case OtherUserContent => (st, [])
  }

  function UserItems(st: State, v: Verbosity, cs: seq<UserContent>): (State, seq<Chunk>) {
    if cs == [] then (st, [])
    else
      var (st1, out1) := UserItems(st, v, cs[..|cs| - 1]);
      var (st2, out2) := UserItem(st1, v, cs[|cs| - 1]);
      (st2, out1 + out2)
  }

  function ResultFinish(st: State, v: Verbosity, stopReason: string): string {
    var finish := MapStopReason(stopReason);
    if v.Verbose? && st.toolCallIndex > 0 && finish == "stop" then "tool_calls" else finish
  }

  function Project(st: State, v: Verbosity, ev: Event): (State, seq<Chunk>) {
    match ev
    case StreamEvent(_, _, _) =>
      if DeltaText(ev) == "" then (st, []) else Delta(st.(partialTextSeen := true), DeltaText(ev))
    case Assistant(content) =>
      if !v.TextOnly? then Items(st, v, content)
      else if st.partialTextSeen || ContentText(content) == "" then (st, [])
      else Delta(st, ContentText(content))
    case User(items) => if v.TextOnly? then (st, []) else UserItems(st, v, items)
    case Result(stop, _, usage) => (st, Terminal(ResultFinish(st, v, stop), MapUsage(usage)))
    case StreamError(_) => (st, Terminal("error", Option.None))
    case OtherEvent => (st, [])
  }

  /** The loop over text items that both forms of the response share. */
  method CollectText(content: seq<Content>) returns (text: string)
    ensures text == ContentText(content)
  {
    text := "";
    for i := 0 to |content|
      invariant text == ContentText(content[..i])
    {
      assert content[..i + 1][..i] == content[..i];
      if content[i].Text? {
        text := text + content[i].text;
      }
    }
    assert content[..|content|] == content;
  }

  class Translator {
    const verbosity: Verbosity
    var roleEmitted: bool
    var toolCallIndex: nat
    var toolCallByID: map<string, nat>
    var partialTextSeen: bool

    constructor (v: Verbosity)
      ensures View() == START && verbosity == v
    {
      verbosity := v;
      roleEmitted, toolCallIndex, toolCallByID, partialTextSeen := false, 0, map[], false;
    }

    function View(): State
      reads this
    {
      State(roleEmitted, toolCallIndex, toolCallByID, partialTextSeen)
    }

    method EmitDelta(content: string) returns (c: Chunk)
      modifies this
      ensures (View(), [c]) == Delta(old(View()), content)
    {
      var role := "";
      if !roleEmitted {
        role := "assistant";
        roleEmitted := true;
      }
      c := Chunk(role, content, [], Option.None, Option.None);
    }

    method EventToChunks(ev: Event) returns (out: seq<Chunk>)
      modifies this
      ensures (View(), out) == Project(old(View()), verbosity, ev)
    {
      out := [];
      match ev {
        case StreamEvent(kind, delta, text) =>
          if !kind.ContentBlockDelta? { return; }
          if !delta.TextDelta? || text == "" { return; }
          partialTextSeen := true;
          var c := EmitDelta(text);
          out := [c];
        case Assistant(content) =>
          if verbosity.TextOnly? {
            out := AssistantText(content);
          } else {
            out := AssistantItems(content);
          }
        case User(items) =>
          if !verbosity.TextOnly? {
            out := UserResults(items);
          }
        case Result(stop, _, usage) =>
          var finish := MapStopReason(stop);
          if verbosity.Verbose? && toolCallIndex > 0 && finish == "stop" {
            finish := "tool_calls";
          }
          out := Terminal(finish, MapUsage(usage));
        case StreamError(message) =>
          out := Terminal("error", Option.None);
        case OtherEvent =>
      }
    }

    method AssistantText(content: seq<Content>) returns (out: seq<Chunk>)
      requires verbosity.TextOnly?
      modifies this
      ensures (View(), out) == Project(old(View()), TextOnly, Assistant(content))
    {
      if partialTextSeen { return []; }
      var text := CollectText(content);
      if text == "" { return []; }
      var c := EmitDelta(text);
      out := [c];
    }

    method AssistantItems(content: seq<Content>) returns (out: seq<Chunk>)
      modifies this
      ensures (View(), out) == Items(old(View()), verbosity, content)
    {
      out := [];
      for i := 0 to |content|
        invariant (View(), out) == Items(old(View()), verbosity, content[..i])
      {
        assert content[..i + 1][..i] == content[..i];
        assert out + [] == out;
        match content[i] {
          case Text(text) =>
            if text == "" || partialTextSeen { continue; }
            var c := EmitDelta(text);
            out := out + [c];
          case ToolUse(id, name, input, summary) =>
            var line;
            if verbosity.Verbose? {
              toolCallByID := toolCallByID[id := toolCallIndex];
              toolCallIndex := toolCallIndex + 1;
              var args := input;
              if args == "" { args := "{}"; }
              line := "\n\n**\U{1F527} " + name + "**\n```json\n" + args + "\n```\n";
            } else {
              line := "\n\U{1F527} " + name + "(" + summary + ")\n";
            }
            var c := EmitDelta(line);
            out := out + [c];
          case Thinking(text) =>
            if !verbosity.Verbose? || text == "" { continue; }
            var c := EmitDelta("\n[thinking] " + text + "\n");
            out := out + [c];
          case OtherContent =>
        }
      }
      assert content[..|content|] == content;
    }

    method UserResults(items: seq<UserContent>) returns (out: seq<Chunk>)
      modifies this
      ensures (View(), out) == UserItems(old(View()), verbosity, items)
    {
      out := [];
      for i := 0 to |items|
        invariant (View(), out) == UserItems(old(View()), verbosity, items[..i])
      {
        assert items[..i + 1][..i] == items[..i];
        assert out + [] == out;
        if !items[i].ToolResult? { continue; }
        var line;
        if verbosity.Verbose? {
          var header := "\U{21AA} result";
          if items[i].isError { header := "\U{26A0} error"; }
          line := "\n**" + header + "**\n````\n" + items[i].body + "\n````\n";
        } else {
          var marker := "\U{21B3}";
          if items[i].isError { marker := "\U{2717}"; }
          line := "   " + marker + " " + items[i].head + "\n";
        }
        var c := EmitDelta(line);
        out := out + [c];
      }
      assert items[..|items|] == items;
    }
  }

  // ---- whole streams ----

  /** The chunks of each event of a stream, in order. */
  function Stream(v: Verbosity, evs: seq<Event>): (State, seq<seq<Chunk>>) {
    if evs == [] then (START, [])
    else
      var (st, outs) := Stream(v, evs[..|evs| - 1]);
      var (st', out) := Project(st, v, evs[|evs| - 1]);
      (st', outs + [out])
  }

  function Flatten(outs: seq<seq<Chunk>>): seq<Chunk> {
    if outs == [] then [] else Flatten(outs[..|outs| - 1]) + outs[|outs| - 1]
  }

  function Chunks(v: Verbosity, evs: seq<Event>): seq<Chunk> { Flatten(Stream(v, evs).1) }

  function Terminates(ev: Event): bool { ev.Result? || ev.StreamError? }

  /** A content delta: what events other than the terminating ones emit. */
  predicate IsDelta(c: Chunk) { c.content != "" && c.finish.None? && c.usage.None? && c.toolCalls == [] }

  /** Deltas in a row, the very first of the stream carrying the role. */
  predicate DeltaRow(out: seq<Chunk>, seen: bool) {
    forall i | 0 <= i < |out| :: IsDelta(out[i]) && out[i].role == (if i == 0 && !seen then "assistant" else "")
  }

  lemma {:induction false} ItemsRow(st: State, v: Verbosity, cs: seq<Content>)
    ensures var (st', out) := Items(st, v, cs);
      DeltaRow(out, st.roleEmitted) && st'.roleEmitted == (st.roleEmitted || out != [])
  {
    if cs != [] {
      var n := |cs| - 1;
      ItemsRow(st, v, cs[..n]);
      var (st1, out1) := Items(st, v, cs[..n]);
      DeltaRowAppend(out1, Item(st1, v, cs[n]).1, st.roleEmitted);
    }
  }

  lemma DeltaRowAppend(a: seq<Chunk>, b: seq<Chunk>, seen: bool)
    requires DeltaRow(a, seen) && DeltaRow(b, seen || a != [])
    ensures DeltaRow(a + b, seen)
  {
  }

  lemma {:induction false} UserItemsRow(st: State, v: Verbosity, cs: seq<UserContent>)
    ensures var (st', out) := UserItems(st, v, cs);
      DeltaRow(out, st.roleEmitted) && st'.roleEmitted == (st.roleEmitted || out != [])
  {
    if cs != [] {
      var n := |cs| - 1;
      UserItemsRow(st, v, cs[..n]);
      var (st1, out1) := UserItems(st, v, cs[..n]);
      DeltaRowAppend(out1, UserItem(st1, v, cs[n]).1, st.roleEmitted);
    }
  }

  /** The shape of one event's chunks. */
  lemma ProjectShape(st: State, v: Verbosity, ev: Event)
    ensures var (st', out) := Project(st, v, ev);
      if Terminates(ev) then
        && st' == st && |out| == 1
        && out[0].content == "" && out[0].role == "" && out[0].finish.Some? && out[0].toolCalls == []
        && (out[0].usage.Some? ==> ev.Result?)
      else DeltaRow(out, st.roleEmitted) && st'.roleEmitted == (st.roleEmitted || out != [])
  {
    match ev {
      case Assistant(content) => ItemsRow(st, v, content);
      case User(items) => UserItemsRow(st, v, items);
      case _ =>
    }
  }

  predicate FirstContent(cs: seq<Chunk>, i: nat)
    requires i < |cs|
  {
    cs[i].content != "" && forall j | 0 <= j < i :: cs[j].content == ""
  }

  predicate HasContent(cs: seq<Chunk>) { exists c <- cs :: c.content != "" }

  ghost predicate RoleSound(cs: seq<Chunk>) {
    forall i | 0 <= i < |cs| ::
      cs[i].role == (if FirstContent(cs, i) then "assistant" else "") && cs[i].toolCalls == []
  }

  lemma AppendKeepsRole(cs: seq<Chunk>, out: seq<Chunk>)
    requires RoleSound(cs)
    requires || DeltaRow(out, HasContent(cs))
             || (|out| == 1 && out[0].content == "" && out[0].role == "" && out[0].toolCalls == [])
    ensures RoleSound(cs + out)
    ensures HasContent(cs + out) == (HasContent(cs) || (out != [] && out[0].content != ""))
  {
    var all := cs + out;
    assert HasContent(cs) ==> HasContent(all) by {
      if HasContent(cs) {
        var c :| c in cs && c.content != "";
        assert c in all;
      }
    }
    if out != [] { assert out[0] in all; }
    assert forall j | 0 <= j < |cs| :: all[j] == cs[j];
    forall i | 0 <= i < |all|
      ensures all[i].role == (if FirstContent(all, i) then "assistant" else "") && all[i].toolCalls == []
    {
      if i < |cs| {
        assert FirstContent(all, i) == FirstContent(cs, i);
      } else {
        assert all[i] == out[i - |cs|];
        if HasContent(cs) {
          var c :| c in cs && c.content != "";
          var j :| 0 <= j < |cs| && cs[j] == c;
          assert all[j].content != "";
        } else {
          assert forall j | 0 <= j < |cs| :: cs[j] in cs && all[j].content == "";
          if i > |cs| { assert all[|cs|] == out[0]; }
        }
      }
    }
  }

  lemma {:induction false} ChunksRole(v: Verbosity, evs: seq<Event>)
    ensures RoleSound(Chunks(v, evs)) && HasContent(Chunks(v, evs)) == Stream(v, evs).0.roleEmitted
  {
    if evs != [] {
      var n := |evs| - 1;
      ChunksRole(v, evs[..n]);
      var (st, outs) := Stream(v, evs[..n]);
      var out := Project(st, v, evs[n]).1;
      ProjectShape(st, v, evs[n]);
      AppendKeepsRole(Flatten(outs), out);
      assert (outs + [out])[..|outs|] == outs;
    }
  }

  /** An event's own chunks: exactly one, with a finish reason, for a result or stream error. */
  predicate FinishSound(ev: Event, out: seq<Chunk>) {
    && (Terminates(ev) ==> |out| == 1)
    && (forall c <- out :: (c.finish.Some? <==> Terminates(ev)) && (c.usage.Some? ==> ev.Result?))
  }

  lemma {:induction false} ChunksFinish(v: Verbosity, evs: seq<Event>)
    ensures |Stream(v, evs).1| == |evs|
    ensures forall i | 0 <= i < |evs| :: FinishSound(evs[i], Stream(v, evs).1[i])
  {
    if evs != [] {
      var n := |evs| - 1;
      ChunksFinish(v, evs[..n]);
      ProjectShape(Stream(v, evs[..n]).0, v, evs[n]);
    }
  }

  /** For every event sequence and every verbosity: the assistant role is on exactly the first
      chunk that carries content; each result or stream-error event gives one chunk, and these are
      the only ones with a finish reason; usage is on result chunks only; no chunk has tool calls. */
  lemma StreamShape(v: Verbosity, evs: seq<Event>)
    ensures RoleSound(Chunks(v, evs))
    ensures |Stream(v, evs).1| == |evs| && forall i | 0 <= i < |evs| :: FinishSound(evs[i], Stream(v, evs).1[i])
  {
    ChunksRole(v, evs);
    ChunksFinish(v, evs);
  }

  // ---- what the chunks say ----

  /** The finish reason of a result, for the stop reasons Claude reports. */
  lemma FinishReasons(st: State, v: Verbosity, stop: string, text: string, usage: Option<(int, int)>)
    ensures var (st', out) := Project(st, v, Result(stop, text, usage));
      && st' == st && |out| == 1
      && out[0].finish == Some(
           if stop == "max_tokens" then "length"
           else if stop == "tool_use" || (v == Verbose && st.toolCallIndex > 0) then "tool_calls"
           else "stop")
      && out[0].usage == (match usage
           case Some((prompt, completion)) => Some(Usage(prompt, completion, prompt + completion))
           case None => Option.None)
    ensures forall message :: Project(st, v, StreamError(message)).1 == [Chunk("", "", [], Some("error"), Option.None)]
  {
  }

  predicate UsesTool(ev: Event) { ev.Assistant? && exists c <- ev.content :: c.ToolUse? }

  lemma {:induction false} ItemsCountTools(st: State, cs: seq<Content>)
    ensures Items(st, Verbose, cs).0.toolCallIndex >= st.toolCallIndex
    ensures Items(st, Verbose, cs).0.toolCallIndex == st.toolCallIndex <==> forall c <- cs :: !c.ToolUse?
  {
    if cs != [] {
      var n := |cs| - 1;
      ItemsCountTools(st, cs[..n]);
      assert forall c <- cs :: c in cs[..n] || c == cs[n];
      assert cs[n] in cs && forall c <- cs[..n] :: c in cs;
    }
  }

  lemma {:induction false} UserItemsUseNoTool(st: State, v: Verbosity, cs: seq<UserContent>)
    ensures UserItems(st, v, cs).0.toolCallIndex == st.toolCallIndex
  {
    if cs != [] { UserItemsUseNoTool(st, v, cs[..|cs| - 1]); }
  }

  lemma {:induction false} ToolsAreCounted(evs: seq<Event>)
    ensures Stream(Verbose, evs).0.toolCallIndex > 0 <==> exists ev <- evs :: UsesTool(ev)
  {
    if evs != [] {
      var n := |evs| - 1;
      ToolsAreCounted(evs[..n]);
      var st := Stream(Verbose, evs[..n]).0;
      assert evs[n] in evs && forall ev <- evs :: ev in evs[..n] || ev == evs[n];
      assert forall ev <- evs[..n] :: ev in evs;
      match evs[n] {
        case Assistant(content) => ItemsCountTools(st, content);
        case User(items) => UserItemsUseNoTool(st, Verbose, items);
        case _ =>
      }
    }
  }

  /** In a verbose stream a result ends with "tool_calls" if it says so itself, or if any message before
      it used a tool and it gives no other reason than to have stopped. */
  lemma VerboseFinish(evs: seq<Event>, stop: string, text: string, usage: Option<(int, int)>)
    ensures var out := Project(Stream(Verbose, evs).0, Verbose, Result(stop, text, usage)).1;
      |out| == 1 && out[0].finish == Some(
        if stop == "max_tokens" then "length"
        else if stop == "tool_use" || exists ev <- evs :: UsesTool(ev) then "tool_calls"
        else "stop")
  {
    ToolsAreCounted(evs);
    FinishReasons(Stream(Verbose, evs).0, Verbose, stop, text, usage);
  }

  /** Streamed text is a text delta inside a content-block delta, and nothing else. */
  lemma OnlyTextDeltasStream(kind: StreamKind, delta: DeltaKind, text: string, ev: Event)
    ensures DeltaText(StreamEvent(kind, delta, text)) ==
      if kind == ContentBlockDelta && delta == TextDelta then text else ""
    ensures !ev.StreamEvent? ==> DeltaText(ev) == ""
  {
  }

  lemma {:induction false} ContentTextAppend(a: seq<Content>, b: seq<Content>)
    ensures ContentText(a + b) == ContentText(a) + ContentText(b)
  {
    if b == [] {
      assert a + b == a;
    } else {
      assert (a + b)[..|a + b| - 1] == a + b[..|b| - 1];
      ContentTextAppend(a, b[..|b| - 1]);
      StringAssoc(ContentText(a), ContentText(b[..|b| - 1]), if b[|b| - 1].Text? then b[|b| - 1].text else "");
    }
  }

  /** A message's text is that of its text items in order, whatever stands between them. */
  lemma TextItemsInOrder(before: seq<Content>, c: Content, after: seq<Content>)
    ensures ContentText(before + [c] + after) ==
      ContentText(before) + (match c case Text(t) => t case _ => "") + ContentText(after)
    ensures ContentText([]) == ""
  {
    ContentTextAppend(before + [c], after);
    assert (before + [c])[..|before|] == before;
  }

  /** How the items of a message read in the two modes that walk them: tools with their arguments in
      full, or their name and summary; thinking in full, or not at all; text unless it was streamed. */
  lemma ItemsRead(st: State, name: string, input: string, summary: string, id: string, text: string)
    ensures Contents(Item(st, Verbose, ToolUse(id, name, input, summary)).1) ==
      "\n\n**\U{1F527} " + name + "**\n```json\n" + (if input == "" then "{}" else input) + "\n```\n"
    ensures Contents(Item(st, Narrated, ToolUse(id, name, input, summary)).1) ==
      "\n\U{1F527} " + name + "(" + summary + ")\n"
    ensures Contents(Item(st, Verbose, Thinking(text)).1) == if text == "" then "" else "\n[thinking] " + text + "\n"
    ensures Contents(Item(st, Narrated, Thinking(text)).1) == ""
    ensures forall v :: Contents(Item(st, v, Text(text)).1) == if st.partialTextSeen then "" else text
  {
    OneContent(Item(st, Verbose, ToolUse(id, name, input, summary)).1);
    OneContent(Item(st, Narrated, ToolUse(id, name, input, summary)).1);
    OneContent(Item(st, Verbose, Thinking(text)).1);
    forall v
      ensures Contents(Item(st, v, Text(text)).1) == if st.partialTextSeen then "" else text
    {
      OneContent(Item(st, v, Text(text)).1);
    }
  }

  /** How tool results read, and their errors. */
  lemma ResultsRead(st: State, isError: bool, body: string, head: string)
    ensures Contents(UserItem(st, Verbose, ToolResult(isError, body, head)).1) ==
      "\n**" + (if isError then "\U{26A0} error" else "\U{21AA} result") + "**\n````\n" + body + "\n````\n"
    ensures Contents(UserItem(st, Narrated, ToolResult(isError, body, head)).1) ==
      "   " + (if isError then "\U{2717}" else "\U{21B3}") + " " + head + "\n"
  {
    OneContent(UserItem(st, Verbose, ToolResult(isError, body, head)).1);
    OneContent(UserItem(st, Narrated, ToolResult(isError, body, head)).1);
  }

  lemma {:induction false} ItemsKeepSeen(st: State, v: Verbosity, cs: seq<Content>)
    ensures Items(st, v, cs).0.partialTextSeen == st.partialTextSeen
  {
    if cs != [] { ItemsKeepSeen(st, v, cs[..|cs| - 1]); }
  }

  /** In verbose and narrated mode a message reads as its items do, one after the other. */
  lemma MessageReadsInOrder(st: State, v: Verbosity, a: seq<Content>, c: Content)
    requires v != TextOnly
    ensures Contents(Project(st, v, Assistant(a + [c])).1)
         == Contents(Project(st, v, Assistant(a)).1) + Contents(Item(st, v, c).1)
    ensures Project(st, v, Assistant([])).1 == []
  {
    assert (a + [c])[..|a|] == a;
    ItemsKeepSeen(st, v, a);
    var st1 := Items(st, v, a).0;
    ContentsAppend(Items(st, v, a).1, Item(st1, v, c).1);
    OneContent(Item(st1, v, c).1);
    OneContent(Item(st, v, c).1);
  }

  /** So do the tool results of a user event, which text-only mode leaves out. */
  lemma ResultsReadInOrder(st: State, v: Verbosity, a: seq<UserContent>, c: UserContent)
    ensures v != TextOnly ==>
      Contents(Project(st, v, User(a + [c])).1) == Contents(Project(st, v, User(a)).1) + Contents(UserItem(st, v, c).1)
    ensures Project(st, v, User([])).1 == [] && Project(st, TextOnly, User(a)).1 == []
    ensures UserItem(st, v, OtherUserContent).1 == []
  {
    assert (a + [c])[..|a|] == a;
    var st1 := UserItems(st, v, a).0;
    ContentsAppend(UserItems(st, v, a).1, UserItem(st1, v, c).1);
    OneContent(UserItem(st1, v, c).1);
    OneContent(UserItem(st, v, c).1);
  }

  lemma OneContent(cs: seq<Chunk>)
    ensures |cs| == 1 ==> Contents(cs) == cs[0].content
    ensures cs == [] ==> Contents(cs) == ""
  {
    if |cs| == 1 {
      assert cs[..0] == [] && "" + cs[0].content == cs[0].content;
    }
  }

  // ---- the buffered response ----

  /** The text of an assistant message; other events have none. */
  function MessageText(ev: Event): string { if ev.Assistant? then ContentText(ev.content) else "" }

  function Texts(evs: seq<Event>): string {
    if evs == [] then "" else Texts(evs[..|evs| - 1]) + MessageText(evs[|evs| - 1])
  }

  function Deltas(evs: seq<Event>): string {
    if evs == [] then "" else Deltas(evs[..|evs| - 1]) + DeltaText(evs[|evs| - 1])
  }

  function LastResult(evs: seq<Event>): Option<Event> {
    if evs == [] then Option.None
    else if evs[|evs| - 1].Result? then Some(evs[|evs| - 1])
    else LastResult(evs[..|evs| - 1])
  }

  function FirstError(evs: seq<Event>): string {
    if evs == [] then ""
    else
      var before := FirstError(evs[..|evs| - 1]);
      if before == "" && evs[|evs| - 1].StreamError? then evs[|evs| - 1].message else before
  }

  function Buffered(evs: seq<Event>): Response {
    var (text, result, err) := (Texts(evs), LastResult(evs), FirstError(evs));
    if result.Some? && result.value.Result? then
      Response(if err == "" && text == "" then result.value.result else text,
               if err != "" then "error" else MapStopReason(result.value.stopReason),
               MapUsage(result.value.usage))
    else Response(text, if err != "" then "error" else "stop", Option.None)
  }

  method NonStreamingResponse(evs: seq<Event>) returns (r: Response)
    ensures r == Buffered(evs)
  {
    var text, errMsg := "", "";
    var result: Option<Event> := Option.None;
    for i := 0 to |evs|
      invariant text == Texts(evs[..i]) && result == LastResult(evs[..i]) && errMsg == FirstError(evs[..i])
      invariant result.Some? ==> result.value.Result?
    {
      assert evs[..i + 1][..i] == evs[..i];
      match evs[i] {
        case Assistant(content) =>
          var part := CollectText(content);
          text := text + part;
        case Result(_, _, _) => result := Some(evs[i]);
        case StreamError(message) => if errMsg == "" { errMsg := message; }
        case _ =>
      }
    }
    assert evs[..|evs|] == evs;
    var finish := "stop";
    if errMsg != "" {
      finish := "error";
    } else if result.Some? {
      finish := MapStopReason(result.value.stopReason);
      if text == "" { text := result.value.result; }
    }
    r := Response(text, finish, if result.Some? then MapUsage(result.value.usage) else Option.None);
  }

  lemma ResultAndErrorStep(evs: seq<Event>, ev: Event)
    ensures LastResult(evs + [ev]) == if ev.Result? then Some(ev) else LastResult(evs)
    ensures FirstError(evs + [ev]) == if FirstError(evs) == "" && ev.StreamError? then ev.message else FirstError(evs)
  {
    assert (evs + [ev])[..|evs|] == evs;
  }

  /** A stream that ends with a result and has no error message before: its finish reason, its usage,
      and its text, or the result's own if no message has any. */
  lemma BufferedEndsWithResult(evs: seq<Event>, stop: string, text: string, usage: Option<(int, int)>)
    requires FirstError(evs) == ""
    ensures Buffered(evs + [Result(stop, text, usage)]) == Response(
      if Texts(evs) == "" then text else Texts(evs),
      if stop == "max_tokens" then "length" else if stop == "tool_use" then "tool_calls" else "stop",
      match usage
      case Some((prompt, completion)) => Some(Usage(prompt, completion, prompt + completion))
      case None => Option.None)
  {
    ResultAndErrorStep(evs, Result(stop, text, usage));
    TextsStep(evs, Result(stop, text, usage));
    assert Texts(evs) + "" == Texts(evs);
  }

  /** Without a result the finish reason is a stop with no usage, and from the first error message on
      it is an error, the text staying that of the messages. */
  lemma BufferedOtherwise(evs: seq<Event>)
    ensures FirstError(evs) == "" && LastResult(evs).None? ==>
      Buffered(evs) == Response(Texts(evs), "stop", Option.None)
    ensures FirstError(evs) != "" ==> Buffered(evs).finish == "error" && Buffered(evs).text == Texts(evs)
    ensures forall i | 0 <= i < |evs| && evs[i].StreamError? && evs[i].message != "" :: FirstError(evs) != ""
  {
    ErrorIsSeen(evs);
  }

  lemma {:induction false} ErrorIsSeen(evs: seq<Event>)
    ensures forall i | 0 <= i < |evs| && evs[i].StreamError? && evs[i].message != "" :: FirstError(evs) != ""
  {
    if evs != [] {
      var n := |evs| - 1;
      ErrorIsSeen(evs[..n]);
      assert evs[..n] + [evs[n]] == evs;
      ResultAndErrorStep(evs[..n], evs[n]);
    }
  }

  // ---- streamed and buffered text ----

  function Contents(cs: seq<Chunk>): string {
    if cs == [] then "" else Contents(cs[..|cs| - 1]) + cs[|cs| - 1].content
  }

  /** The text a text-only stream has sent, event by event. */
  function StreamedText(evs: seq<Event>): string {
    if evs == [] then ""
    else
      var n := |evs| - 1;
      StreamedText(evs[..n]) + Contents(Project(Stream(TextOnly, evs[..n]).0, TextOnly, evs[n]).1)
  }

  /** A stream cut in two just before its first text delta. */
  function Cut(evs: seq<Event>): (r: (seq<Event>, seq<Event>))
    ensures r.0 + r.1 == evs
  {
    if evs == [] then ([], [])
    else
      var ev := evs[|evs| - 1];
      var (before, after) := Cut(evs[..|evs| - 1]);
      if after != [] || DeltaText(ev) != "" then (before, after + [ev]) else (before + [ev], [])
  }

  lemma StringAssoc(a: string, b: string, c: string)
    ensures (a + b) + c == a + (b + c)
  {
  }

  lemma {:induction false} ContentsAppend(a: seq<Chunk>, b: seq<Chunk>)
    ensures Contents(a + b) == Contents(a) + Contents(b)
  {
    if b == [] {
      assert a + b == a;
    } else {
      assert (a + b)[..|a + b| - 1] == a + b[..|b| - 1];
      ContentsAppend(a, b[..|b| - 1]);
      StringAssoc(Contents(a), Contents(b[..|b| - 1]), b[|b| - 1].content);
    }
  }

  lemma {:induction false} TextsAppend(a: seq<Event>, b: seq<Event>)
    ensures Texts(a + b) == Texts(a) + Texts(b)
  {
    if b == [] {
      assert a + b == a;
    } else {
      assert (a + b)[..|a + b| - 1] == a + b[..|b| - 1];
      TextsAppend(a, b[..|b| - 1]);
      StringAssoc(Texts(a), Texts(b[..|b| - 1]), MessageText(b[|b| - 1]));
    }
  }

  lemma {:induction false} DeltasAppend(a: seq<Event>, b: seq<Event>)
    ensures Deltas(a + b) == Deltas(a) + Deltas(b)
  {
    if b == [] {
      assert a + b == a;
    } else {
      assert (a + b)[..|a + b| - 1] == a + b[..|b| - 1];
      DeltasAppend(a, b[..|b| - 1]);
      StringAssoc(Deltas(a), Deltas(b[..|b| - 1]), DeltaText(b[|b| - 1]));
    }
  }

  lemma {:induction false} NoDeltaBeforeCut(evs: seq<Event>)
    ensures Deltas(Cut(evs).0) == ""
  {
    if evs != [] {
      var n := |evs| - 1;
      NoDeltaBeforeCut(evs[..n]);
      TextsStep(Cut(evs[..n]).0, evs[n]);
    }
  }

  lemma ProjectedText(st: State, ev: Event)
    ensures var (st', out) := Project(st, TextOnly, ev);
      && Contents(out) == (if st.partialTextSeen then "" else MessageText(ev)) + DeltaText(ev)
      && st'.partialTextSeen == (st.partialTextSeen || DeltaText(ev) != "")
  {
    var out := Project(st, TextOnly, ev).1;
    if out != [] {
      assert out[..|out| - 1] == [] && Contents([]) == "";
      assert Contents(out) == out[0].content;
    }
  }

  lemma TextsStep(evs: seq<Event>, ev: Event)
    ensures Texts(evs + [ev]) == Texts(evs) + MessageText(ev) && Deltas(evs + [ev]) == Deltas(evs) + DeltaText(ev)
  {
    assert (evs + [ev])[..|evs|] == evs;
  }

  /** One event more, on either side of the cut: `t` and `d` are the texts before it and the deltas
      after it, `m` and `x` the event's message text and delta. */
  lemma CutStep(t: string, d: string, m: string, x: string)
    ensures (t + d) + ("" + x) == t + (d + x)
    ensures (t + "") + (m + "") == (t + m) + ""
  {
  }

  /** The text-only stream without chunks: the text sent so far, and whether a delta was. */
  function Sent(evs: seq<Event>): (string, bool) {
    if evs == [] then ("", false)
    else
      var ev := evs[|evs| - 1];
      var (text, seen) := Sent(evs[..|evs| - 1]);
      (text + ((if seen then "" else MessageText(ev)) + DeltaText(ev)), seen || DeltaText(ev) != "")
  }

  lemma {:induction false} StreamedTextIsSent(evs: seq<Event>)
    ensures StreamedText(evs) == Sent(evs).0 && Stream(TextOnly, evs).0.partialTextSeen == Sent(evs).1
  {
    if evs != [] {
      var n := |evs| - 1;
      StreamedTextIsSent(evs[..n]);
      ProjectedText(Stream(TextOnly, evs[..n]).0, evs[n]);
    }
  }

  /** What the text-only stream sends: whole messages up to the first delta, only deltas after. */
  lemma {:induction false} SentIs(evs: seq<Event>)
    ensures Sent(evs).0 == Texts(Cut(evs).0) + Deltas(Cut(evs).1)
    ensures Sent(evs).1 == (Cut(evs).1 != [])
  {
    if evs != [] {
      SentIs(evs[..|evs| - 1]);
      SentStep(evs, Sent(evs[..|evs| - 1]).0, Sent(evs).0);
    }
  }

  lemma SentStep(evs: seq<Event>, sent: string, sent': string)
    requires evs != []
    requires var (before, after) := Cut(evs[..|evs| - 1]);
      var ev := evs[|evs| - 1];
      && sent == Texts(before) + Deltas(after)
      && sent' == sent + ((if after != [] then "" else MessageText(ev)) + DeltaText(ev))
    ensures sent' == Texts(Cut(evs).0) + Deltas(Cut(evs).1)
  {
    var (before, after) := Cut(evs[..|evs| - 1]);
    var ev := evs[|evs| - 1];
    CutStep(Texts(before), Deltas(after), MessageText(ev), DeltaText(ev));
    if after != [] || DeltaText(ev) != "" {
      TextsStep(after, ev);
      assert after == [] ==> MessageText(ev) == "";
    } else {
      TextsStep(before, ev);
    }
  }

  lemma SamePrefix(t: string, d: string, m: string)
    ensures t + d == t + m <==> d == m
    ensures t + m == "" ==> t + d == d
  {
    assert (t + d)[|t|..] == d && (t + m)[|t|..] == m;
    if t + m == "" {
      assert |t| == 0;
    }
  }

  /** The message texts, cut at the first delta; all the deltas come after it. */
  lemma CutTexts(evs: seq<Event>)
    ensures var (before, after) := Cut(evs);
      Texts(evs) == Texts(before) + Texts(after) && Deltas(evs) == Deltas(after)
  {
    var (before, after) := Cut(evs);
    NoDeltaBeforeCut(evs);
    TextsAppend(before, after);
    DeltasAppend(before, after);
    assert "" + Deltas(after) == Deltas(after);
  }

  /** Streaming and buffering give the same text exactly when, from the first delta on, the deltas
      spell the messages; and when no message has any text, no error came and there is a result,
      exactly when the deltas spell the result's own text, which only the buffered response falls
      back to. */
  lemma TextsAgreeIff(evs: seq<Event>)
    ensures StreamedText(evs) == Buffered(evs).text <==>
      if Texts(evs) != "" || LastResult(evs).None? || FirstError(evs) != "" then Deltas(Cut(evs).1) == Texts(Cut(evs).1)
      else Deltas(evs) == LastResultText(evs)
  {
    StreamedTextIsSent(evs);
    SentIs(evs);
    SentEqualsBufferedIff(evs, Sent(evs).0);
  }

  lemma SentOneMore(evs: seq<Event>, ev: Event)
    ensures var (text, seen) := Sent(evs);
      Sent(evs + [ev]) == (text + ((if seen then "" else MessageText(ev)) + DeltaText(ev)), seen || DeltaText(ev) != "")
  {
    assert (evs + [ev])[..|evs|] == evs;
  }

  /** Events that carry nothing but message texts, after a delta. */
  lemma OnlyFirstIsSent(a: string, e0: Event, e1: Event, e2: Event, e3: Event)
    requires e0 == StreamEvent(ContentBlockDelta, TextDelta, a) && a != ""
    requires DeltaText(e1) == "" && DeltaText(e2) == "" && DeltaText(e3) == ""
    ensures Sent([] + [e0] + [e1] + [e2] + [e3]) == (a, true)
    ensures Texts([] + [e0] + [e1] + [e2] + [e3]) == MessageText(e1) + MessageText(e2) + MessageText(e3)
  {
    assert "" + ("" + a) == a && a + ("" + "") == a && "" + "" == "";
    SentOneMore([], e0);
    SentOneMore([] + [e0], e1);
    SentOneMore([] + [e0] + [e1], e2);
    SentOneMore([] + [e0] + [e1] + [e2], e3);
    TextsStep([], e0);
    TextsStep([] + [e0], e1);
    TextsStep([] + [e0] + [e1], e2);
    TextsStep([] + [e0] + [e1] + [e2], e3);
    assert "" + MessageText(e1) == MessageText(e1);
  }

  /** A stream on which they differ: once anything has been streamed, a later message that was not
      streamed itself is lost from the chunks, but not from the buffered response. */
  lemma UnstreamedMessageIsLost(a: string, b: string, result: Event)
    requires a != "" && b != "" && result.Result?
    ensures
      var evs := [StreamEvent(ContentBlockDelta, TextDelta, a), Assistant([Text(a)]), Assistant([Text(b)]), result];
      Contents(Chunks(TextOnly, evs)) == a && Buffered(evs).text == a + b
  {
    var e0, e1, e2 := StreamEvent(ContentBlockDelta, TextDelta, a), Assistant([Text(a)]), Assistant([Text(b)]);
    var evs := [e0, e1, e2, result];
    assert evs == [] + [e0] + [e1] + [e2] + [result];
    OnlyFirstIsSent(a, e0, e1, e2, result);
    OneText(a);
    OneText(b);
    assert (a + b) + "" == a + b;
    StreamedTextIsTheChunks(evs);
    StreamedTextIsSent(evs);
    NoErrorSoFar(evs);
  }

  lemma OneText(a: string)
    ensures ContentText([Text(a)]) == a
  {
    assert [Text(a)][..0] == [] && "" + a == a;
  }

  lemma SentEqualsBufferedIff(evs: seq<Event>, sent: string)
    requires sent == Texts(Cut(evs).0) + Deltas(Cut(evs).1)
    ensures sent == Buffered(evs).text <==>
      if Texts(evs) != "" || LastResult(evs).None? || FirstError(evs) != "" then Deltas(Cut(evs).1) == Texts(Cut(evs).1)
      else Deltas(evs) == LastResultText(evs)
  {
    var (before, after) := Cut(evs);
    CutTexts(evs);
    LastResultIsResult(evs);
    SamePrefix(Texts(before), Deltas(after), Texts(after));
  }

  /** The text sent is that of the chunks, one after the other. */
  lemma {:induction false} StreamedTextIsTheChunks(evs: seq<Event>)
    ensures Contents(Chunks(TextOnly, evs)) == StreamedText(evs)
  {
    if evs != [] {
      var n := |evs| - 1;
      StreamedTextIsTheChunks(evs[..n]);
      var (st, outs) := Stream(TextOnly, evs[..n]);
      var out := Project(st, TextOnly, evs[n]).1;
      assert (outs + [out])[..|outs|] == outs;
      ContentsAppend(Flatten(outs), out);
    }
  }

  lemma {:induction false} LastResultIsResult(evs: seq<Event>)
    ensures LastResult(evs).Some? ==> LastResult(evs).value.Result?
  {
    if evs != [] { LastResultIsResult(evs[..|evs| - 1]); }
  }

  function LastResultText(evs: seq<Event>): string {
    match LastResult(evs)
    case Some(Result(_, text, _)) => text
    case _ => ""
  }

  /** The deltas since the last assistant message, if so far every message was spelled by the
      deltas before it. */
  function Unclaimed(evs: seq<Event>): Option<string> {
    if evs == [] then Some("")
    else
      var ev := evs[|evs| - 1];
      match Unclaimed(evs[..|evs| - 1])
      case None => Option.None
      case Some(d) =>
        if ev.Assistant? then (if d == ContentText(ev.content) then Some("") else Option.None)
        else Some(d + DeltaText(ev))
  }

  predicate EveryMessageSpelled(evs: seq<Event>) { Unclaimed(evs) == Some("") }

  lemma {:induction false} SpelledDeltas(evs: seq<Event>)
    requires Unclaimed(evs).Some?
    ensures Deltas(evs) == Texts(evs) + Unclaimed(evs).value
  {
    if evs != [] {
      SpelledDeltas(evs[..|evs| - 1]);
    }
  }

  lemma {:induction false} SpelledPrefix(a: seq<Event>, b: seq<Event>)
    requires Unclaimed(a + b).Some?
    ensures Unclaimed(a).Some?
  {
    if b == [] {
      assert a + b == a;
    } else {
      assert (a + b)[..|a + b| - 1] == a + b[..|b| - 1];
      SpelledPrefix(a, b[..|b| - 1]);
    }
  }

  /** One result, at the end, and no error before it. */
  predicate EndsInItsOnlyResult(evs: seq<Event>) {
    evs != [] && evs[|evs| - 1].Result? && forall i | 0 <= i < |evs| - 1 :: !Terminates(evs[i])
  }

  lemma {:induction false} NoErrorSoFar(evs: seq<Event>)
    requires forall i | 0 <= i < |evs| :: !evs[i].StreamError?
    ensures FirstError(evs) == ""
  {
    if evs != [] { NoErrorSoFar(evs[..|evs| - 1]); }
  }

  /** A stream whose messages are each spelled by the deltas before them, or which has no deltas at
      all, with some text and a single final result: the concatenated chunks are the buffered text,
      and the last chunk has the buffered finish reason and usage. */
  lemma StreamEqualsBuffered(evs: seq<Event>)
    requires EveryMessageSpelled(evs) || Deltas(evs) == ""
    requires Texts(evs) != "" && EndsInItsOnlyResult(evs)
    ensures Contents(Chunks(TextOnly, evs)) == Buffered(evs).text
    ensures EndsLike(Chunks(TextOnly, evs), Buffered(evs))
  {
    StreamedTextIsTheChunks(evs);
    SpelledTextAgrees(evs);
    LastChunk(evs);
  }

  lemma SpelledTextAgrees(evs: seq<Event>)
    requires EveryMessageSpelled(evs) || Deltas(evs) == ""
    requires Texts(evs) != "" && EndsInItsOnlyResult(evs)
    ensures StreamedText(evs) == Buffered(evs).text
  {
    NoErrorSoFar(evs);
    TextsAgreeIff(evs);
    SpelledFromCut(evs);
  }

  lemma SpelledFromCut(evs: seq<Event>)
    requires EveryMessageSpelled(evs) || Deltas(evs) == ""
    ensures Deltas(Cut(evs).1) == Texts(Cut(evs).1)
  {
    if EveryMessageSpelled(evs) {
      SpelledSuffix(evs);
    } else {
      DeltasEmptyMeansNone(evs);
      assert Deltas([]) == Texts([]);
    }
  }

  /** The last chunk alone has a finish reason, and it and the usage are those of the response. */
  predicate EndsLike(cs: seq<Chunk>, r: Response) {
    && cs != [] && cs[|cs| - 1].finish == Some(r.finish) && cs[|cs| - 1].usage == r.usage
    && forall i | 0 <= i < |cs| - 1 :: cs[i].finish.None?
  }

  lemma SpelledSuffix(evs: seq<Event>)
    requires EveryMessageSpelled(evs)
    ensures Deltas(Cut(evs).1) == Texts(Cut(evs).1)
  {
    var (before, after) := Cut(evs);
    CutTexts(evs);
    NoDeltaBeforeCut(evs);
    SpelledDeltas(evs);
    SpelledPrefix(before, after);
    SpelledDeltas(before);
    assert Texts(evs) + "" == Texts(evs);
    assert Texts(before) == "" && "" + Texts(after) == Texts(after);
  }

  lemma {:induction false} DeltasEmptyMeansNone(evs: seq<Event>)
    requires Deltas(evs) == ""
    ensures Cut(evs).1 == []
  {
    if evs != [] {
      assert Deltas(evs[..|evs| - 1]) == "";
      DeltasEmptyMeansNone(evs[..|evs| - 1]);
    }
  }

  lemma LastChunk(evs: seq<Event>)
    requires EndsInItsOnlyResult(evs)
    ensures EndsLike(Chunks(TextOnly, evs), Buffered(evs))
  {
    var n := |evs| - 1;
    var outs := Stream(TextOnly, evs[..n]).1;
    var out := Project(Stream(TextOnly, evs[..n]).0, TextOnly, evs[n]).1;
    assert (outs + [out])[..|outs|] == outs;
    NoFinishYet(evs[..n]);
    NoErrorSoFar(evs);
  }

  lemma {:induction false} NoFinishYet(evs: seq<Event>)
    requires forall i | 0 <= i < |evs| :: !Terminates(evs[i])
    ensures forall c <- Chunks(TextOnly, evs) :: c.finish.None?
  {
    if evs != [] {
      var n := |evs| - 1;
      NoFinishYet(evs[..n]);
      var (st, outs) := Stream(TextOnly, evs[..n]);
      ProjectShape(st, TextOnly, evs[n]);
      var out := Project(st, TextOnly, evs[n]).1;
      assert (outs + [out])[..|outs|] == outs;
    }
  }
}
