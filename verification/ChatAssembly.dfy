/** The OpenAI chat extractor: what it accumulates from the decoded stream events, and the
    response it assembles from them. Decoding a payload is outside the model; a payload that
    does not decode is `None`. */
module ChatAssembly {
  import opened Common

  /** A tool-call index as decoded: any integer, also a negative one. */
  datatype Index = Index(n: int)

  datatype ToolCall = ToolCall(index: Index, id: string, kind: string, name: string, arguments: string)

  datatype Choice = Choice(finishReason: string, role: string, content: string, toolCalls: seq<ToolCall>)

  datatype Usage = Usage(prompt: int, completion: int, total: int, reasoning: int, cached: int)

  datatype Event = Event(id: string, model: string, usage: Option<Usage>, choices: seq<Choice>)

  datatype Tool = Tool(id: string, kind: string, name: string, arguments: string)

  const NEW_TOOL := Tool("", "", "", "")

  // ----- specification: what the events say -----

  /** All choices of all events that decoded, in order. */
  function Choices(events: seq<Option<Event>>): seq<Choice> {
    if events == [] then []
    else Choices(events[..|events| - 1]) + match events[|events| - 1] case None => [] case Some(e) => e.choices
  }

  function Calls(choices: seq<Choice>): seq<ToolCall> {
    if choices == [] then [] else Calls(choices[..|choices| - 1]) + choices[|choices| - 1].toolCalls
  }

  /** The in-order concatenation of all content deltas. */
  function Content(choices: seq<Choice>): string {
    if choices == [] then "" else Content(choices[..|choices| - 1]) + choices[|choices| - 1].content
  }

  /** The in-order concatenation of the argument deltas of index `i`, and of its name deltas. */
  function Arguments(calls: seq<ToolCall>, i: Index): string {
    if calls == [] then ""
    else Arguments(calls[..|calls| - 1], i) + if calls[|calls| - 1].index == i then calls[|calls| - 1].arguments else ""
  }

  function Name(calls: seq<ToolCall>, i: Index): string {
    if calls == [] then ""
    else Name(calls[..|calls| - 1], i) + if calls[|calls| - 1].index == i then calls[|calls| - 1].name else ""
  }

  /** The last non-empty id, and the last non-empty type, given for index `i`. */
  function LastId(calls: seq<ToolCall>, i: Index): string {
    if calls == [] then ""
    else if calls[|calls| - 1].index == i then Or(calls[|calls| - 1].id, LastId(calls[..|calls| - 1], i))
    else LastId(calls[..|calls| - 1], i)
  }

  function LastKind(calls: seq<ToolCall>, i: Index): string {
    if calls == [] then ""
    else if calls[|calls| - 1].index == i then Or(calls[|calls| - 1].kind, LastKind(calls[..|calls| - 1], i))
    else LastKind(calls[..|calls| - 1], i)
  }

  function Seen(calls: seq<ToolCall>): set<Index> {
    set c | c in calls :: c.index
  }

  /** What the calls say about the tool with index `i`. */
  function ToolOf(calls: seq<ToolCall>, i: Index): Tool {
    Tool(LastId(calls, i), LastKind(calls, i), Name(calls, i), Arguments(calls, i))
  }

  /** The tool map holds exactly the indices seen, each as the calls say. */
  ghost predicate ToolsAre(tools: map<Index, Tool>, calls: seq<ToolCall>) {
    tools.Keys == Seen(calls) && forall i | i in tools :: tools[i] == ToolOf(calls, i)
  }

  function Join(parts: seq<string>): string {
    if parts == [] then "" else Join(parts[..|parts| - 1]) + parts[|parts| - 1]
  }

  lemma JoinSnoc(parts: seq<string>, p: string)
    ensures Join(parts + [p]) == Join(parts) + p
  {
    assert (parts + [p])[..|parts|] == parts;
  }

  /** The last non-empty id and model, and the last usage that counts any tokens. */
  function Id(events: seq<Option<Event>>): string {
    if events == [] then ""
    else match events[|events| - 1]
      case None => Id(events[..|events| - 1])
      case Some(e) => Or(e.id, Id(events[..|events| - 1]))
  }

  function Model(events: seq<Option<Event>>): string {
    if events == [] then ""
    else match events[|events| - 1]
      case None => Model(events[..|events| - 1])
      case Some(e) => Or(e.model, Model(events[..|events| - 1]))
  }

  function LastUsage(events: seq<Option<Event>>): Option<Usage> {
    if events == [] then None
    else match events[|events| - 1]
      case None => LastUsage(events[..|events| - 1])
      case Some(e) => if e.usage.Some? && e.usage.value.total > 0 then e.usage else LastUsage(events[..|events| - 1])
  }

  /** The first non-empty role and the last non-empty finish reason. */
  function Role(choices: seq<Choice>): string {
    if choices == [] then "" else Or(Role(choices[..|choices| - 1]), choices[|choices| - 1].role)
  }

  function FinishReason(choices: seq<Choice>): string {
    if choices == [] then "" else Or(choices[|choices| - 1].finishReason, FinishReason(choices[..|choices| - 1]))
  }

  lemma ChoicesSnoc(choices: seq<Choice>, ch: Choice)
    ensures Role(choices + [ch]) == Or(Role(choices), ch.role)
    ensures FinishReason(choices + [ch]) == Or(ch.finishReason, FinishReason(choices))
    ensures Content(choices + [ch]) == if ch.content == "" then Content(choices) else Content(choices) + ch.content
    ensures Calls(choices + [ch]) == Calls(choices) + ch.toolCalls
  {
    assert (choices + [ch])[..|choices|] == choices;
    assert Content(choices) + "" == Content(choices);
  }

  lemma EventsSnoc(events: seq<Option<Event>>, v: Option<Event>)
    ensures Choices(events + [v]) == if v.None? then Choices(events) else Choices(events) + v.value.choices
    ensures Id(events + [v]) == if v.None? then Id(events) else Or(v.value.id, Id(events))
    ensures Model(events + [v]) == if v.None? then Model(events) else Or(v.value.model, Model(events))
    ensures LastUsage(events + [v])
         == if v.Some? && v.value.usage.Some? && v.value.usage.value.total > 0 then v.value.usage else LastUsage(events)
  {
    assert (events + [v])[..|events|] == events;
    assert Choices(events) + [] == Choices(events);
  }

  // ----- the extractor -----

  /** One tool-call delta applied to the entry it belongs to. */
  function Merge(t: Tool, c: ToolCall): Tool {
    Tool(Or(c.id, t.id), Or(c.kind, t.kind), t.name + c.name, t.arguments + c.arguments)
  }

  lemma ToolOfSnoc(calls: seq<ToolCall>, c: ToolCall, i: Index)
    ensures ToolOf(calls + [c], i) == if c.index == i then Merge(ToolOf(calls, i), c) else ToolOf(calls, i)
  {
    assert (calls + [c])[..|calls|] == calls;
  }

  lemma {:induction false} ToolOfUnseen(calls: seq<ToolCall>, i: Index)
    requires i !in Seen(calls)
    ensures ToolOf(calls, i) == NEW_TOOL
    decreases |calls|
  {
    if calls != [] {
      var front := calls[..|calls| - 1];
      assert calls[|calls| - 1] in calls;
      assert forall c | c in front :: c in calls;
      ToolOfUnseen(front, i);
    }
  }

  lemma MergeKeepsTools(tools: map<Index, Tool>, calls: seq<ToolCall>, c: ToolCall)
    requires ToolsAre(tools, calls)
    ensures ToolsAre(tools[c.index := Merge(if c.index in tools then tools[c.index] else NEW_TOOL, c)], calls + [c])
  {
    assert Seen(calls + [c]) == Seen(calls) + {c.index};
    if c.index !in tools { ToolOfUnseen(calls, c.index); }
    forall i ensures ToolOf(calls + [c], i) == if c.index == i then Merge(ToolOf(calls, i), c) else ToolOf(calls, i) {
      ToolOfSnoc(calls, c, i);
    }
  }

  method Joined(parts: seq<string>) returns (content: string)
    ensures content == Join(parts)
  {
    content := "";
    for i := 0 to |parts|
      invariant content == Join(parts[..i])
    {
      assert parts[..i + 1][..i] == parts[..i];
      content := content + parts[i];
    }
    assert parts[..|parts|] == parts;
  }

  class OpenAIChatExtractor {
    var acc: Usage
    var model: string
    var id: string
    var role: string
    var parts: seq<string>
    var tools: map<Index, Tool>
    var finishReason: string
    var usage: Option<Usage>
    /** The payloads processed so far, decoded. */
    ghost var events: seq<Option<Event>>

    ghost predicate Valid()
      reads this
    {
      && id == Id(events) && model == Model(events) && usage == LastUsage(events)
      && acc == (if usage.Some? then usage.value else Usage(0, 0, 0, 0, 0))
      && Holds(Choices(events))
    }

    /** The parts that come from the choices. */
    ghost predicate Holds(choices: seq<Choice>)
      reads this
    {
      && role == Role(choices) && finishReason == FinishReason(choices)
      && Join(parts) == Content(choices) && (parts == [] <==> Content(choices) == "")
      && ToolsAre(tools, Calls(choices))
    }

    constructor ()
      ensures Valid() && events == []
    {
      acc, model, id, role := Usage(0, 0, 0, 0, 0), "", "", "";
      parts, tools, finishReason, usage := [], map[], "", None;
      events := [];
    }

    /** The inner loop of `processSSE`: the tool-call deltas of one choice. */
    method ProcessToolCalls(toolCalls: seq<ToolCall>, ghost calls: seq<ToolCall>)
      requires ToolsAre(tools, calls)
      modifies this`tools
      ensures ToolsAre(tools, calls + toolCalls)
    {
      assert calls + toolCalls[..0] == calls;
      for j := 0 to |toolCalls|
        invariant ToolsAre(tools, calls + toolCalls[..j])
      {
        var c := toolCalls[j];
        var entry := if c.index in tools then tools[c.index] else NEW_TOOL;
        MergeKeepsTools(tools, calls + toolCalls[..j], c);
        if c.id != "" { entry := entry.(id := c.id); }
        if c.kind != "" { entry := entry.(kind := c.kind); }
        if c.name != "" { entry := entry.(name := entry.name + c.name); }
        if c.arguments != "" { entry := entry.(arguments := entry.arguments + c.arguments); }
        assert entry.name == entry.name + "" && entry.arguments == entry.arguments + "";
        tools := tools[c.index := entry];
        assert calls + toolCalls[..j + 1] == calls + toolCalls[..j] + [c];
      }
      assert toolCalls[..|toolCalls|] == toolCalls;
    }

    /** One choice of an event. */
    method ProcessChoice(ch: Choice, ghost done: seq<Choice>)
      requires Holds(done)
      modifies this`role, this`parts, this`finishReason, this`tools
      ensures Holds(done + [ch])
    {
      ChoicesSnoc(done, ch);
      if ch.role != "" && role == "" { role := ch.role; }
      if ch.content != "" {
        JoinSnoc(parts, ch.content);
        parts := parts + [ch.content];
      }
      if ch.finishReason != "" { finishReason := ch.finishReason; }
      ProcessToolCalls(ch.toolCalls, Calls(done));
    }

    /** The loop over the choices of one event. */
    method ProcessChoices(choices: seq<Choice>, ghost before: seq<Choice>)
      requires Holds(before)
      modifies this`role, this`parts, this`finishReason, this`tools
      ensures Holds(before + choices)
    {
      assert before + choices[..0] == before;
      for i := 0 to |choices|
        invariant Holds(before + choices[..i])
      {
        ProcessChoice(choices[i], before + choices[..i]);
        assert before + choices[..i + 1] == before + choices[..i] + [choices[i]];
      }
      assert choices[..|choices|] == choices;
    }

    /** The id, the model and the usage of an event. */
    method ProcessHeader(e: Event)
      modifies this`id, this`model, this`acc, this`usage
      ensures id == Or(e.id, old(id)) && model == Or(e.model, old(model))
      ensures var counts := e.usage.Some? && e.usage.value.total > 0;
        usage == (if counts then e.usage else old(usage)) && acc == if counts then e.usage.value else old(acc)
    {
      if e.id != "" { id := e.id; }
      if e.model != "" { model := e.model; }
      if e.usage.Some? && e.usage.value.total > 0 {
        acc := e.usage.value;
        usage := e.usage;
      }
    }

    /** `processSSE` on a payload that decoded to `v`. */
    method ProcessSSE(v: Option<Event>)
      requires Valid()
      modifies this
      ensures Valid() && events == old(events) + [v]
    {
      EventsSnoc(events, v);
      events := events + [v];
      if v.None? { return; }
      var e := v.value;
      ProcessHeader(e);
      ProcessChoices(e.choices, Choices(old(events)));
    }

    /** `assembleSSE`, up to the final encoding. */
    method AssembleSSE() returns (r: Assembly)
      requires Valid()
      ensures r.Nothing? <==>
        && Id(events) == "" && Content(Choices(events)) == "" && Role(Choices(events)) == ""
        && Seen(Calls(Choices(events))) == {}
      ensures r.Response? ==>
                && r.id == Id(events) && r.model == Model(events) && r.usage == LastUsage(events)
                && r.role == Role(Choices(events)) && r.finishReason == FinishReason(Choices(events))
                && r.content == Content(Choices(events))
                && |r.toolCalls| == |Seen(Calls(Choices(events)))|
                && forall i | 0 <= i < |r.toolCalls| :: r.toolCalls[i] == Some(ToolOf(Calls(Choices(events)), Index(i)))
      ensures !r.Nothing? ==> (r.Panic? <==> !DownClosed(Seen(Calls(Choices(events)))))
      ensures r == AssemblyOf(events)
    {
      r := Build();
    }

    method Build() returns (r: Assembly)
      requires Valid()
      ensures r == AssemblyOf(events)
    {
      if id == "" && |parts| == 0 && role == "" && |tools| == 0 { return Nothing; }
      var content := Joined(parts);
      var calls := FillSlots(tools);
      if calls.None? { return Panic; }
      r := Response(id, model, role, content, finishReason, usage, calls.value);
    }
  }

  // ----- assembling the tool calls -----

  /** What `assembleSSE` returns: nothing, a response, or a run-time panic because a tool index
      lies outside the slice. A slot that was not filled would be `None`. */
  datatype Assembly =
    | Nothing
    | Panic
    | Response(id: string, model: string, role: string, content: string, finishReason: string, usage: Option<Usage>,
               toolCalls: seq<Option<Tool>>)

  /** No negative index, and with an index all smaller ones. */
  predicate DownClosed(s: set<Index>) {
    forall i | i in s :: 0 <= i.n < |s|
  }

  /** The numbers below `n`. */
  ghost function Range(n: nat): (r: set<Index>)
    ensures |r| == n && IsRange(r, n)
  {
    if n == 0 then {} else Range(n - 1) + {Index(n - 1)}
  }

  ghost predicate IsRange(s: set<Index>, n: nat) {
    forall i :: i in s <==> 0 <= i.n < n
  }

  /** n numbers below n are all of them. */
  lemma Pigeonhole(s: set<Index>)
    requires DownClosed(s)
    ensures IsRange(s, |s|)
  {
    var r := Range(|s|);
    assert s <= r;
    assert r == s + (r - s);
  }

  /** `toolCalls := make([]interface{}, n)` filled by index, in whatever order the map yields. */
  method FillSlots(tools: map<Index, Tool>) returns (r: Option<seq<Option<Tool>>>)
    ensures r.Some? <==> DownClosed(tools.Keys)
    ensures r.Some? ==>
      && |r.value| == |tools|
      && forall i | 0 <= i < |tools| :: Index(i) in tools && r.value[i] == Some(tools[Index(i)])
  {
    var slots: seq<Option<Tool>> := seq(|tools|, _ => None);
    var todo: set<Index> := tools.Keys;
    while todo != {}
      invariant todo <= tools.Keys && |slots| == |tools|
      invariant forall i | i in tools && i !in todo :: 0 <= i.n < |slots| && slots[i.n] == Some(tools[i])
      decreases todo
    {
      var i :| i in todo;
      if !(0 <= i.n < |slots|) { return None; }
      slots := slots[i.n := Some(tools[i])];
      todo := todo - {i};
    }
    assert |tools.Keys| == |tools|;
    Pigeonhole(tools.Keys);
    r := Some(slots);
  }

  /** If each new index is at most the number of indices seen before it, the indices are exactly
      0..n-1, so assembly is safe. */
  predicate InOrder(calls: seq<ToolCall>) {
    calls != [] ==>
      && InOrder(calls[..|calls| - 1])
      && 0 <= calls[|calls| - 1].index.n <= |Seen(calls[..|calls| - 1])|
  }

  lemma SeenSnoc(calls: seq<ToolCall>, c: ToolCall)
    ensures Seen(calls + [c]) == Seen(calls) + {c.index}
  {
    assert forall x :: x in calls + [c] <==> x in calls || x == c;
  }

  lemma RangeGrows(s: set<Index>, i: Index)
    requires IsRange(s, |s|) && 0 <= i.n <= |s|
    ensures IsRange(s + {i}, |s + {i}|)
  {
    if i.n == |s| {
      assert |s + {i}| == |s| + 1;
      forall j ensures j in s + {i} <==> 0 <= j.n < |s| + 1 {
        assert j == i || j.n != i.n;
      }
    } else {
      assert s + {i} == s;
    }
  }

  /** Then the indices seen are exactly 0..n-1 for some n. */
  lemma {:induction false} InOrderIsSafe(calls: seq<ToolCall>)
    requires InOrder(calls)
    ensures IsRange(Seen(calls), |Seen(calls)|) && DownClosed(Seen(calls))
    decreases |calls|
  {
    if calls != [] {
      var front, last := calls[..|calls| - 1], calls[|calls| - 1];
      InOrderIsSafe(front);
      assert calls == front + [last];
      SeenSnoc(front, last);
      RangeGrows(Seen(front), last.index);
    }
  }

  /** The outcome of assembly is a function of the events. */
  function AssemblyOf(events: seq<Option<Event>>): Assembly {
    var choices := Choices(events);
    var calls := Calls(choices);
    var n := |Seen(calls)|;
    if Id(events) == "" && Content(choices) == "" && Role(choices) == "" && n == 0 then Nothing
    else if !DownClosed(Seen(calls)) then Panic
    else Response(Id(events), Model(events), Role(choices), Content(choices), FinishReason(choices), LastUsage(events),
                  seq(n, i requires 0 <= i < n => Some(ToolOf(calls, Index(i)))))
  }

  /** A stream whose only tool call has any index but 0 ends in a panic. */
  method SparseIndexPanics(c: ToolCall) returns (r: Assembly)
    requires c.index != Index(0)
    ensures r.Panic?
  {
    var e := new OpenAIChatExtractor();
    var choice := Choice("", "", "", [c]);
    e.ProcessSSE(Some(Event("", "", None, [choice])));
    assert [choice][..0] == [] && [c][..0] == [];
    assert Calls([choice]) == [c] && c in [c];
    assert Choices(e.events) == [choice] by {
      assert e.events[..0] == [];
    }
    assert Seen([c]) == {c.index};
    r := e.AssembleSSE();
  }
}
