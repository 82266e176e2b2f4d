/** The Claude extractor: token counts and text blocks from the decoded stream events. */
module ClaudeAssembly {
  import opened Common

  datatype Tokens = Tokens(input: int, output: int, cacheRead: int, cacheCreate: int)

  datatype Event = Event(
    kind: string, usage: Tokens,
    messageId: string, messageModel: string, messageUsage: Tokens,
    stopReason: string, deltaText: string, blockType: string)

  datatype Usage = Usage(prompt: int, completion: int, total: int, cached: int)

  datatype Block = Block(kind: string, text: string)

  // ----- specification: what the events say -----

  predicate StartsText(e: Event) {
    e.kind == "content_block_start" && e.blockType == "text"
  }

  predicate HasText(e: Event) {
    e.kind == "content_block_delta" && e.deltaText != ""
  }

  lemma StartIsNotDelta(e: Event)
    ensures !(StartsText(e) && HasText(e))
  {
    assert "content_block_start"[14] != "content_block_delta"[14];
  }

  function Decoded(events: seq<Option<Event>>): seq<Event> {
    if events == [] then []
    else Decoded(events[..|events| - 1]) + if events[|events| - 1].Some? then [events[|events| - 1].value] else []
  }

  predicate TextStarted(es: seq<Event>) {
    exists e :: e in es && StartsText(e)
  }

  /** All text deltas after the first text block start, in order. */
  function TextAfterStart(es: seq<Event>): string {
    if es == [] then ""
    else
      var e := es[|es| - 1];
      TextAfterStart(es[..|es| - 1]) + if HasText(e) && TextStarted(es[..|es| - 1]) then e.deltaText else ""
  }

  function TextStarts(es: seq<Event>): nat {
    if es == [] then 0 else TextStarts(es[..|es| - 1]) + if StartsText(es[|es| - 1]) then 1 else 0
  }

  /** The text deltas that come while block `i` is the last text block started, in order. */
  function TextOf(es: seq<Event>, i: nat): string {
    if es == [] then ""
    else
      var e := es[|es| - 1];
      TextOf(es[..|es| - 1], i) + if HasText(e) && TextStarts(es[..|es| - 1]) == i + 1 then e.deltaText else ""
  }

  /** The last non-empty message id and stop reason, and the last non-empty model that came with a
      prompt count. */
  function Id(es: seq<Event>): string {
    if es == [] then "" else Or(es[|es| - 1].messageId, Id(es[..|es| - 1]))
  }

  function StopReason(es: seq<Event>): string {
    if es == [] then "" else Or(es[|es| - 1].stopReason, StopReason(es[..|es| - 1]))
  }

  function Model(es: seq<Event>): string {
    if es == [] then ""
    else Or(if es[|es| - 1].messageUsage.input > 0 then es[|es| - 1].messageModel else "", Model(es[..|es| - 1]))
  }

  /** The first non-zero cache count that came with a prompt count. */
  function Cached(es: seq<Event>): int {
    if es == [] then 0
    else if Cached(es[..|es| - 1]) != 0 then Cached(es[..|es| - 1])
    else
      var u := es[|es| - 1].messageUsage;
      if u.input > 0 then u.cacheRead + u.cacheCreate else 0
  }

  /** The last positive output count. */
  function Completion(es: seq<Event>): int {
    if es == [] then 0
    else if es[|es| - 1].usage.output > 0 then es[|es| - 1].usage.output
    else Completion(es[..|es| - 1])
  }

  /** The last positive input count of a message start, else the first positive one of a delta. */
  function MessagePrompt(es: seq<Event>): int {
    if es == [] then 0
    else if es[|es| - 1].messageUsage.input > 0 then es[|es| - 1].messageUsage.input
    else MessagePrompt(es[..|es| - 1])
  }

  function FirstDeltaPrompt(es: seq<Event>): int {
    if es == [] then 0
    else if FirstDeltaPrompt(es[..|es| - 1]) != 0 then FirstDeltaPrompt(es[..|es| - 1])
    else if es[|es| - 1].usage.input > 0 then es[|es| - 1].usage.input else 0
  }

  function Prompt(es: seq<Event>): int {
    if MessagePrompt(es) != 0 then MessagePrompt(es) else FirstDeltaPrompt(es)
  }

  function Texts(blocks: seq<Block>): string {
    if blocks == [] then "" else Texts(blocks[..|blocks| - 1]) + blocks[|blocks| - 1].text
  }

  lemma {:induction false} MessagePromptNonNegative(es: seq<Event>)
    ensures 0 <= MessagePrompt(es) && 0 <= FirstDeltaPrompt(es)
    decreases |es|
  {
    if es != [] { MessagePromptNonNegative(es[..|es| - 1]); }
  }

  /** What one more event does to the counts and names. */
  lemma Snoc(es: seq<Event>, e: Event)
    ensures Completion(es + [e]) == if e.usage.output > 0 then e.usage.output else Completion(es)
    ensures MessagePrompt(es + [e]) == if e.messageUsage.input > 0 then e.messageUsage.input else MessagePrompt(es)
    ensures FirstDeltaPrompt(es + [e]) == if FirstDeltaPrompt(es) != 0 then FirstDeltaPrompt(es)
        else if e.usage.input > 0 then e.usage.input else 0
    ensures Cached(es + [e]) == if Cached(es) == 0 && e.messageUsage.input > 0 then
        e.messageUsage.cacheRead + e.messageUsage.cacheCreate else Cached(es)
    ensures Id(es + [e]) == Or(e.messageId, Id(es)) && StopReason(es + [e]) == Or(e.stopReason, StopReason(es))
    ensures Model(es + [e]) == Or(if e.messageUsage.input > 0 then e.messageModel else "", Model(es))
  {
    assert (es + [e])[..|es|] == es;
  }

  lemma TextSnoc(es: seq<Event>, e: Event)
    ensures TextStarts(es + [e]) == TextStarts(es) + if StartsText(e) then 1 else 0
    ensures TextStarted(es + [e]) <==> TextStarted(es) || StartsText(e)
    ensures TextAfterStart(es + [e]) == TextAfterStart(es) + if HasText(e) && TextStarted(es) then e.deltaText else ""
  {
    assert (es + [e])[..|es|] == es;
    assert forall x :: x in es + [e] <==> x in es || x == e;
  }

  lemma TextOfSnoc(es: seq<Event>, e: Event, i: nat)
    ensures TextOf(es + [e], i)
         == if HasText(e) && TextStarts(es) == i + 1 then TextOf(es, i) + e.deltaText else TextOf(es, i)
  {
    assert (es + [e])[..|es|] == es;
    assert TextOf(es, i) + "" == TextOf(es, i);
  }

  lemma {:induction false} NoTextYet(es: seq<Event>, i: nat)
    requires TextStarts(es) <= i
    ensures TextOf(es, i) == ""
    decreases |es|
  {
    if es != [] { NoTextYet(es[..|es| - 1], i); }
  }

  /** Each block is a text block and holds the text of its turn. */
  ghost predicate BlocksAre(blocks: seq<Block>, es: seq<Event>) {
    |blocks| == TextStarts(es) && forall i | 0 <= i < |blocks| :: blocks[i] == Block("text", TextOf(es, i))
  }

  lemma BlockKept(es: seq<Event>, e: Event, b: Block, i: nat)
    requires b == Block("text", TextOf(es, i)) && !(HasText(e) && TextStarts(es) == i + 1)
    ensures b == Block("text", TextOf(es + [e], i))
  {
    TextOfSnoc(es, e, i);
  }

  lemma StartOpensBlock(blocks: seq<Block>, es: seq<Event>, e: Event)
    requires BlocksAre(blocks, es) && StartsText(e)
    ensures BlocksAre(blocks + [Block("text", "")], es + [e])
  {
    TextSnoc(es, e);
    StartIsNotDelta(e);
    NoTextYet(es, |blocks|);
    var bs := blocks + [Block("text", "")];
    forall i | 0 <= i < |bs| ensures bs[i] == Block("text", TextOf(es + [e], i)) { BlockKept(es, e, bs[i], i); }
  }

  lemma DeltaExtendsLast(blocks: seq<Block>, es: seq<Event>, e: Event)
    requires BlocksAre(blocks, es) && HasText(e) && |blocks| > 0
    ensures var last := |blocks| - 1;
      BlocksAre(blocks[last := Block("text", blocks[last].text + e.deltaText)], es + [e])
  {
    TextSnoc(es, e);
    StartIsNotDelta(e);
    var last := |blocks| - 1;
    var bs := blocks[last := Block("text", blocks[last].text + e.deltaText)];
    forall i | 0 <= i < |bs| ensures bs[i] == Block("text", TextOf(es + [e], i)) {
      if i < last { BlockKept(es, e, bs[i], i); } else { TextOfSnoc(es, e, i); }
    }
  }

  lemma OthersKeepBlocks(blocks: seq<Block>, es: seq<Event>, e: Event)
    requires BlocksAre(blocks, es) && !StartsText(e) && (HasText(e) ==> blocks == [])
    ensures BlocksAre(blocks, es + [e])
  {
    TextSnoc(es, e);
    forall i | 0 <= i < |blocks| ensures blocks[i] == Block("text", TextOf(es + [e], i)) {
      BlockKept(es, e, blocks[i], i);
    }
  }

  /** What each kind of event makes of the blocks. */
  lemma BlocksAfter(blocks: seq<Block>, es: seq<Event>, e: Event)
    requires BlocksAre(blocks, es)
    ensures StartsText(e) ==> BlocksAre(blocks + [Block("text", "")], es + [e])
    ensures HasText(e) && |blocks| > 0 ==>
      BlocksAre(blocks[|blocks| - 1 := Block("text", blocks[|blocks| - 1].text + e.deltaText)], es + [e])
    ensures !StartsText(e) && !(HasText(e) && |blocks| > 0) ==> BlocksAre(blocks, es + [e])
  {
    if StartsText(e) { StartOpensBlock(blocks, es, e); }
    else if HasText(e) && |blocks| > 0 { DeltaExtendsLast(blocks, es, e); }
    else { OthersKeepBlocks(blocks, es, e); }
    StartIsNotDelta(e);
  }

  /** The texts of the first `n` blocks, joined. */
  function TextUpTo(es: seq<Event>, n: nat): string {
    if n == 0 then "" else TextUpTo(es, n - 1) + TextOf(es, n - 1)
  }

  lemma {:induction false} EarlierBlocksStay(es: seq<Event>, e: Event, n: nat)
    requires !HasText(e) || n == 0 || n < TextStarts(es)
    ensures TextUpTo(es + [e], n) == TextUpTo(es, n)
    decreases n
  {
    if n > 0 {
      EarlierBlocksStay(es, e, n - 1);
      TextOfSnoc(es, e, n - 1);
    }
  }

  lemma LastBlockGrows(es: seq<Event>, e: Event)
    requires HasText(e) && 0 < TextStarts(es)
    ensures TextUpTo(es + [e], TextStarts(es)) == TextUpTo(es, TextStarts(es)) + e.deltaText
  {
    var n := TextStarts(es) - 1;
    EarlierBlocksStay(es, e, n);
    TextOfSnoc(es, e, n);
    Assoc(TextUpTo(es, n), TextOf(es, n), e.deltaText);
  }

  /** Block by block and all together: the joined texts are the deltas after the first start. */
  lemma {:induction false} JoinedTexts(es: seq<Event>)
    ensures TextUpTo(es, TextStarts(es)) == TextAfterStart(es) && (TextStarts(es) > 0 <==> TextStarted(es))
    decreases |es|
  {
    if es != [] {
      var front, e := es[..|es| - 1], es[|es| - 1];
      assert es == front + [e];
      JoinedTexts(front);
      TextSnoc(front, e);
      StartIsNotDelta(e);
      if HasText(e) && 0 < TextStarts(front) {
        LastBlockGrows(front, e);
      } else {
        EarlierBlocksStay(front, e, TextStarts(front));
      }
      if StartsText(e) {
        NoTextYet(front, TextStarts(front));
        TextOfSnoc(front, e, TextStarts(front));
      }
    }
  }

  lemma {:induction false} TextsOfBlocks(blocks: seq<Block>, es: seq<Event>)
    requires forall i | 0 <= i < |blocks| :: blocks[i] == Block("text", TextOf(es, i))
    ensures Texts(blocks) == TextUpTo(es, |blocks|)
    decreases |blocks|
  {
    if blocks != [] { TextsOfBlocks(blocks[..|blocks| - 1], es); }
  }

  // ----- the extractor -----

  /** What `assembleSSE` encodes. */
  datatype Response = Response(id: string, model: string, content: seq<Block>, stopReason: string, input: int,
      output: int)

  method ContentOf(blocks: seq<Block>) returns (content: seq<Block>)
    ensures content == blocks
  {
    content := [];
    for i := 0 to |blocks|
      invariant content == blocks[..i]
    {
      content := content + [Block(blocks[i].kind, blocks[i].text)];
    }
  }

  lemma Joined(blocks: seq<Block>, es: seq<Event>)
    requires BlocksAre(blocks, es)
    ensures Texts(blocks) == TextAfterStart(es) && (|blocks| > 0 <==> TextStarted(es))
  {
    JoinedTexts(es);
    TextsOfBlocks(blocks, es);
  }

  class ClaudeExtractor {
    var acc: Usage
    var model: string
    var id: string
    var stopReason: string
    var blocks: seq<Block>
    /** The payloads processed so far, decoded. */
    ghost var events: seq<Option<Event>>

    ghost predicate Valid()
      reads this
    {
      var es := Decoded(events);
      && acc == Usage(Prompt(es), Completion(es), Prompt(es) + Completion(es), Cached(es))
      && id == Id(es) && model == Model(es) && stopReason == StopReason(es)
      && BlocksAre(blocks, es)
    }

    constructor ()
      ensures Valid() && events == []
    {
      acc, model, id, stopReason, blocks, events := Usage(0, 0, 0, 0), "", "", "", [], [];
    }

    /** `processSSE` on a payload that decoded to `v`. */
    method ProcessSSE(v: Option<Event>)
      requires Valid()
      modifies this
      ensures Valid() && events == old(events) + [v]
    {
      ghost var es := Decoded(events);
      assert (events + [v])[..|events|] == events;
      events := events + [v];
      if v.None? {
        assert Decoded(events) == es + [] == es;
        return;
      }
      var e := v.value;
      assert Decoded(events) == es + [e];
      UpdateUsage(e, es);
      Snoc(es, e);
      if e.messageId != "" { id := e.messageId; }
      UpdateBlocks(e, es);
      if e.stopReason != "" { stopReason := e.stopReason; }
    }

    method UpdateUsage(e: Event, ghost es: seq<Event>)
      requires acc == Usage(Prompt(es), Completion(es), Prompt(es) + Completion(es), Cached(es)) && model == Model(es)
      modifies this`acc, this`model
      ensures var es' := es + [e];
        acc == Usage(Prompt(es'), Completion(es'), Prompt(es') + Completion(es'), Cached(es')) && model == Model(es')
    {
      Snoc(es, e);
      MessagePromptNonNegative(es);
      if e.messageUsage.input > 0 {
        acc := acc.(prompt := e.messageUsage.input);
        if acc.cached == 0 {
          acc := acc.(cached := e.messageUsage.cacheRead + e.messageUsage.cacheCreate);
        }
        if e.messageModel != "" { model := e.messageModel; }
      }
      if e.usage.input > 0 && acc.prompt == 0 {
        acc := acc.(prompt := e.usage.input);
      }
      if e.usage.output > 0 {
        acc := acc.(completion := e.usage.output);
      }
      acc := acc.(total := acc.prompt + acc.completion);
    }

    method UpdateBlocks(e: Event, ghost es: seq<Event>)
      requires BlocksAre(blocks, es)
      modifies this`blocks
      ensures BlocksAre(blocks, es + [e])
    {
      StartIsNotDelta(e);
      BlocksAfter(blocks, es, e);
      if StartsText(e) { blocks := blocks + [Block("text", "")]; }
      if HasText(e) && |blocks| > 0 {
        var last := |blocks| - 1;
        blocks := blocks[last := blocks[last].(text := blocks[last].text + e.deltaText)];
      }
    }

    /** `assembleSSE`, up to the final encoding. */
    method AssembleSSE() returns (r: Option<Response>)
      requires Valid()
      ensures var es := Decoded(events);
        && (r.None? <==> Id(es) == "" && !TextStarted(es))
        && (r.Some? ==>
              && r.value.id == Id(es) && r.value.model == Model(es) && r.value.stopReason == StopReason(es)
              && r.value.input == Prompt(es) && r.value.output == Completion(es)
              && BlocksAre(r.value.content, es) && Texts(r.value.content) == TextAfterStart(es))
    {
      Joined(blocks, Decoded(events));
      if id == "" && |blocks| == 0 { return None; }
      var content := ContentOf(blocks);
      r := Some(Response(id, model, content, stopReason, acc.prompt, acc.completion));
    }
  }
}
