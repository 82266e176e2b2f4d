/** The streaming path of a chat response from end to end: the relay loop reads the upstream body,
    each chunk goes through the event-stream parser to the client, every payload goes to the chat
    extractor, and the response is assembled when the loop is done. */
module ChatPipeline {
  import opened Common
  import Relay
  import Sse
  import ChatAssembly

  type Decode = Bytes -> Option<ChatAssembly.Event>

  function Events(decode: Decode, payloads: seq<Bytes>): (r: seq<Option<ChatAssembly.Event>>)
    ensures |r| == |payloads|
  {
    seq(|payloads|, i requires 0 <= i < |payloads| => decode(payloads[i]))
  }

  type Parser = Sse.SseUsageExtractor<seq<Bytes>>

  /** The response that a body says, however it is delivered. */
  function ResponseOf(decode: Decode, body: Bytes): ChatAssembly.Assembly {
    ChatAssembly.AssemblyOf(Events(decode, Sse.Payloads(Sse.Lines(body))))
  }

  function Append(payloads: seq<Bytes>, p: Bytes): seq<Bytes> {
    payloads + [p]
  }

  /** A parser that hands on its payloads has handed on all of them, in order. */
  lemma {:induction false} FeedCollects(payloads: seq<Bytes>)
    ensures Sse.Feed(Append, [], payloads) == payloads
    decreases |payloads|
  {
    if payloads != [] { FeedCollects(payloads[..|payloads| - 1]); }
  }

  /** The extractor processes the payloads that the last write brought. */
  method Process(chat: ChatAssembly.OpenAIChatExtractor, decode: Decode, payloads: seq<Bytes>, done: nat)
    requires chat.Valid() && done <= |payloads| && chat.events == Events(decode, payloads[..done])
    modifies chat
    ensures chat.Valid() && chat.events == Events(decode, payloads)
  {
    for i := done to |payloads|
      invariant chat.Valid() && chat.events == Events(decode, payloads[..i])
    {
      chat.ProcessSSE(decode(payloads[i]));
      assert Events(decode, payloads[..i + 1]) == Events(decode, payloads[..i]) + [decode(payloads[i])];
    }
    assert payloads[..|payloads|] == payloads;
  }

  /** Parser and extractor have taken in exactly `body`. */
  ghost predicate Fed(parser: Parser, chat: ChatAssembly.OpenAIChatExtractor, decode: Decode, body: Bytes)
    reads parser, chat
  {
    && parser.Valid() && parser.process == Append && parser.init == [] && parser.sent == body
    && chat.Valid() && chat.events == Events(decode, Sse.Payloads(Sse.Lines(body)))
  }

  /** One chunk on its way through; the client's error keeps it from the parser. */
  method Pass(parser: Parser, chat: ChatAssembly.OpenAIChatExtractor, decode: Decode, chunk: Bytes, failed: bool)
    requires Fed(parser, chat, decode, parser.sent)
    modifies parser, chat
    ensures Fed(parser, chat, decode, old(parser.sent) + if failed then [] else chunk)
  {
    if |chunk| == 0 || failed {
      assert parser.sent + [] == parser.sent;
      return;
    }
    var before := parser.ext;
    FeedCollects(Sse.Payloads(Sse.Lines(parser.sent)));
    Sse.SplitOfConcat(parser.sent, chunk);
    Sse.PayloadsConcat(Sse.Lines(parser.sent), Sse.Lines(Sse.Tail(parser.sent) + chunk));
    parser.Write(chunk, true);
    FeedCollects(Sse.Payloads(Sse.Lines(parser.sent)));
    assert parser.ext[..|before|] == before;
    Process(chat, decode, parser.ext, |before|);
  }

  /** Whether a chunk reaches the parser: it does unless the client reports an error for it, also when
      the client takes only a part. */
  function Reached(script: seq<Relay.Read>, client: nat -> Relay.Write, i: nat): nat
    requires i < |script|
  {
    if script[i].chunk != [] && client(i).failed then 0 else 1
  }

  /** How many reads reach the parser: all of them, or those up to the first that the client does not
      accept, including that one if it was cut short without an error. */
  ghost predicate SeenUpTo(script: seq<Relay.Read>, client: nat -> Relay.Write, seen: nat) {
    var n := Relay.Answered(script);
    if Relay.AcceptsBefore(script, client, n) then seen == n
    else exists i: nat :: StopsAt(script, client, i) && seen == i + Reached(script, client, i)
  }

  /** Read `i` is the first that the client does not accept. */
  ghost predicate StopsAt(script: seq<Relay.Read>, client: nat -> Relay.Write, i: nat) {
    i < Relay.Answered(script) && Relay.AcceptsBefore(script, client, i) && !Relay.Accepts(script, client, i)
  }

  /** One read: the chunk goes through the parser to the client. `seen` reads have reached the
      parser then, all of them if the client took the chunk. */
  method Step(parser: Parser, chat: ChatAssembly.OpenAIChatExtractor, decode: Decode, script: seq<Relay.Read>,
      client: nat -> Relay.Write, relayed: Bytes, i: nat)
    returns (relayed': Bytes, outcome: Relay.Outcome, ghost seen: nat)
    requires i < Relay.Answered(script) && relayed == Relay.Source(script[..i]) && Fed(parser, chat, decode, relayed)
    requires Relay.AcceptsBefore(script, client, i)
    modifies parser, chat
    ensures seen <= Relay.Answered(script) && Fed(parser, chat, decode, Relay.Source(script[..seen]))
    ensures outcome.Complete? ==> Relay.AcceptsBefore(script, client, i + 1)
    ensures !outcome.Complete? ==>
      && SeenUpTo(script, client, seen)
      && !Relay.AcceptsBefore(script, client, Relay.Answered(script))
    ensures outcome.Complete? ==> seen == i + 1 && relayed' == Relay.Source(script[..seen])
  {
    Relay.SourceSnoc(script, i);
    var chunk, failed := script[i].chunk, client(i).failed;
    Pass(parser, chat, decode, chunk, failed);
    seen := i + Reached(script, client, i);
    assert relayed + [] == relayed;
    var written;
    relayed', written, outcome := Relay.Send(script, client, relayed, |relayed|, i);
    if !outcome.Complete? { Stopped(script, client, i); }
  }

  lemma Stopped(script: seq<Relay.Read>, client: nat -> Relay.Write, i: nat)
    requires StopsAt(script, client, i)
    ensures SeenUpTo(script, client, i + Reached(script, client, i))
    ensures !Relay.AcceptsBefore(script, client, Relay.Answered(script))
  {
  }

  lemma AllSeen(script: seq<Relay.Read>, client: nat -> Relay.Write, n: nat)
    requires n == Relay.Answered(script) && Relay.AcceptsBefore(script, client, n)
    ensures SeenUpTo(script, client, n)
  {
  }

  method RelayThrough(parser: Parser, chat: ChatAssembly.OpenAIChatExtractor, decode: Decode,
      script: seq<Relay.Read>, client: nat -> Relay.Write)
    returns (relayed: Bytes, ghost seen: nat)
    requires Fed(parser, chat, decode, [])
    modifies parser, chat
    ensures seen <= Relay.Answered(script) && SeenUpTo(script, client, seen)
    ensures Fed(parser, chat, decode, Relay.Source(script[..seen]))
    ensures Relay.AcceptsBefore(script, client, Relay.Answered(script)) ==> relayed == Relay.Stream(script)
  {
    var i, outcome := 0, Relay.Complete;
    relayed, seen := [], 0;
    while i < |script|
      invariant i <= Relay.Answered(script) && seen == i && (i > 0 ==> script[i - 1].end.More?)
      invariant relayed == Relay.Source(script[..i]) && Fed(parser, chat, decode, relayed)
      invariant Relay.AcceptsBefore(script, client, i)
    {
      relayed, outcome, seen := Step(parser, chat, decode, script, client, relayed, i);
      if !outcome.Complete? { return; }
      i := i + 1;
      if !script[i - 1].end.More? { break; }
    }
    AllSeen(script, client, i);
  }

  /** Relays a body and assembles the response. When the client takes everything, the response is
      that of the whole body: it depends on the bytes alone, not on how the reads cut them. When the
      client breaks off, it is that of the reads up to there. */
  method RelayAndAssemble(script: seq<Relay.Read>, client: nat -> Relay.Write, decode: Decode)
    returns (relayed: Bytes, r: ChatAssembly.Assembly, ghost seen: nat)
    ensures seen <= Relay.Answered(script) && SeenUpTo(script, client, seen)
    ensures r == ResponseOf(decode, Relay.Source(script[..seen]))
    ensures Relay.AcceptsBefore(script, client, Relay.Answered(script)) ==>
      relayed == Relay.Stream(script) && r == ResponseOf(decode, Relay.Stream(script))
  {
    var parser := new Sse.SseUsageExtractor<seq<Bytes>>(Append, []);
    var chat := new ChatAssembly.OpenAIChatExtractor();
    assert Events(decode, []) == [];
    relayed, seen := RelayThrough(parser, chat, decode, script, client);
    r := chat.AssembleSSE();
  }
}
