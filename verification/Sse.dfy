/** The server-sent-event line parser that the gateway runs over a streamed response. It is a
    subset of sections 9.2.5 and 9.2.6 of the WHATWG HTML Standard: only LF ends a line,
    trailing CRs are trimmed, and `data: ` needs its space. */
module Sse {
  import opened Common

  const LF: byte := 10
  const CR: byte := 13
  const SPACE: byte := 32
  /** "data: " */
  const PREFIX: Bytes := [100, 97, 116, 97, 58, 32]
  /** "[DONE]" */
  const DONE: Bytes := [91, 68, 79, 78, 69, 93]

  // ----- lines -----

  /** The length of the first line, or of all of `s` when it holds no LF. */
  function LineLength(s: Bytes): (n: nat)
    ensures n <= |s| && LF !in s[..n] && (n < |s| ==> s[n] == LF)
  {
    if s == [] || s[0] == LF then 0
    else
      var n := LineLength(s[1..]);
      assert s[..n + 1] == [s[0]] + s[1..][..n];
      n + 1
  }

  predicate HasLine(s: Bytes) {
    LineLength(s) < |s|
  }

  /** The complete lines of `s`, without their LF, and what follows the last LF. */
  function Lines(s: Bytes): seq<Bytes>
    decreases |s|
  {
    var n := LineLength(s);
    if n == |s| then [] else [s[..n]] + Lines(s[n + 1..])
  }

  function Tail(s: Bytes): Bytes
    decreases |s|
  {
    var n := LineLength(s);
    if n == |s| then s else Tail(s[n + 1..])
  }

  function Unsplit(lines: seq<Bytes>): Bytes {
    if lines == [] then [] else lines[0] + [LF] + Unsplit(lines[1..])
  }

  lemma UnsplitCons(l: Bytes, ls: seq<Bytes>)
    ensures Unsplit([l] + ls) == l + [LF] + Unsplit(ls)
  {
    assert ([l] + ls)[1..] == ls;
  }

  lemma CutAtLF(s: Bytes)
    requires HasLine(s)
    ensures s == s[..LineLength(s)] + [LF] + s[LineLength(s) + 1..]
  {
  }

  /** One step of the split, front to back. */
  lemma SplitStep(s: Bytes)
    requires HasLine(s)
    ensures var n := LineLength(s);
            && s == s[..n] + [LF] + s[n + 1..]
            && Lines(s) == [s[..n]] + Lines(s[n + 1..]) && Tail(s) == Tail(s[n + 1..])
            && Unsplit(Lines(s)) == s[..n] + [LF] + Unsplit(Lines(s[n + 1..]))
  {
    var n := LineLength(s);
    CutAtLF(s);
    UnsplitCons(s[..n], Lines(s[n + 1..]));
  }

  /** Splitting loses nothing, and neither the lines nor the tail hold an LF. */
  lemma {:induction false} SplitIsLossless(s: Bytes)
    ensures Unsplit(Lines(s)) + Tail(s) == s
    ensures LF !in Tail(s) && forall l | l in Lines(s) :: LF !in l
    decreases |s|
  {
    var n := LineLength(s);
    if n < |s| {
      SplitStep(s);
      SplitIsLossless(s[n + 1..]);
      Assoc(s[..n] + [LF], Unsplit(Lines(s[n + 1..])), Tail(s[n + 1..]));
    } else {
      assert s[..n] == s;
    }
  }

  lemma {:induction false} FirstLine(l: Bytes, rest: Bytes)
    requires LF !in l
    ensures LineLength(l + [LF] + rest) == |l|
    decreases |l|
  {
    var s := l + [LF] + rest;
    if l != [] {
      FirstLine(l[1..], rest);
      assert s[0] == l[0] && s[1..] == l[1..] + [LF] + rest;
    }
  }

  lemma {:induction false} NoLine(s: Bytes)
    requires LF !in s
    ensures LineLength(s) == |s|
    decreases |s|
  {
    if s != [] { NoLine(s[1..]); }
  }

  /** It is the only such split. */
  lemma {:induction false} SplitIsUnique(lines: seq<Bytes>, tail: Bytes)
    requires LF !in tail && forall l | l in lines :: LF !in l
    ensures Lines(Unsplit(lines) + tail) == lines && Tail(Unsplit(lines) + tail) == tail
    decreases |lines|
  {
    if lines == [] {
      assert Unsplit(lines) + tail == tail;
      NoLine(tail);
    } else {
      var rest := Unsplit(lines[1..]) + tail;
      var s := Unsplit(lines) + tail;
      Assoc(lines[0] + [LF], Unsplit(lines[1..]), tail);
      FirstLine(lines[0], rest);
      SplitIsUnique(lines[1..], tail);
      assert s[..|lines[0]|] == lines[0] && s[|lines[0]| + 1..] == rest;
    }
  }

  /** What one write leaves in the buffer is all that later writes need of it. */
  lemma SplitOfConcat(a: Bytes, b: Bytes)
    ensures Lines(a + b) == Lines(a) + Lines(Tail(a) + b)
    ensures Tail(a + b) == Tail(Tail(a) + b)
  {
    var c := Tail(a) + b;
    SplitIsLossless(a);
    SplitIsLossless(c);
    Rejoin(Lines(a), Tail(a), b, Lines(c), Tail(c));
    SplitIsUnique(Lines(a) + Lines(c), Tail(c));
  }

  lemma Rejoin(xs: seq<Bytes>, t: Bytes, b: Bytes, ys: seq<Bytes>, u: Bytes)
    requires Unsplit(ys) + u == t + b
    ensures Unsplit(xs + ys) + u == Unsplit(xs) + t + b
  {
    UnsplitConcat(xs, ys);
    Assoc(Unsplit(xs), Unsplit(ys), u);
    Assoc(Unsplit(xs), t, b);
  }

  lemma {:induction false} UnsplitConcat(xs: seq<Bytes>, ys: seq<Bytes>)
    ensures Unsplit(xs + ys) == Unsplit(xs) + Unsplit(ys)
    decreases |xs|
  {
    if xs == [] {
      assert xs + ys == ys;
    } else {
      UnsplitConcat(xs[1..], ys);
      assert (xs + ys)[0] == xs[0] && (xs + ys)[1..] == xs[1..] + ys;
      assert xs[0] + [LF] + (Unsplit(xs[1..]) + Unsplit(ys)) == xs[0] + [LF] + Unsplit(xs[1..]) + Unsplit(ys);
    }
  }

  // ----- payloads -----

  function TrimCR(line: Bytes): Bytes {
    if line != [] && line[|line| - 1] == CR then TrimCR(line[..|line| - 1]) else line
  }

  function TrimSpaces(s: Bytes): Bytes {
    if s != [] && s[0] == SPACE then TrimSpaces(s[1..]) else s
  }

  /** What a line gives the extractor: the trimmed text after `data: `, unless it is `[DONE]`. */
  function Payload(line: Bytes): Option<Bytes> {
    var l := TrimCR(line);
    if !(PREFIX <= l) then None
    else
      var p := TrimSpaces(l[|PREFIX|..]);
      if p == DONE then None else Some(p)
  }

  function PayloadOf(line: Bytes): seq<Bytes> {
    if Payload(line).Some? then [Payload(line).value] else []
  }

  function Payloads(lines: seq<Bytes>): seq<Bytes> {
    if lines == [] then []
    else PayloadOf(lines[0]) + Payloads(lines[1..])
  }

  lemma {:induction false} PayloadsConcat(xs: seq<Bytes>, ys: seq<Bytes>)
    ensures Payloads(xs + ys) == Payloads(xs) + Payloads(ys)
    decreases |xs|
  {
    if xs == [] {
      assert xs + ys == ys;
    } else {
      PayloadsConcat(xs[1..], ys);
      assert (xs + ys)[0] == xs[0] && (xs + ys)[1..] == xs[1..] + ys;
      Assoc(PayloadOf(xs[0]), Payloads(xs[1..]), Payloads(ys));
    }
  }

  /** The extractor's state after a sequence of payloads. */
  function Feed<S>(process: (S, Bytes) -> S, init: S, payloads: seq<Bytes>): S {
    if payloads == [] then init
    else process(Feed(process, init, payloads[..|payloads| - 1]), payloads[|payloads| - 1])
  }

  lemma {:induction false} FeedConcat<S>(process: (S, Bytes) -> S, init: S, xs: seq<Bytes>, ys: seq<Bytes>)
    ensures Feed(process, init, xs + ys) == Feed(process, Feed(process, init, xs), ys)
    decreases |ys|
  {
    if ys == [] {
      assert xs + ys == xs;
    } else {
      FeedConcat(process, init, xs, ys[..|ys| - 1]);
      assert (xs + ys)[..|xs + ys| - 1] == xs + ys[..|ys| - 1];
    }
  }

  /** What the first complete line does to the extractor. */
  lemma FeedLine<S>(process: (S, Bytes) -> S, ext: S, buf: Bytes)
    requires HasLine(buf)
    ensures var p, rest := Payload(buf[..LineLength(buf)]), buf[LineLength(buf) + 1..];
      && Tail(buf) == Tail(rest)
      && Feed(process, ext, Payloads(Lines(buf)))
         == Feed(process, if p.Some? then process(ext, p.value) else ext, Payloads(Lines(rest)))
  {
    var line, rest := buf[..LineLength(buf)], buf[LineLength(buf) + 1..];
    SplitStep(buf);
    PayloadsConcat([line], Lines(rest));
    var ps := Payloads([line]);
    assert ps == PayloadOf(line);
    FeedConcat(process, ext, ps, Payloads(Lines(rest)));
    assert ps != [] ==> ps[..0] == [];
  }

  /** A write continues where the tail of the earlier bytes left off. */
  lemma FeedMore<S>(process: (S, Bytes) -> S, init: S, sent: Bytes, p: Bytes)
    ensures Tail(sent + p) == Tail(Tail(sent) + p)
    ensures Feed(process, init, Payloads(Lines(sent + p)))
         == Feed(process, Feed(process, init, Payloads(Lines(sent))), Payloads(Lines(Tail(sent) + p)))
  {
    SplitOfConcat(sent, p);
    PayloadsConcat(Lines(sent), Lines(Tail(sent) + p));
    FeedConcat(process, init, Payloads(Lines(sent)), Payloads(Lines(Tail(sent) + p)));
  }

  // ----- the writer -----

  /** The loop of `Write`: every complete line leaves the buffer, and its payload is processed. */
  method Drain<S>(process: (S, Bytes) -> S, ext0: S, buf0: Bytes) returns (ext: S, buf: Bytes)
    ensures buf == Tail(buf0) && ext == Feed(process, ext0, Payloads(Lines(buf0)))
  {
    ext, buf := ext0, buf0;
    while HasLine(buf)
      invariant Tail(buf) == Tail(buf0)
      invariant Feed(process, ext, Payloads(Lines(buf))) == Feed(process, ext0, Payloads(Lines(buf0)))
      decreases |buf|
    {
      ext, buf := ProcessLine(process, ext, buf);
    }
  }

  /** The first complete line leaves the buffer; nothing else about the outcome changes. */
  method ProcessLine<S>(process: (S, Bytes) -> S, ext: S, buf: Bytes) returns (ext': S, buf': Bytes)
    requires HasLine(buf)
    ensures |buf'| < |buf| && Tail(buf') == Tail(buf)
    ensures Feed(process, ext', Payloads(Lines(buf'))) == Feed(process, ext, Payloads(Lines(buf)))
  {
    FeedLine(process, ext, buf);
    var idx := LineLength(buf);
    var line := buf[..idx];
    buf' := buf[idx + 1..];
    var payload := Payload(line);
    ext' := if payload.Some? then process(ext, payload.value) else ext;
  }

  /** `sseUsageExtractor` over an extractor with state `S`. `sent` is every byte that was
      written successfully; the object's state depends on those bytes alone. */
  class SseUsageExtractor<S(!new)> {
    var buf: Bytes
    var ext: S
    const process: (S, Bytes) -> S
    const init: S
    ghost var sent: Bytes

    ghost predicate Valid()
      reads this
    {
      buf == Tail(sent) && ext == Feed(process, init, Payloads(Lines(sent)))
    }

    constructor (process: (S, Bytes) -> S, init: S)
      ensures Valid() && sent == [] && this.process == process && this.init == init
    {
      this.process, this.init := process, init;
      buf, ext, sent := [], init, [];
    }

    /** `Write`; `ok` says whether the underlying writer accepted the chunk. */
    method Write(p: Bytes, ok: bool)
      requires Valid()
      modifies this
      ensures Valid() && sent == if ok then old(sent) + p else old(sent)
    {
      if !ok { return; }
      ext, buf := Drain(process, ext, buf + p);
      sent := sent + p;
      FeedMore(process, init, old(sent), p);
    }
  }

  // ----- chunk independence -----

  function Concat(chunks: seq<Bytes>): Bytes {
    if chunks == [] then [] else Concat(chunks[..|chunks| - 1]) + chunks[|chunks| - 1]
  }

  /** The copy loop of a stream writes chunk by chunk. Whatever the chunks, the extractor ends in
      the state of parsing all complete lines of the whole stream at once. */
  method WriteChunks<S(!new)>(process: (S, Bytes) -> S, init: S, chunks: seq<Bytes>) returns (state: S, buffered: Bytes)
    ensures state == Feed(process, init, Payloads(Lines(Concat(chunks))))
    ensures buffered == Tail(Concat(chunks)) && LF !in buffered
  {
    var e := new SseUsageExtractor(process, init);
    for i := 0 to |chunks|
      invariant e.Valid() && e.sent == Concat(chunks[..i])
      invariant e.process == process && e.init == init
    {
      assert chunks[..i + 1][..i] == chunks[..i];
      e.Write(chunks[i], true);
    }
    assert chunks[..|chunks|] == chunks;
    SplitIsLossless(e.sent);
    state, buffered := e.ext, e.buf;
  }
}
