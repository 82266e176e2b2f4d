/** `copyStreamToClientAndCapture`: the loop that relays a response to the client and keeps a
    copy, for a reader and two writers that may return short counts and errors at any point. */
module Relay {
  import opened Common

  /** What `Read` returns at the end of a read: more to come, the end, or an error. */
  datatype ReadEnd = More | Eof | ReadError

  datatype Read = Read(chunk: Bytes, end: ReadEnd)

  /** What a writer does with a chunk: how much of it it takes, and whether it reports an error. */
  datatype Write = Write(taken: nat, failed: bool)

  datatype Outcome = Complete | ReadFailed | WriteFailed | ShortWrite

  /** The bytes that a run of reads returns. */
  function Source(script: seq<Read>): Bytes {
    if script == [] then [] else Source(script[..|script| - 1]) + script[|script| - 1].chunk
  }

  /** How many reads a reader answers: up to the first that ends the stream. */
  function Answered(script: seq<Read>): (n: nat)
    ensures n <= |script| && forall i | 0 <= i < n - 1 :: script[i].end.More?
    ensures n < |script| ==> 0 < n && !script[n - 1].end.More?
  {
    if script == [] then 0 else if !script[0].end.More? then 1 else 1 + Answered(script[1..])
  }

  /** Everything the reader would deliver to a loop that reads to the end. */
  function Stream(script: seq<Read>): Bytes {
    Source(script[..Answered(script)])
  }

  function Take(w: Write, chunk: Bytes): Bytes {
    if w.taken <= |chunk| then chunk[..w.taken] else chunk
  }

  lemma {:induction false} SourcePrefix(script: seq<Read>, n: nat)
    requires n <= |script|
    ensures Source(script[..n]) <= Source(script)
    decreases |script|
  {
    if n == |script| {
      assert script[..n] == script;
    } else {
      var front := script[..|script| - 1];
      SourcePrefix(front, n);
      assert front[..n] == script[..n];
    }
  }

  lemma SourceSnoc(script: seq<Read>, i: nat)
    requires i < |script|
    ensures Source(script[..i + 1]) == Source(script[..i]) + script[i].chunk
  {
    assert script[..i + 1][..i] == script[..i];
  }

  lemma SourceBelow(script: seq<Read>, i: nat, j: nat)
    requires i <= j <= |script|
    ensures Source(script[..i]) <= Source(script[..j])
  {
    SourcePrefix(script[..j], i);
    assert script[..j][..i] == script[..i];
  }

  /** Writer `w` takes all of chunk `i` without an error, or there is nothing to take. */
  predicate Accepts(script: seq<Read>, w: nat -> Write, i: nat)
    requires i < |script|
  {
    script[i].chunk == [] || (!w(i).failed && |script[i].chunk| <= w(i).taken)
  }

  ghost predicate AcceptsBefore(script: seq<Read>, w: nat -> Write, n: nat) {
    n <= |script| && forall i: nat | i < n :: Accepts(script, w, i)
  }

  /** What a writer holds after it took all chunks before `i` and its part of chunk `i`. */
  function Partly(script: seq<Read>, w: nat -> Write, i: nat): Bytes
    requires i < |script|
  {
    Source(script[..i]) + Take(w(i), script[i].chunk)
  }

  lemma PartlyBelow(script: seq<Read>, w: nat -> Write, i: nat, j: nat)
    requires i < j <= |script|
    ensures Partly(script, w, i) <= Source(script[..j])
  {
    SourceSnoc(script, i);
    SourceBelow(script, i + 1, j);
  }

  /** A copy of the stream: `writer` took every chunk before `n`, or broke off at `lost`. */
  ghost predicate CopyOf(script: seq<Read>, w: nat -> Write, copy: Bytes, n: nat, ok: bool, lost: nat) {
    && n <= |script|
    && if ok then AcceptsBefore(script, w, n) && copy == Source(script[..n])
       else lost < n && AcceptsBefore(script, w, lost) && !Accepts(script, w, lost) && copy == Partly(script, w, lost)
  }

  /** A copy that broke off earlier or as far is a prefix of one that goes on. */
  lemma CopyIsPrefix(script: seq<Read>, w: nat -> Write, copy: Bytes, n: nat, ok: bool, lost: nat)
    requires CopyOf(script, w, copy, n, ok, lost)
    ensures copy <= Source(script[..n])
  {
    if !ok { PartlyBelow(script, w, lost, n); }
  }

  /** The chunk goes to the capture writer; an error or a short count ends the capture. */
  method KeepCopy(script: seq<Read>, capture: nat -> Write, captured: Bytes, i: nat)
      returns (captured': Bytes, open: bool)
    requires i < |script| && CopyOf(script, capture, captured, i, true, 0)
    ensures CopyOf(script, capture, captured', i + 1, open, i)
  {
    SourceSnoc(script, i);
    var chunk := script[i].chunk;
    if |chunk| == 0 { return captured, true; }
    captured' := captured + Take(capture(i), chunk);
    open := !capture(i).failed && |Take(capture(i), chunk)| == |chunk|;
  }

  /** The chunk goes to the client; `Complete` says that the client took all of it. */
  method Send(script: seq<Read>, client: nat -> Write, relayed: Bytes, written: nat, i: nat)
    returns (relayed': Bytes, written': nat, outcome: Outcome)
    requires i < |script| && relayed == Source(script[..i]) && written == |relayed|
    ensures written' == |relayed'|
    ensures outcome
         == if Accepts(script, client, i) then Complete else if client(i).failed then WriteFailed else ShortWrite
    ensures relayed' == if outcome.Complete? then Source(script[..i + 1]) else Partly(script, client, i)
  {
    SourceSnoc(script, i);
    var chunk := script[i].chunk;
    relayed', written', outcome := relayed, written, Complete;
    if |chunk| > 0 {
      var w := client(i);
      relayed' := relayed + Take(w, chunk);
      written' := written + |Take(w, chunk)|;
      if w.failed { return relayed', written', WriteFailed; }
      if |Take(w, chunk)| != |chunk| { return relayed', written', ShortWrite; }
    }
  }

  /** What the loop has done after `n` reads in full: the client has everything, and the capture has
      everything or broke off at `lost`. */
  ghost predicate Forwarded(script: seq<Read>, client: nat -> Write, capture: nat -> Write, capturing: bool,
      relayed: Bytes, captured: Bytes, captureOk: bool, n: nat, lost: nat) {
    && AcceptsBefore(script, client, n) && relayed == Source(script[..n])
    && Captured(script, capture, capturing, captured, captureOk, n, lost)
  }

  ghost predicate Captured(script: seq<Read>, capture: nat -> Write, capturing: bool, captured: Bytes,
      captureOk: bool, n: nat, lost: nat) {
    if capturing then CopyOf(script, capture, captured, n, captureOk, lost) else captureOk && captured == []
  }

  /** One read: the chunk goes to the client and, if the client took it, to the capture. */
  method Forward(script: seq<Read>, client: nat -> Write, capture: nat -> Write, capturing: bool, relayed: Bytes,
      captured: Bytes, captureOk: bool, i: nat, ghost lost: nat)
    returns (relayed': Bytes, captured': Bytes, captureOk': bool, outcome: Outcome, ghost lost': nat)
    requires i < |script| && Forwarded(script, client, capture, capturing, relayed, captured, captureOk, i, lost)
    ensures outcome
         == if Accepts(script, client, i) then Complete else if client(i).failed then WriteFailed else ShortWrite
    ensures relayed' == if outcome.Complete? then Source(script[..i + 1]) else Partly(script, client, i)
    ensures outcome.Complete? ==>
      Forwarded(script, client, capture, capturing, relayed', captured', captureOk', i + 1, lost')
    ensures !outcome.Complete? ==> Captured(script, capture, capturing, captured', captureOk', i, lost')
  {
    var written;
    relayed', written, outcome := Send(script, client, relayed, |relayed|, i);
    captured', captureOk', lost' := captured, captureOk, lost;
    if outcome.Complete? && capturing && captureOk {
      captured', captureOk' := KeepCopy(script, capture, captured, i);
      lost' := i;
    }
  }

  /** `client` and `capture` say how the two writers behave on each chunk; a reader that is
      asked beyond its script is at its end. The loop handles `n` reads in full; `lost` is where
      the capture broke off. */
  method RelayLoop(script: seq<Read>, client: nat -> Write, capture: nat -> Write, capturing: bool)
    returns (relayed: Bytes, captured: Bytes, outcome: Outcome, captureOk: bool, ghost n: nat, ghost lost: nat)
    ensures n <= Answered(script) && AcceptsBefore(script, client, n)
    ensures outcome.WriteFailed? || outcome.ShortWrite? ==>
      && n < Answered(script) && !Accepts(script, client, n) && relayed == Partly(script, client, n)
      && (outcome.WriteFailed? <==> client(n).failed)
    ensures outcome.Complete? || outcome.ReadFailed? ==>
      && n == Answered(script) && (outcome.ReadFailed? <==> n > 0 && script[n - 1].end.ReadError?)
    ensures outcome.Complete? || outcome.ReadFailed? ==> relayed == Stream(script)
    ensures Captured(script, capture, capturing, captured, captureOk, n, lost)
  {
    relayed, captured, captureOk, n, lost := [], [], true, 0, 0;
    var i := 0;
    while i < |script|
      invariant n == i <= Answered(script) && (i > 0 ==> script[i - 1].end.More?)
      invariant Forwarded(script, client, capture, capturing, relayed, captured, captureOk, i, lost)
    {
      relayed, captured, captureOk, outcome, lost :=
        Forward(script, client, capture, capturing, relayed, captured, captureOk, i, lost);
      if !outcome.Complete? { return; }
      i, n := i + 1, i + 1;
      if script[i - 1].end.Eof? { return; }
      if script[i - 1].end.ReadError? {
        outcome := ReadFailed;
        return;
      }
    }
    outcome := Complete;
  }

  lemma PrefixesOfTheStream(script: seq<Read>, client: nat -> Write, capture: nat -> Write, relayed: Bytes,
      captured: Bytes, captureOk: bool, n: nat, lost: nat)
    requires n <= Answered(script) && CopyOf(script, capture, captured, n, captureOk, lost)
    requires relayed == Source(script[..n]) || (n < Answered(script) && relayed == Partly(script, client, n))
    ensures captured <= relayed <= Stream(script)
    ensures relayed == Source(script[..n]) && captureOk ==> captured == relayed
  {
    CopyIsPrefix(script, capture, captured, n, captureOk, lost);
    SourceBelow(script, n, Answered(script));
    if n < Answered(script) { PartlyBelow(script, client, n, Answered(script)); }
  }

  /** `copyStreamToClientAndCapture`. At every return the copy is a prefix of what the client got,
      which is a prefix of the stream of length `written`; all three are equal when the stream was
      read to its end and the capture held. */
  method CopyStream(script: seq<Read>, client: nat -> Write, capture: nat -> Write, capturing: bool)
    returns (written: nat, relayed: Bytes, captured: Bytes, outcome: Outcome, captureOk: bool)
    ensures written == |relayed| && captured <= relayed <= Stream(script)
    ensures outcome.Complete? || outcome.ReadFailed? ==>
      relayed == Stream(script) && (capturing && captureOk ==> captured == relayed)
    ensures (outcome.Complete? || outcome.ReadFailed?) <==> AcceptsBefore(script, client, Answered(script))
    ensures outcome.ReadFailed? ==> Answered(script) > 0 && script[Answered(script) - 1].end.ReadError?
    ensures outcome.Complete? ==> Answered(script) == 0 || !script[Answered(script) - 1].end.ReadError?
    ensures capturing && AcceptsBefore(script, capture, Answered(script)) ==> captureOk
  {
    ghost var n, lost;
    relayed, captured, outcome, captureOk, n, lost := RelayLoop(script, client, capture, capturing);
    written := |relayed|;
    if capturing {
      PrefixesOfTheStream(script, client, capture, relayed, captured, captureOk, n, lost);
    } else {
      SourceBelow(script, n, Answered(script));
      if n < Answered(script) { PartlyBelow(script, client, n, Answered(script)); }
    }
  }
}
