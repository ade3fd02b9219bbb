/**
 The HTTP/2 streaming reply of evhtp.c: the application starts a reply, supplies body and ends it;
 the session pulls body when the peer's window allows, parks the stream when told there is none
 yet, and is resumed by more body or the end.

 `Step` is what each call does to a reply, `H2Reply` is the request object that does it, and the
 rest is what holds over every run of calls and pulls, in any order.
 */
module H2Stream {
  import opened Prelude

  /** A DATA frame: some bytes, and whether it ends the stream. */
  datatype Frame = Frame(bytes: string, eof: bool)

  /** The session's side: no response yet, will pull, parked until resumed, or ended. */
  datatype Source = Unattached | Ready | Parked | Ended

  datatype Reply = Reply(buffer: string, streaming: bool, finished: bool, source: Source, frames: seq<Frame>)

  /**
   What can happen to a reply. `taken` is whether the session takes the response; it takes at most
   one. A pull asks for at most `length` bytes.
   */
  datatype Op = Start(taken: bool) | Body(bytes: string) | End | Pull(length: nat)

  /** nghttp2_session_resume_data: only a parked stream is woken. */
  function Resumed(r: Reply): Reply {
    if r.source.Parked? then r.(source := Ready) else r
  }

  datatype Answer = Deferred | Data(bytes: string, eof: bool)

  /** h2__stream_read_cb_: what a pull is answered. */
  function AnswerTo(r: Reply, length: nat): Answer {
    var n := Min(|r.buffer|, length);
    if n == 0 && !r.finished then Deferred else Data(r.buffer[..n], r.finished && |r.buffer| == n)
  }

  function Pulled(r: Reply, length: nat): Reply {
    match AnswerTo(r, length)
    case Deferred => r.(source := Parked)
    case Data(bytes, eof) =>
      r.(buffer := r.buffer[Min(|r.buffer|, length)..], frames := r.frames + [Frame(bytes, eof)],
         source := if eof then Ended else Ready)
  }

  function Step(r: Reply, op: Op): Reply {
    match op
    case Start(taken) => if taken && r.source.Unattached? then r.(source := Ready, streaming := true) else r
    case Body(bytes) => if !r.streaming || r.finished then r else Resumed(r.(buffer := r.buffer + bytes))
    case End => var r1 := r.(finished := true); if r.streaming then Resumed(r1) else r1
    case Pull(length) => if r.source.Ready? && length > 0 then Pulled(r, length) else r
  }

  /** A request whose buffer_out already holds some bytes. */
  function Fresh(buffer: string): Reply {
    Reply(buffer, false, false, Unattached, [])
  }

  function Run(r: Reply, ops: seq<Op>): Reply
    decreases |ops|
  {
    if ops == [] then r else Step(Run(r, ops[..|ops| - 1]), ops[|ops| - 1])
  }

  // ---------------------------------------------------------------------------------------
  // What was given and what was sent
  // ---------------------------------------------------------------------------------------

  /** The calls that are in force: a start the session took, and an end. */
  predicate Started(ops: seq<Op>) {
    exists i :: 0 <= i < |ops| && ops[i] == Start(true)
  }

  predicate Closed(ops: seq<Op>) {
    End in ops
  }

  /** The bytes the application got accepted: those of body calls after a start and before any end. */
  function Given(first: string, ops: seq<Op>): string
    decreases |ops|
  {
    if ops == [] then first
    else
      var rest := ops[..|ops| - 1];
      var last := ops[|ops| - 1];
      Given(first, rest) + (if last.Body? && Started(rest) && !Closed(rest) then last.bytes else "")
  }

  /** The bytes of the frames. */
  function Sent(frames: seq<Frame>): string
    decreases |frames|
  {
    if frames == [] then "" else Sent(frames[..|frames| - 1]) + frames[|frames| - 1].bytes
  }

  /** Frames in the shape of a stream: none is empty unless it ends the stream, and only the last does. */
  predicate Stream(frames: seq<Frame>) {
    forall i :: 0 <= i < |frames| ==> (frames[i].eof || frames[i].bytes != "") && (frames[i].eof ==> i == |frames| - 1)
  }

  predicate HasEof(frames: seq<Frame>) {
    frames != [] && frames[|frames| - 1].eof
  }

  predicate Inv(r: Reply, given: string) {
    && Sent(r.frames) + r.buffer == given
    && Stream(r.frames)
    && (HasEof(r.frames) <==> r.source.Ended?)
    && (r.source.Ended? ==> r.finished && r.buffer == "")
    && (r.source.Parked? ==> !r.finished && r.buffer == "")
    && (r.streaming <==> !r.source.Unattached?)
    && (!r.streaming ==> r.frames == [])
  }

  lemma {:induction false} SentSnoc(frames: seq<Frame>, f: Frame)
    ensures Sent(frames + [f]) == Sent(frames) + f.bytes
  {
    assert (frames + [f])[..|frames|] == frames;
  }

  lemma {:induction false} PullKeeps(r: Reply, length: nat, given: string)
    requires Inv(r, given) && r.source.Ready? && length > 0
    ensures Inv(Pulled(r, length), given)
  {
    hide Sent, Stream;
    var n := Min(|r.buffer|, length);
    var f := Frame(r.buffer[..n], r.finished && |r.buffer| == n);
    if AnswerTo(r, length).Data? {
      SentSnoc(r.frames, f);
      SplitJoins(Sent(r.frames), r.buffer, n);
      StreamSnoc(r.frames, f);
    }
  }

  lemma {:induction false} SplitJoins(a: string, b: string, n: nat)
    requires n <= |b|
    ensures a + b[..n] + b[n..] == a + b
  {
    assert b[..n] + b[n..] == b;
  }

  /** A frame after a stream that has not ended: the stream goes on, or ends with it. */
  lemma {:induction false} StreamSnoc(frames: seq<Frame>, f: Frame)
    requires Stream(frames) && !HasEof(frames) && (f.eof || f.bytes != "")
    ensures Stream(frames + [f])
  {
    var all := frames + [f];
    forall i | 0 <= i < |all|
      ensures (all[i].eof || all[i].bytes != "") && (all[i].eof ==> i == |all| - 1)
    {
      assert i < |frames| ==> all[i] == frames[i];
    }
  }

  lemma {:induction false} StepKeeps(r: Reply, op: Op, given: string)
    requires Inv(r, given)
    ensures Inv(Step(r, op), given + (if op.Body? && r.streaming && !r.finished then op.bytes else ""))
  {
    if op.Pull? && r.source.Ready? && op.length > 0 {
      PullKeeps(r, op.length, given);
    }
    if op.Body? {
      assert Sent(r.frames) + (r.buffer + op.bytes) == Sent(r.frames) + r.buffer + op.bytes;
    }
  }

  lemma {:induction false} StartedSnoc(ops: seq<Op>, op: Op)
    ensures Started(ops + [op]) <==> Started(ops) || op == Start(true)
    ensures Closed(ops + [op]) <==> Closed(ops) || op.End?
  {
    assert forall i :: 0 <= i < |ops| ==> (ops + [op])[i] == ops[i];
    assert (ops + [op])[|ops|] == op;
    if Started(ops) {
      var i :| 0 <= i < |ops| && ops[i] == Start(true);
      assert (ops + [op])[i] == Start(true);
    }
  }

  /**
   Over every run: what was sent and what waits are together what was given, in order; frames form
   a stream; an ended stream sent everything after the end; and a parked stream has nothing to send
   and no end to announce.
   */
  lemma {:induction false} EveryRun(first: string, ops: seq<Op>)
    ensures var r := Run(Fresh(first), ops);
      Inv(r, Given(first, ops)) && (r.streaming <==> Started(ops)) && (r.finished <==> Closed(ops))
    decreases |ops|
  {
    if ops == [] {
      assert Sent([]) + first == first;
    } else {
      var before, op := ops[..|ops| - 1], ops[|ops| - 1];
      hide Inv, Step, Started, Closed;
      EveryRun(first, before);
      StepKeeps(Run(Fresh(first), before), op, Given(first, before));
      StepFlags(Run(Fresh(first), before), op, Given(first, before));
      assert ops == before + [op];
      StartedSnoc(before, op);
    }
  }

  /** A step starts and ends a reply as its call says. */
  lemma {:induction false} StepFlags(r: Reply, op: Op, given: string)
    requires Inv(r, given)
    ensures Step(r, op).streaming <==> r.streaming || op == Start(true)
    ensures Step(r, op).finished <==> r.finished || op.End?
  {
    hide Sent, Stream, HasEof;
  }

  /** The stream is ended by one frame, and then exactly the given bytes were sent, after the end call. */
  lemma {:induction false} EofOnceAndLast(first: string, ops: seq<Op>, i: nat)
    requires var fs := Run(Fresh(first), ops).frames; i < |fs| && fs[i].eof
    ensures var r := Run(Fresh(first), ops);
      && i == |r.frames| - 1 && (forall j :: 0 <= j < |r.frames| && r.frames[j].eof ==> j == i)
      && Sent(r.frames) == Given(first, ops) && Started(ops) && Closed(ops)
  {
    EveryRun(first, ops);
    var r := Run(Fresh(first), ops);
    assert Sent(r.frames) + "" == Sent(r.frames);
  }

  /** Once ended, nothing changes what was sent. */
  lemma {:induction false} EndedStays(r: Reply, op: Op, given: string)
    requires Inv(r, given) && r.source.Ended?
    ensures Step(r, op) == r
  {
  }

  // ---------------------------------------------------------------------------------------
  // No reply stalls
  // ---------------------------------------------------------------------------------------

  /** A started, unended stream is either waiting to be pulled or has, for now, nothing for the peer. */
  lemma {:induction false} NeverStalls(first: string, ops: seq<Op>)
    requires Started(ops)
    ensures var r := Run(Fresh(first), ops);
      r.source.Ended? || r.source.Ready? || (r.source.Parked? && Sent(r.frames) == Given(first, ops) && !Closed(ops))
  {
    EveryRun(first, ops);
    var r := Run(Fresh(first), ops);
    assert Sent(r.frames) + "" == Sent(r.frames);
  }

  function Pulls(lengths: seq<nat>): seq<Op> {
    seq(|lengths|, i requires 0 <= i < |lengths| => Pull(lengths[i]))
  }

  lemma {:induction false} PullsSnoc(lengths: seq<nat>)
    requires lengths != []
    ensures Pulls(lengths) == Pulls(lengths[..|lengths| - 1]) + [Pull(lengths[|lengths| - 1])]
  {
  }

  /** Pulls of a finished stream shrink the buffer, until the one that empties it ends the stream. */
  lemma {:induction false} PullsDrain(r: Reply, given: string, lengths: seq<nat>)
    requires Inv(r, given) && r.streaming && r.finished && forall i :: 0 <= i < |lengths| ==> lengths[i] > 0
    ensures var r' := Run(r, Pulls(lengths));
      Inv(r', given) && r'.streaming && r'.finished &&
        (r'.source.Ended? || (r'.source.Ready? && |r'.buffer| + |lengths| <= |r.buffer|))
    decreases |lengths|
  {
    if lengths != [] {
      var before := lengths[..|lengths| - 1];
      PullsDrain(r, given, before);
      PullsSnoc(lengths);
      var ops := Pulls(lengths);
      assert ops[..|ops| - 1] == Pulls(before);
      var r1 := Run(r, Pulls(before));
      StepKeeps(r1, ops[|ops| - 1], given);
      assert given + "" == given;
    }
  }

  lemma {:induction false} RunJoins(r: Reply, a: seq<Op>, b: seq<Op>)
    ensures Run(r, a + b) == Run(Run(r, a), b)
    decreases |b|
  {
    if b == [] {
      assert a + b == a;
    } else {
      assert (a + b)[..|a + b| - 1] == a + b[..|b| - 1];
      RunJoins(r, a, b[..|b| - 1]);
    }
  }

  /**
   After the end, pulls of any positive lengths, one more than there are bytes waiting, deliver
   everything that was given and end the stream.
   */
  lemma {:induction false} EndDelivers(first: string, ops: seq<Op>, lengths: seq<nat>)
    requires Started(ops) && Closed(ops) && forall i :: 0 <= i < |lengths| ==> lengths[i] > 0
    requires |lengths| > |Run(Fresh(first), ops).buffer|
    ensures var r := Run(Fresh(first), ops + Pulls(lengths));
      r.source.Ended? && HasEof(r.frames) && Sent(r.frames) == Given(first, ops)
  {
    EveryRun(first, ops);
    var r := Run(Fresh(first), ops);
    PullsDrain(r, Given(first, ops), lengths);
    RunJoins(Fresh(first), ops, Pulls(lengths));
    var r' := Run(r, Pulls(lengths));
    assert Sent(r'.frames) + "" == Sent(r'.frames);
  }

  // ---------------------------------------------------------------------------------------
  // The request object
  // ---------------------------------------------------------------------------------------

  /** The parts of an evhtp_request_t a streaming reply uses, and its stream's side in the session. */
  class H2Reply {
    var bufferOut: string
    var streaming: bool
    var finished: bool
    var source: Source
    var frames: seq<Frame>

    function Snap(): Reply
      reads this
    {
      Reply(bufferOut, streaming, finished, source, frames)
    }

    constructor (buffer: string)
      ensures Snap() == Fresh(buffer)
    {
      bufferOut, streaming, finished, source, frames := buffer, false, false, Unattached, [];
    }

    /** evhtp_h2_send_reply_start. */
    method SendReplyStart(taken: bool) returns (rc: int)
      modifies this`source, this`streaming
      ensures Snap() == Step(old(Snap()), Start(taken))
      ensures rc == (if taken && old(source).Unattached? then 0 else -1)
    {
      if !(taken && source.Unattached?) {
        return -1;
      }
      source := Ready;
      streaming := true;
      rc := 0;
    }

    /** h2__stream_resume_. */
    method Resume()
      modifies this`source
      ensures Snap() == Resumed(old(Snap()))
    {
      if source.Parked? {
        source := Ready;
      }
    }

    /** evhtp_h2_send_reply_body. */
    method SendReplyBody(bytes: string) returns (rc: int)
      modifies this`bufferOut, this`source
      ensures Snap() == Step(old(Snap()), Body(bytes))
      ensures rc == (if streaming && !finished then 0 else -1)
    {
      if !streaming || finished {
        return -1;
      }
      bufferOut := bufferOut + bytes;
      Resume();
      rc := 0;
    }

    /** evhtp_h2_send_reply_end. */
    method SendReplyEnd()
      modifies this`finished, this`source
      ensures Snap() == Step(old(Snap()), End)
    {
      finished := true;
      if streaming {
        Resume();
      }
    }

    /** h2__stream_read_cb_. */
    method ReadCallback(length: nat) returns (answer: Answer)
      modifies this`bufferOut
      ensures answer == AnswerTo(old(Snap()), length)
      ensures bufferOut == if answer.Deferred? then old(bufferOut) else old(bufferOut)[|answer.bytes|..]
      ensures answer.Data? ==> |answer.bytes| <= length
    {
      var avail := |bufferOut|;
      var n := if avail < length then avail else length;
      if n == 0 && !finished {
        return Deferred;
      }
      var bytes := bufferOut[..n];
      if n > 0 {
        bufferOut := bufferOut[n..];
      }
      answer := Data(bytes, finished && |bufferOut| == 0);
    }

    /** The session pulls: it parks a stream that defers and ends one that says so. */
    method SessionPull(length: nat)
      requires source.Ready? && length > 0
      modifies this`bufferOut, this`source, this`frames
      ensures Snap() == Step(old(Snap()), Pull(length))
    {
      var answer := ReadCallback(length);
      if answer.Deferred? {
        source := Parked;
      } else {
        frames := frames + [Frame(answer.bytes, answer.eof)];
        if answer.eof {
          source := Ended;
        }
      }
    }
  }
}
