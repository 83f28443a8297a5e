/**
 * `subscribeSession`: the queue between the gRPC callbacks of one session stream and the iterator
 * that consumes it.  Callbacks and iterator steps interleave freely, each running to completion.
 */
module FrameQueue {
  import opened Prelude

  /** What a chunk of the stream holds. */
  datatype Chunk<+E> = InlineError(code: string) | Enveloped(sessionId: string, envelope: E) | EmptyChunk

  datatype Frame<+E> = ErrorFrame(code: string) | EnvelopeFrame(envelope: E)

  datatype Pull<+E> = Opened | Item(frame: Frame<E>) | Finished | Threw(failure: string) | Waits

  datatype Call = NoCall | Running | Cancelled

  /** The frames a subscriber to `sessionId` accepts: inline errors, and envelopes of that session. */
  function Accepted<E>(sessionId: string, chunks: seq<Chunk<E>>): seq<Frame<E>>
    decreases |chunks|
  {
    if chunks == [] then [] else Accepted(sessionId, chunks[..|chunks| - 1]) + Accept(sessionId, chunks[|chunks| - 1])
  }

  function Accept<E>(sessionId: string, c: Chunk<E>): seq<Frame<E>> {
    match c
    case InlineError(code) => [ErrorFrame(code)]
    case Enveloped(id, e) => if id == "" || id != sessionId then [] else [EnvelopeFrame(e)]
    case EmptyChunk => []
  }

  lemma {:induction false} AcceptedAppend<E>(sessionId: string, chunks: seq<Chunk<E>>, c: Chunk<E>,
      yielded: seq<Frame<E>>, buffer: seq<Frame<E>>)
    requires yielded + buffer == Accepted(sessionId, chunks)
    ensures yielded + (buffer + Accept(sessionId, c)) == Accepted(sessionId, chunks + [c])
    ensures Accept(sessionId, c) == [] ==> yielded + buffer == Accepted(sessionId, chunks + [c])
  {
    assert (chunks + [c])[..|chunks|] == chunks;
    assert yielded + (buffer + Accept(sessionId, c)) == (yielded + buffer) + Accept(sessionId, c);
  }

  lemma {:induction false} HandOver<T>(yielded: seq<T>, buffer: seq<T>)
    requires buffer != []
    ensures (yielded + [buffer[0]]) + buffer[1..] == yielded + buffer
  {}

  class Subscription<E> {
    const sessionId: string
    var buffer: seq<Frame<E>>
    var ended: bool
    var failure: Option<string>
    var waiting: bool
    var started: bool
    var call: Call
    /** Whether the callbacks were registered on the call: only then can the call wake anybody. */
    var hooked: bool
    /** Every chunk received, every frame handed to the consumer, and whether the consumer has walked away. */
    ghost var received: seq<Chunk<E>>
    ghost var yielded: seq<Frame<E>>
    ghost var abandoned: bool

    /**
     * Nothing accepted is lost, repeated or reordered between callback and consumer, and a pull that
     * sleeps has nothing to wake up for, unless the consumer has walked away from it.
     */
    ghost predicate Valid()
      reads this
    {
      && yielded + buffer == Accepted(sessionId, received)
      && (waiting ==> buffer == [] && (!ended || abandoned))
      && (failure.Some? || abandoned ==> ended)
      && (hooked ==> call != NoCall) && (call == Running ==> hooked && !abandoned)
    }

    constructor (sessionId: string)
      ensures Valid() && this.sessionId == sessionId && received == [] && !ended && !waiting && !started
        && call == NoCall && !abandoned
    {
      this.sessionId := sessionId;
      buffer, ended, failure, waiting, started, call, hooked := [], false, None, false, false, NoCall, false;
      received, yielded, abandoned := [], [], false;
    }

    /**
     * The credentials arrived: make the call and register the callbacks, or cancel it at once if the
     * stream was ended meanwhile.  In that case no callback will ever come: a pull still asleep, which
     * its consumer has then walked away from, is woken by an abort or not at all.
     */
    method Launched()
      requires Valid() && call == NoCall
      modifies this`call, this`hooked
      ensures Valid() && if ended then call == Cancelled && !hooked else call == Running && hooked
    {
      call := Running;
      if ended {
        call := Cancelled;
        return;
      }
      hooked := true;
    }

    /** No credentials, or no call to be had. */
    method LaunchFailed(error: string)
      requires Valid() && call == NoCall
      modifies this`ended, this`failure, this`waiting
      ensures Valid() && ended && failure == Some(error) && !waiting
    {
      failure, ended, waiting := Some(error), true, false;
    }

    method OnData(c: Chunk<E>)
      requires Valid() && hooked
      modifies this`buffer, this`waiting, this`received
      ensures Valid() && received == old(received) + [c]
      ensures buffer == old(buffer) + Accept(sessionId, c)
      ensures waiting <==> old(waiting) && Accept(sessionId, c) == []
    {
      AcceptedAppend(sessionId, received, c, yielded, buffer);
      received := received + [c];
      match c {
        case InlineError(code) =>
          buffer := buffer + [ErrorFrame(code)];
          waiting := false;
        case Enveloped(id, e) =>
          if id == "" || id != sessionId { return; }
          buffer := buffer + [EnvelopeFrame(e)];
          waiting := false;
        case EmptyChunk =>
      }
    }

    method OnError(error: string)
      requires Valid() && hooked
      modifies this`ended, this`failure, this`waiting
      ensures Valid() && ended && failure == Some(error) && !waiting
    {
      failure, ended, waiting := Some(error), true, false;
    }

    method OnEnd()
      requires Valid() && hooked
      modifies this`ended, this`waiting
      ensures Valid() && ended && !waiting
    {
      ended, waiting := true, false;
    }

    /** `abort`: whenever it comes, a running call is cancelled, and one not made yet will be by `Launched`. */
    method Abort()
      requires Valid()
      modifies this`ended, this`waiting, this`call
      ensures Valid() && ended && !waiting && call != Running && (old(call) == NoCall ==> call == NoCall)
    {
      ended := true;
      if call != NoCall {
        call := Cancelled;
      }
      waiting := false;
    }

    /**
     * The iterator's `return`, which the consumer calls when it stops early, possibly (after its idle
     * timeout) with a pull still asleep.  It cancels like an abort but wakes nobody: the sleeper stays
     * asleep until a callback of the cancelled call, or an abort, comes.
     */
    method Return()
      requires Valid()
      modifies this`ended, this`call, this`abandoned
      ensures Valid() && ended && abandoned && waiting == old(waiting)
      ensures call != Running && (old(call) == NoCall ==> call == NoCall)
    {
      ended, abandoned := true, true;
      if call != NoCall {
        call := Cancelled;
      }
    }

    /** One step of the iterator's `next`: it ends or throws only when everything accepted has been handed over. */
    method Next() returns (r: Pull<E>)
      requires Valid() && !waiting
      modifies this`buffer, this`waiting, this`started, this`yielded
      ensures Valid() && received == old(received) && started
      ensures r.Opened? <==> !old(started)
      ensures yielded == old(yielded) + if r.Item? then [r.frame] else []
      ensures r.Finished? || r.Threw? ==> ended && yielded == Accepted(sessionId, received)
      ensures r.Finished? ==> failure.None?
      ensures r.Threw? ==> failure == Some(r.failure)
      ensures r.Waits? <==> waiting
      ensures abandoned ==> !waiting
    {
      if !started {
        started := true;
        return Opened;
      }
      if |buffer| > 0 {
        HandOver(yielded, buffer);
        r := Item(buffer[0]);
        yielded := yielded + [buffer[0]];
        buffer := buffer[1..];
        return;
      }
      if ended {
        return if failure.Some? then Threw(failure.value) else Finished;
      }
      waiting := true;
      return Waits;
    }
  }

  /** Envelopes reach the consumer in the order the runtime sent them: as many as it sent for this session. */
  function Envelopes<E>(frames: seq<Frame<E>>): seq<E>
    decreases |frames|
  {
    if frames == [] then []
    else Envelopes(frames[..|frames| - 1]) + if frames[|frames| - 1].EnvelopeFrame? then [frames[|frames| - 1].envelope] else []
  }

  function Sent<E>(sessionId: string, chunks: seq<Chunk<E>>): seq<E>
    decreases |chunks|
  {
    if chunks == [] then []
    else
      var c := chunks[|chunks| - 1];
      Sent(sessionId, chunks[..|chunks| - 1]) + if c.Enveloped? && c.sessionId == sessionId then [c.envelope] else []
  }

  lemma {:induction false} EnvelopesAppend<E>(a: seq<Frame<E>>, f: Frame<E>)
    ensures Envelopes(a + [f]) == Envelopes(a) + if f.EnvelopeFrame? then [f.envelope] else []
  {
    assert (a + [f])[..|a|] == a;
  }

  lemma {:induction false} EnvelopesInOrder<E>(sessionId: string, chunks: seq<Chunk<E>>)
    requires sessionId != ""
    ensures Envelopes(Accepted(sessionId, chunks)) == Sent(sessionId, chunks)
    decreases |chunks|
  {
    if chunks != [] {
      var rest, c := Accepted(sessionId, chunks[..|chunks| - 1]), chunks[|chunks| - 1];
      EnvelopesInOrder(sessionId, chunks[..|chunks| - 1]);
      if Accept(sessionId, c) == [] {
        assert rest + [] == rest;
      } else {
        EnvelopesAppend(rest, Accept(sessionId, c)[0]);
      }
    }
  }
}
