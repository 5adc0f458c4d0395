/** The input side of one connection: reads from the socket, and the gateway's parse loop over the
    input buffer (src/gateway/GatewayServer.cpp, src/net/TcpConnection.cpp). */
module Ingress {
  import opened Bytes
  import opened NetBuffer
  import opened MqttWire
  import opened MqttCodec
  import opened Framing

  /** The pieces of the stream that reads deliver, up to the end of the stream; a failed read, which the
      connection only logs, delivers nothing. */
  function Arrived(ios: seq<ReadResult>): (chunks: seq<seq<byte>>)
  {
    if ios == [] then []
    else
      match ios[0]
      case Failed(_) => Arrived(ios[1..])
      case Received(octets) => if octets == [] then [] else [octets] + Arrived(ios[1..])
  }

  /** Some read reports the end of the stream. */
  predicate Ends(ios: seq<ReadResult>)
  {
    ios != [] && (ios[0] == Received([]) || Ends(ios[1..]))
  }

  /** What the kernel may deliver into a buffer and the stack buffer behind it. */
  predicate FitsRead(io: ReadResult, writable: nat)
  {
    io.Received? ==> |io.octets| <= writable + if writable < EXTRA_BUF then EXTRA_BUF else 0
  }

  /** One more read before the end of the stream. */
  lemma {:induction false} ArrivedSnoc(ios: seq<ReadResult>, io: ReadResult)
    requires !Ends(ios)
    ensures Arrived(ios + [io]) == Arrived(ios) + if io.Received? && io.octets != [] then [io.octets] else []
    ensures Ends(ios + [io]) == (io == Received([]))
  {
    if ios == [] {
      assert [] + [io] == [io] && [io][1..] == [];
    } else {
      assert (ios + [io])[1..] == ios[1..] + [io];
      ArrivedSnoc(ios[1..], io);
    }
  }

  /** The kernel gives this answer to the i-th read, for some room in the buffer. */
  ghost predicate Answer(kernel: (nat, nat) -> ReadResult, i: nat, io: ReadResult)
  {
    exists writable: nat :: io == kernel(i, writable)
  }

  ghost predicate AnswersOf(kernel: (nat, nat) -> ReadResult, ios: seq<ReadResult>)
  {
    forall i | 0 <= i < |ios| :: Answer(kernel, i, ios[i])
  }

  /** Parsing what is left together with a new piece continues the parsing of the whole. */
  lemma OnePieceMore(chunks: seq<seq<byte>>, chunk: seq<byte>)
    requires !Drain(Concat(chunks)).failed
    ensures var before := Drain(Concat(chunks));
      Drain(Concat(chunks + [chunk])) == After(before.events, Drain(before.rest + chunk))
  {
    ConcatSnoc(chunks, chunk);
    DrainAppend(Concat(chunks), chunk);
  }

  /** One turn of the parse loop. */
  lemma DrainTurn(events: seq<Event>, s: seq<byte>)
    ensures var r := NextFrame(s);
      && (r.Incomplete? ==> After(events, Drain(s)) == Drained(events, s, false))
      && (r.Frame? && r.outcome.Rejected? ==> After(events, Drain(s)) == Drained(events, s[r.total..], true))
      && (r.Frame? && r.outcome.Accepted? ==>
            After(events, Drain(s)) == After(events + r.outcome.events, Drain(s[r.total..])))
  {
    hide NextFrame;
    assert events + [] == events;
    var r := NextFrame(s);
    if r.Frame? && r.outcome.Accepted? {
      AfterAfter(events, r.outcome.events, Drain(s[r.total..]));
    }
  }

  lemma AfterNothing(events: seq<Event>)
    ensures After(events, Drained([], [], false)) == Drained(events, [], false)
  {
    assert events + [] == events;
  }

  class InputSide {
    const codec: Codec
    const input: Buffer
    /** Set when the loop met a protocol error and asked for the connection to be closed. */
    var closing: bool
    /** Set when a read met the end of the stream and the connection was closed. */
    var ended: bool

    constructor ()
      ensures fresh(codec) && fresh(input) && fresh(input.data) && input.Valid()
      ensures codec.fired == [] && input.Contents() == [] && !closing && !ended
    {
      codec := new Codec();
      input := new Buffer();
      closing, ended := false, false;
    }

    /** `onMessage`: frame after frame until the buffer holds no complete one, or an error. */
    method OnMessage()
      requires input.Valid()
      modifies this`closing, codec, input
      ensures input.Valid() && input.data == old(input.data)
      ensures var d := Drain(old(input.Contents()));
        && codec.fired == old(codec.fired) + d.events
        && input.Contents() == d.rest
        && closing == (old(closing) || d.failed)
    {
      hide Drain, After, NextFrame;
      ghost var s := input.Contents();
      ghost var events: seq<Event> := [];
      AfterAfter([], [], Drain(s));
      while input.ReadableBytes() > 0
        invariant input.Valid() && input.data == old(input.data)
        invariant closing == old(closing)
        invariant codec.fired == old(codec.fired) + events
        invariant Drain(s) == After(events, Drain(input.Contents()))
        decreases input.ReadableBytes()
      {
        ghost var r := NextFrame(input.Contents());
        DrainTurn(events, input.Contents());
        var result := codec.Parse(input);
        if result == INCOMPLETE {
          return;
        }
        if result == ERROR {
          closing := true;
          return;
        }
        Reassociate(old(codec.fired), events, r.outcome.events);
        events := events + r.outcome.events;
      }
      DrainNothing();
      AfterNothing(events);
    }

    /** `handleRead`: octets go through the parse loop, the end of the stream closes the connection, an
        error changes nothing. */
    method HandleRead(io: ReadResult)
      requires input.Valid() && FitsRead(io, input.WritableBytes())
      modifies this, codec, input, input.data
      ensures input.Valid() && (input.data == old(input.data) || fresh(input.data))
      ensures ended == (old(ended) || io == Received([]))
      ensures io.Failed? || io == Received([]) ==>
        codec.fired == old(codec.fired) && input.Contents() == old(input.Contents()) && closing == old(closing)
      ensures io.Received? && io.octets != [] ==>
        var d := Drain(old(input.Contents()) + io.octets);
        && codec.fired == old(codec.fired) + d.events
        && input.Contents() == d.rest
        && closing == (old(closing) || d.failed)
    {
      var n := input.ReadFd(io);
      if n > 0 {
        OnMessage();
      } else if n == 0 {
        assert input.Contents() == old(input.Contents()) + [] == old(input.Contents());
        ended := true;
      }
    }

    /** A whole connection: the kernel answers read after read, each within the room the buffer then has,
        until the stream ends or a protocol error closes the connection. Whatever the cut, and whatever
        reads fail in between, the callbacks are those of the whole stream parsed at once. */
    method Serve(kernel: (nat, nat) -> ReadResult, limit: nat) returns (ios: seq<ReadResult>)
      requires input.Valid() && !closing && !ended && input.Contents() == []
      requires forall i: nat, writable: nat :: FitsRead(kernel(i, writable), writable)
      modifies this, codec, input, input.data
      ensures input.Valid() && (input.data == old(input.data) || fresh(input.data))
      ensures |ios| <= limit && (|ios| == limit || closing || ended)
      ensures AnswersOf(kernel, ios)
      ensures var whole := Drain(Concat(Arrived(ios)));
        && codec.fired == old(codec.fired) + whole.events
        && input.Contents() == whole.rest
        && closing == whole.failed && ended == Ends(ios)
    {
      hide Drain, Arrived, Ends, FitsRead, Answer;
      ios := [];
      NothingArrived();
      DrainNothing();
      while |ios| < limit && !closing && !ended
        invariant |ios| <= limit && input.Valid() && (input.data == old(input.data) || fresh(input.data))
        invariant AnswersOf(kernel, ios)
        invariant var whole := Drain(Concat(Arrived(ios)));
          && codec.fired == old(codec.fired) + whole.events
          && input.Contents() == whole.rest
          && closing == whole.failed && ended == Ends(ios)
        decreases limit - |ios|
      {
        var io := kernel(|ios|, input.WritableBytes());
        ghost var chunks := Arrived(ios);
        ArrivedSnoc(ios, io);
        assert Answer(kernel, |ios|, io) by { OneAnswer(kernel, |ios|, input.WritableBytes()); }
        assert chunks + [] == chunks;
        if io.Received? && io.octets != [] {
          OnePieceMore(chunks, io.octets);
          Reassociate(old(codec.fired), Drain(Concat(chunks)).events, Drain(input.Contents() + io.octets).events);
        }
        HandleRead(io);
        ios := ios + [io];
      }
    }
  }

  lemma DrainNothing()
    ensures Drain([]) == Drained([], [], false)
  {
  }

  lemma OneAnswer(kernel: (nat, nat) -> ReadResult, i: nat, writable: nat)
    ensures Answer(kernel, i, kernel(i, writable))
  {
  }

  lemma NothingArrived()
    ensures Arrived([]) == [] && !Ends([]) && Concat(Arrived([])) == []
  {
  }
}
