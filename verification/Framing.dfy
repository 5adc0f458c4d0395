/** The gateway's parse loop over a byte stream that arrives in arbitrary pieces. */
module Framing {
  import opened Bytes
  import opened MqttWire
  import RoundTrip

  /** What one run of the parse loop does to the octets in the input buffer: the callbacks it
      fires, the octets it leaves, and whether it met a protocol error. */
  datatype Drained = Drained(events: seq<Event>, rest: seq<byte>, failed: bool)

  function After(events: seq<Event>, d: Drained): (r: Drained)
  {
    d.(events := events + d.events)
  }

  function Drain(s: seq<byte>): (d: Drained)
    ensures |d.rest| <= |s|
  {
    match NextFrame(s)
    case Incomplete => Drained([], s, false)
    case Frame(total, Rejected) => Drained([], s[total..], true)
    case Frame(total, Accepted(events)) => After(events, Drain(s[total..]))
  }

  /** A connection served piece by piece; an error is terminal, so the pieces after it stay unread. */
  datatype Served = Served(events: seq<Event>, rest: seq<byte>, failed: bool, unread: seq<seq<byte>>)

  function Serve(rest: seq<byte>, chunks: seq<seq<byte>>): (v: Served)
    decreases |chunks|
  {
    if chunks == [] then Served([], rest, false, [])
    else
      var d := Drain(rest + chunks[0]);
      if d.failed then Served(d.events, d.rest, true, chunks[1..])
      else
        var v := Serve(d.rest, chunks[1..]);
        Served(d.events + v.events, v.rest, v.failed, v.unread)
  }

  /** The loop leaves nothing it could have read: running it again on the rest is a no-op. */
  lemma {:induction false} DrainSettles(s: seq<byte>)
    ensures !Drain(s).failed ==> Drain(Drain(s).rest) == Drained([], Drain(s).rest, false)
    decreases |s|
  {
    var r := NextFrame(s);
    if r.Frame? && r.outcome.Accepted? {
      DrainSettles(s[r.total..]);
    }
  }

  lemma AfterAfter(first: seq<Event>, second: seq<Event>, d: Drained)
    ensures After(first, After(second, d)) == After(first + second, d)
    ensures After([], d) == d
  {
    assert first + (second + d.events) == (first + second) + d.events;
    assert [] + d.events == d.events;
  }

  /** One turn of the loop on a complete frame, with later octets behind it. */
  lemma DrainFrame(s: seq<byte>, t: seq<byte>, total: nat, o: Outcome)
    requires NextFrame(s) == Frame(total, o)
    ensures o.Rejected? ==> Drain(s + t) == Drained([], s[total..] + t, true)
    ensures o.Accepted? ==> Drain(s + t) == After(o.events, Drain(s[total..] + t))
  {
    FrameIsLocal(s, t);
    assert (s + t)[total..] == s[total..] + t;
  }

  /** Octets that arrive later do not change what was done with the earlier ones. */
  lemma {:induction false} DrainAppend(s: seq<byte>, t: seq<byte>)
    ensures Drain(s).failed ==> Drain(s + t) == Drain(s).(rest := Drain(s).rest + t)
    ensures !Drain(s).failed ==> Drain(s + t) == After(Drain(s).events, Drain(Drain(s).rest + t))
    decreases |s|
  {
    match NextFrame(s) {
      case Incomplete =>
        AfterAfter([], [], Drain(s + t));
      case Frame(total, o) =>
        DrainFrame(s, t, total, o);
        if o.Accepted? {
          var d := Drain(s[total..]);
          DrainAppend(s[total..], t);
          AfterAfter(o.events, d.events, Drain(d.rest + t));
        }
    }
  }

  /** For every stream and every way of cutting it into reads, the callbacks are those of one read
      of the whole stream, up to and including the first error; without an error the leftover
      octets agree, and after one they are split into leftover and unread pieces. */
  lemma {:induction false} ChunkingIndependent(rest: seq<byte>, chunks: seq<seq<byte>>)
    requires Drain(rest) == Drained([], rest, false)
    ensures var whole := Drain(rest + Concat(chunks)); var v := Serve(rest, chunks);
      && v.events == whole.events
      && v.failed == whole.failed
      && v.rest + Concat(v.unread) == whole.rest
      && (!v.failed ==> v.unread == [])
    decreases |chunks|
  {
    if chunks == [] {
      assert rest + Concat<byte>([]) == rest;
      assert rest + [] == rest;
    } else {
      var first, tail := rest + chunks[0], Concat(chunks[1..]);
      assert rest + Concat(chunks) == first + tail;
      DrainAppend(first, tail);
      if !Drain(first).failed {
        DrainSettles(first);
        ChunkingIndependent(Drain(first).rest, chunks[1..]);
      }
    }
  }

  // ---- streams of encoded packets --------------------------------------------------------------

  function EncodeAll(ps: seq<Packet>): (s: seq<byte>)
    requires forall p <- ps :: p.Valid()
  {
    if ps == [] then [] else Encode(ps[0]) + EncodeAll(ps[1..])
  }

  function MeaningAll(ps: seq<Packet>): (events: seq<Event>)
  {
    if ps == [] then [] else Meaning(ps[0]) + MeaningAll(ps[1..])
  }

  /** Parsing the concatenation of encoded packets, in front of an incomplete rest, splits it at
      exactly the packet boundaries and gives back the meaning of each packet in order. */
  lemma {:induction false} StreamRoundTrip(ps: seq<Packet>, rest: seq<byte>)
    requires forall p <- ps :: p.Valid() && RoundTrip.Expressible(p)
    requires NextFrame(rest).Incomplete?
    ensures Drain(EncodeAll(ps) + rest) == Drained(MeaningAll(ps), rest, false)
    decreases |ps|
  {
    if ps == [] {
      assert [] + rest == rest;
    } else {
      var p, tail := ps[0], EncodeAll(ps[1..]) + rest;
      assert EncodeAll(ps) + rest == Encode(p) + tail;
      RoundTrip.RoundTripIff(p, tail);
      assert (Encode(p) + tail)[|Encode(p)|..] == tail;
      StreamRoundTrip(ps[1..], rest);
    }
  }

  /** The same stream cut anywhere and delivered in any pieces. */
  lemma StreamRoundTripInPieces(ps: seq<Packet>, chunks: seq<seq<byte>>)
    requires forall p <- ps :: p.Valid() && RoundTrip.Expressible(p)
    requires Concat(chunks) == EncodeAll(ps)
    ensures Serve([], chunks) == Served(MeaningAll(ps), [], false, [])
  {
    StreamRoundTrip(ps, []);
    assert EncodeAll(ps) + [] == EncodeAll(ps);
    assert [] + Concat(chunks) == Concat(chunks);
    ChunkingIndependent([], chunks);
  }
}
