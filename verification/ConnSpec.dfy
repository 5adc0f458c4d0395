/** The send path of one connection as a step machine: what each callback and call does to the
    state, the output buffer, the write interest and the octets already handed to the kernel. */
module ConnSpec {
  import opened Bytes

  datatype State = Connecting | Connected | Disconnecting | Disconnected

  /** The kernel's answer to one non-blocking `write`. */
  datatype Write = Wrote(n: nat) | Again | Broken | OtherError

  datatype Notice = WriteComplete | HighWater(total: nat)

  /** `wire` holds the octets the kernel took, `fins` the length of `wire` at each half-close, and
      `taken` the payloads the send path did not drop. `closed` says that a close switched all
      interest off; a late `shutdown()` or `forceClose()` of another thread can set the state back to
      disconnecting after that. `notices` are the callbacks queued. */
  datatype Conn = Conn(
    state: State, closed: bool, writing: bool, output: seq<byte>, wire: seq<byte>, fins: seq<nat>,
    taken: seq<seq<byte>>, notices: seq<Notice>,
    mark: nat, wantsHighWater: bool, wantsWriteComplete: bool)

  predicate Fits(w: Write, len: nat)
  {
    w.Wrote? ==> w.n <= len
  }

  /** `sendInLoop` writes directly only when nothing waits ahead of the payload. */
  predicate WritesDirectly(c: Conn)
  {
    c.state != Disconnected && !c.writing && c.output == []
  }

  /** A payload is dropped, whole, on a closed connection or when the direct write finds it broken. */
  predicate Drops(c: Conn, w: Write)
  {
    c.state == Disconnected || (WritesDirectly(c) && w.Broken?)
  }

  function WrittenBy(c: Conn, w: Write): (n: nat)
  {
    if WritesDirectly(c) && w.Wrote? then w.n else 0
  }

  function Notify(c: Conn, wanted: bool, notice: Notice): (r: Conn)
  {
    if wanted then c.(notices := c.notices + [notice]) else c
  }

  /** Keeps what was not written, raising the high-water notice on the way up. */
  function Keep(c: Conn, rest: seq<byte>): (r: Conn)
  {
    var grown := |c.output| + |rest|;
    var told := Notify(c, c.wantsHighWater && grown >= c.mark && |c.output| < c.mark, HighWater(grown));
    told.(output := c.output + rest, writing := true)
  }

  function SendInLoop(c: Conn, data: seq<byte>, w: Write): (r: Conn)
    requires Fits(w, |data|)
  {
    if Drops(c, w) then c
    else
      var n := WrittenBy(c, w);
      var told := Notify(c, c.wantsWriteComplete && WritesDirectly(c) && w.Wrote? && n == |data|, WriteComplete);
      var moved := told.(wire := c.wire + data[..n], taken := c.taken + [data]);
      if n == |data| then moved else Keep(moved, data[n..])
  }

  function ShutdownInLoop(c: Conn): (r: Conn)
  {
    if c.writing then c else c.(fins := c.fins + [|c.wire|])
  }

  function HandleWrite(c: Conn, w: Write): (r: Conn)
    requires Fits(w, |c.output|)
  {
    if !c.writing || !w.Wrote? || w.n == 0 then c
    else
      var moved := c.(wire := c.wire + c.output[..w.n], output := c.output[w.n..]);
      if moved.output != [] then moved
      else
        var idle := Notify(moved.(writing := false), c.wantsWriteComplete, WriteComplete);
        if c.state == Disconnecting then ShutdownInLoop(idle) else idle
  }

  predicate Open(c: Conn)
  {
    c.state == Connected || c.state == Disconnecting
  }

  /** `setState(kDisconnected)` and `disableAll` */
  function HandleClose(c: Conn): (r: Conn)
  {
    c.(state := Disconnected, closed := true, writing := false)
  }

  function ForceCloseInLoop(c: Conn): (r: Conn)
  {
    if Open(c) then HandleClose(c) else c
  }

  function Fresh(mark: nat, wantsHighWater: bool, wantsWriteComplete: bool): (c: Conn)
  {
    Conn(Connecting, false, false, [], [], [], [], [], mark, wantsHighWater, wantsWriteComplete)
  }

  // ---- what every step keeps -----------------------------------------------------------------

  /** Wire conservation; write interest exactly while octets wait, until a close; no FIN ahead of
      the octets already written. */
  ghost predicate Inv(c: Conn)
  {
    && c.wire + c.output == Concat(c.taken)
    && (c.writing ==> c.output != [])
    && (c.output != [] && !c.closed ==> c.writing)
    && (c.state == Disconnected ==> c.closed && !c.writing)
    && (c.closed ==> c.state == Disconnecting || c.state == Disconnected)
    && (forall n <- c.fins :: n <= |c.wire|)
  }

  /** What a kept payload leaves as it was, and where it shows. */
  ghost predicate Kept(c: Conn, r: Conn, data: seq<byte>)
  {
    && r.taken == c.taken + [data] && c.wire <= r.wire
    && r.state == c.state && r.closed == c.closed && r.fins == c.fins
    && r.wire + r.output == (c.wire + c.output) + data
  }

  lemma DirectSend(c: Conn, data: seq<byte>, w: Write)
    requires Inv(c) && Fits(w, |data|) && WritesDirectly(c) && !w.Broken?
    ensures var r := SendInLoop(c, data, w); Kept(c, r, data) && r.writing == (r.output != [])
  {
    var n := WrittenBy(c, w);
    assert data[..n] + data[n..] == data;
    Reassociate(c.wire, data[..n], data[n..]);
    assert c.output + data[n..] == data[n..];
    assert c.wire + c.output == c.wire;
  }

  lemma BufferedSend(c: Conn, data: seq<byte>, w: Write)
    requires Inv(c) && Fits(w, |data|) && !WritesDirectly(c) && c.state != Disconnected
    ensures var r := SendInLoop(c, data, w);
      && Kept(c, r, data)
      && r.writing == (c.writing || data != []) && r.output == c.output + data
  {
    assert data[0..] == data && data[..0] == [] && c.wire + [] == c.wire;
    Reassociate(c.wire, c.output, data);
    assert data == [] ==> c.output + data == c.output;
  }

  lemma DroppedSend(c: Conn, data: seq<byte>, w: Write)
    requires Fits(w, |data|) && Drops(c, w)
    ensures SendInLoop(c, data, w) == c
  {
  }

  /** Whatever the kernel answers, a payload enters the stream whole and last, or not at all. */
  lemma SendKeepsInv(c: Conn, data: seq<byte>, w: Write)
    requires Inv(c) && Fits(w, |data|)
    ensures var r := SendInLoop(c, data, w);
      && Inv(r)
      && r.taken == (if Drops(c, w) then c.taken else c.taken + [data])
      && r.state == c.state && r.closed == c.closed && r.fins == c.fins
      && c.wire <= r.wire
      && (Drops(c, w) ==> r == c)
  {
    hide SendInLoop;
    if Drops(c, w) {
      DroppedSend(c, data, w);
    } else {
      ConcatSnoc(c.taken, data);
      if WritesDirectly(c) {
        DirectSend(c, data, w);
      } else {
        BufferedSend(c, data, w);
      }
    }
  }

  lemma WriteKeepsInv(c: Conn, w: Write)
    requires Inv(c) && Fits(w, |c.output|)
    ensures var r := HandleWrite(c, w);
      && Inv(r)
      && r.taken == c.taken && r.state == c.state && r.closed == c.closed && c.wire <= r.wire
      && (r.fins != c.fins ==> r.output == [] && r.fins == c.fins + [|r.wire|])
  {
    if w.Wrote? {
      assert c.output[..w.n] + c.output[w.n..] == c.output;
      Reassociate(c.wire, c.output[..w.n], c.output[w.n..]);
    }
  }

  /** The high-water notice is queued exactly when the waiting octets cross the mark upward. */
  lemma HighWaterIff(c: Conn, data: seq<byte>, w: Write)
    requires Fits(w, |data|) && c.wantsHighWater
    ensures var r := SendInLoop(c, data, w);
      (exists k | |c.notices| <= k < |r.notices| :: r.notices[k] == HighWater(|r.output|))
        <==> |c.output| < c.mark <= |r.output|
  {
    var r := SendInLoop(c, data, w);
    if |c.output| < c.mark <= |r.output| {
      assert r.notices[|r.notices| - 1] == HighWater(|r.output|);
    }
  }
}
