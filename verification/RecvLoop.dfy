/** The OpenFlow receive loop of a datapath connection: a streaming frame splitter. */
module RecvLoop {
  import opened Bytes

  const HEADER_SIZE := 8

  /** The length field of an OpenFlow header: the third and fourth byte, in network order. */
  function MsgLen(b: seq<byte>): nat
    requires |b| >= HEADER_SIZE
  {
    b[2] as nat * 0x100 + b[3] as nat
  }

  // ---------------------------------------------------------------- splitting in one go

  /** No frame that starts inside `b` announces the length zero. */
  ghost predicate Progresses(b: seq<byte>)
    decreases |b|
  {
    |b| >= HEADER_SIZE ==>
      MsgLen(b) > 0 && (|b| >= MsgLen(b) ==> Progresses(b[MsgLen(b)..]))
  }

  ghost predicate Waiting(b: seq<byte>) {
    |b| < HEADER_SIZE || |b| < MsgLen(b)
  }

  ghost function Frames(b: seq<byte>): (fs: seq<seq<byte>>)
    requires Progresses(b)
    decreases |b|
  {
    if Waiting(b) then [] else [b[..MsgLen(b)]] + Frames(b[MsgLen(b)..])
  }

  ghost function Rest(b: seq<byte>): (r: seq<byte>)
    requires Progresses(b)
    ensures Waiting(r) && Progresses(r)
    decreases |b|
  {
    if Waiting(b) then b else Rest(b[MsgLen(b)..])
  }

  ghost function Concat(fs: seq<seq<byte>>): seq<byte> {
    if fs == [] then [] else fs[0] + Concat(fs[1..])
  }

  /** No byte is lost, added or moved by splitting. */
  lemma {:induction false} SplittingConservesBytes(b: seq<byte>)
    requires Progresses(b)
    ensures Concat(Frames(b)) + Rest(b) == b
    decreases |b|
  {
    if !Waiting(b) {
      var f, rest := b[..MsgLen(b)], b[MsgLen(b)..];
      SplittingConservesBytes(rest);
      ConcatFirst(f, Frames(rest), Rest(rest));
    }
  }

  lemma ConcatFirst(f: seq<byte>, fs: seq<seq<byte>>, tail: seq<byte>)
    ensures Concat([f] + fs) + tail == f + (Concat(fs) + tail)
  {
  }

  ghost predicate IsFrame(f: seq<byte>) {
    |f| >= HEADER_SIZE && MsgLen(f) == |f|
  }

  /** Frames written one after another, followed by an unfinished one, are split back. */
  lemma {:induction false} SplittingInvertsConcat(fs: seq<seq<byte>>, tail: seq<byte>)
    requires forall i :: 0 <= i < |fs| ==> IsFrame(fs[i])
    requires Waiting(tail) && Progresses(tail)
    ensures Progresses(Concat(fs) + tail)
    ensures Frames(Concat(fs) + tail) == fs && Rest(Concat(fs) + tail) == tail
  {
    if fs == [] {
      assert Concat(fs) + tail == tail;
    } else {
      var b := Concat(fs) + tail;
      assert b == fs[0] + (Concat(fs[1..]) + tail);
      assert MsgLen(b) == |fs[0]| && b[..|fs[0]|] == fs[0];
      assert b[|fs[0]|..] == Concat(fs[1..]) + tail;
      SplittingInvertsConcat(fs[1..], tail);
    }
  }

  // ---------------------------------------------------------------- messages on the wire

  /** An OpenFlow message; its length field follows from its body. */
  datatype Message = Message(version: byte, kind: byte, xid: nat, body: seq<byte>)

  predicate Sendable(m: Message) {
    HEADER_SIZE + |m.body| <= 0xffff && m.xid <= 0xffff_ffff
  }

  function Byte(x: nat): byte {
    (x % 256) as byte
  }

  /** The header in network order: version, type, length in two bytes, transaction in four. */
  function Encoded(m: Message): seq<byte>
    requires Sendable(m)
  {
    var len := 8 + |m.body|;
    [m.version, m.kind, Byte(len / 256), Byte(len),
     Byte(m.xid / 256 / 256 / 256), Byte(m.xid / 256 / 256), Byte(m.xid / 256), Byte(m.xid)] + m.body
  }

  function EncodedAll(ms: seq<Message>): seq<seq<byte>>
    requires forall i :: 0 <= i < |ms| ==> Sendable(ms[i])
  {
    seq(|ms|, i requires 0 <= i < |ms| => Encoded(ms[i]))
  }

  lemma EncodedIsFrame(m: Message)
    requires Sendable(m)
    ensures IsFrame(Encoded(m))
  {
    var len := 8 + |m.body|;
    assert len / 256 < 256 && len == len / 256 * 256 + len % 256;
  }

  lemma PartOfMessageWaits(m: Message, tail: seq<byte>)
    requires Sendable(m) && tail < Encoded(m)
    ensures Waiting(tail) && Progresses(tail)
  {
    EncodedIsFrame(m);
    if |tail| >= HEADER_SIZE {
      assert tail[2] == Encoded(m)[2] && tail[3] == Encoded(m)[3];
    }
  }

  /** What is on the wire is `ms`, one after another, and the beginning of another message. */
  ghost predicate Carries(b: seq<byte>, ms: seq<Message>, tail: seq<byte>) {
    && (forall i :: 0 <= i < |ms| ==> Sendable(ms[i]))
    && (exists m :: Sendable(m) && tail < Encoded(m))
    && b == Concat(EncodedAll(ms)) + tail
  }

  /** Messages written one after another, followed by the beginning of another, are split back. */
  lemma MessagesAreSplit(b: seq<byte>, ms: seq<Message>, tail: seq<byte>)
    requires Carries(b, ms, tail)
    ensures Progresses(b) && Frames(b) == EncodedAll(ms) && Rest(b) == tail
  {
    var m :| Sendable(m) && tail < Encoded(m);
    PartOfMessageWaits(m, tail);
    forall i | 0 <= i < |ms| ensures IsFrame(EncodedAll(ms)[i]) {
      EncodedIsFrame(ms[i]);
    }
    SplittingInvertsConcat(EncodedAll(ms), tail);
  }

  lemma AllMessagesAreSplit(b: seq<byte>)
    requires Progresses(b)
    ensures forall ms, tail :: Carries(b, ms, tail) ==> Frames(b) == EncodedAll(ms) && Rest(b) == tail
  {
    forall ms, tail | Carries(b, ms, tail) ensures Frames(b) == EncodedAll(ms) && Rest(b) == tail {
      MessagesAreSplit(b, ms, tail);
    }
  }

  // ---------------------------------------------------------------- splitting in parts

  /** More bytes behind a complete frame leave the frame as it is. */
  lemma LongerBuffer(a: seq<byte>, c: seq<byte>)
    requires |a| >= HEADER_SIZE
    ensures MsgLen(a + c) == MsgLen(a)
    ensures |a| >= MsgLen(a) ==> (a + c)[..MsgLen(a)] == a[..MsgLen(a)] && (a + c)[MsgLen(a)..] == a[MsgLen(a)..] + c
  {
  }

  /** Splitting may be resumed: what was left over plus the next bytes gives the further frames. */
  lemma {:induction false} SplittingResumes(a: seq<byte>, c: seq<byte>)
    requires Progresses(a + c)
    ensures Progresses(a) && Progresses(Rest(a) + c)
    ensures Frames(a + c) == Frames(a) + Frames(Rest(a) + c)
    ensures Rest(a + c) == Rest(Rest(a) + c)
    decreases |a|
  {
    if |a| >= HEADER_SIZE {
      LongerBuffer(a, c);
      if |a| >= MsgLen(a) {
        var f, rest := a[..MsgLen(a)], a[MsgLen(a)..];
        SplittingResumes(rest, c);
        assert Frames(a + c) == [f] + Frames(rest + c);
        assert [f] + (Frames(rest) + Frames(Rest(rest) + c)) == ([f] + Frames(rest)) + Frames(Rest(rest) + c);
      }
    }
  }

  // ---------------------------------------------------------------- when the inner loop ends

  datatype Loop = Loop(buf: seq<byte>, required: nat)

  ghost predicate Running(l: Loop) {
    |l.buf| >= l.required >= HEADER_SIZE
  }

  /** One turn of the inner loop. */
  ghost function Turn(l: Loop): Loop
    requires Running(l)
  {
    if |l.buf| < MsgLen(l.buf) then Loop(l.buf, MsgLen(l.buf))
    else Loop(l.buf[MsgLen(l.buf)..], HEADER_SIZE)
  }

  ghost function After(l: Loop, turns: nat): Loop {
    if turns == 0 then l
    else
      var m := After(l, turns - 1);
      if Running(m) then Turn(m) else m
  }

  lemma {:induction false} StuckLoopKeepsRunning(buf: seq<byte>, turns: nat)
    requires !Progresses(buf)
    ensures var m := After(Loop(buf, HEADER_SIZE), turns);
            m.required == HEADER_SIZE && !Progresses(m.buf) && Running(m)
  {
    if turns > 0 {
      StuckLoopKeepsRunning(buf, turns - 1);
    }
  }

  lemma {:induction false} AfterOneMore(l: Loop, turns: nat)
    requires Running(l)
    ensures After(l, turns + 1) == After(Turn(l), turns)
  {
    if turns > 0 {
      AfterOneMore(l, turns - 1);
    }
  }

  lemma {:induction false} ProgressEnds(buf: seq<byte>) returns (turns: nat)
    requires Progresses(buf)
    ensures !Running(After(Loop(buf, HEADER_SIZE), turns))
    decreases |buf|
  {
    var l := Loop(buf, HEADER_SIZE);
    if !Running(l) {
      turns := 0;
    } else if |buf| < MsgLen(buf) {
      turns := 1;
      assert After(l, 0) == l;
    } else {
      turns := ProgressEnds(buf[MsgLen(buf)..]);
      AfterOneMore(l, turns);
      turns := turns + 1;
    }
  }

  /** The inner loop ends if and only if no frame in the buffer announces the length zero. */
  lemma InnerLoopEndsIffProgress(buf: seq<byte>)
    ensures (exists turns :: !Running(After(Loop(buf, HEADER_SIZE), turns))) <==> Progresses(buf)
  {
    if Progresses(buf) {
      var turns := ProgressEnds(buf);
    } else {
      forall turns ensures Running(After(Loop(buf, HEADER_SIZE), turns)) {
        StuckLoopKeepsRunning(buf, turns);
      }
    }
  }

  // ---------------------------------------------------------------- the loop itself

  /** What one call of `recv` brings; `closing` is whether closing has been requested by then. */
  datatype Outcome = Data(bytes: seq<byte>, closing: bool) | Timeout(closing: bool) | Error

  predicate Ends(o: Outcome) {
    match o
    case Data(bytes, closing) => bytes == [] || closing
    case Timeout(closing) => closing
    case Error => true
  }

  /** The bytes received before the connection ends. */
  function Delivered(os: seq<Outcome>): seq<byte> {
    if os == [] || Ends(os[0]) then []
    else (if os[0].Data? then os[0].bytes else []) + Delivered(os[1..])
  }

  function BytesOf(os: seq<Outcome>): seq<byte> {
    if os == [] then [] else (if os[0].Data? then os[0].bytes else []) + BytesOf(os[1..])
  }

  /** What counts is what was received before the first empty read, error, or outcome after
      closing has been requested; a mere timeout is passed over. */
  lemma {:induction false} DeliveredIsBefore(os: seq<Outcome>, n: nat)
    requires n <= |os|
    requires forall i :: 0 <= i < n ==> os[i] == Timeout(false) || (os[i].Data? && os[i].bytes != [] && !os[i].closing)
    requires n < |os| ==> os[n].Error? || os[n].closing || (os[n].Data? && os[n].bytes == [])
    ensures Delivered(os) == BytesOf(os[..n])
  {
    if n > 0 {
      DeliveredIsBefore(os[1..], n - 1);
      assert os[..n][1..] == os[1..][..n - 1];
    }
  }

  lemma DeliveredFrom(os: seq<Outcome>, i: nat, seen: seq<byte>)
    requires i < |os| && Delivered(os) == seen + Delivered(os[i..])
    ensures Ends(os[i]) ==> Delivered(os) == seen
    ensures os[i] == Timeout(false) ==> Delivered(os) == seen + Delivered(os[i + 1..])
    ensures !Ends(os[i]) && os[i].Data? ==> Delivered(os) == seen + (os[i].bytes + Delivered(os[i + 1..]))
  {
    assert os[i..][1..] == os[i + 1..];
    assert seen + [] == seen;
    assert [] + Delivered(os[i + 1..]) == Delivered(os[i + 1..]);
  }

  /** Takes all complete frames off the buffer. */
  method TakeFrames(start: seq<byte>, startLen: nat, startCount: nat)
    returns (frames: seq<seq<byte>>, buf: seq<byte>, requiredLen: nat, count: nat, turns: nat)
    requires Progresses(start) && startCount <= 2048
    requires startLen == HEADER_SIZE || (|start| >= HEADER_SIZE && startLen == MsgLen(start) >= HEADER_SIZE)
    ensures frames == Frames(start) && buf == Rest(start)
    ensures requiredLen == if |buf| < HEADER_SIZE then HEADER_SIZE else MsgLen(buf)
    ensures startCount + |frames| == 2049 * turns + count && count <= 2048
  {
    frames, buf, requiredLen, count, turns := [], start, startLen, startCount, 0;
    while |buf| >= requiredLen
      invariant Progresses(buf)
      invariant requiredLen == HEADER_SIZE || (|buf| >= HEADER_SIZE && requiredLen == MsgLen(buf) >= HEADER_SIZE)
      invariant Frames(start) == frames + Frames(buf) && Rest(start) == Rest(buf)
      invariant startCount + |frames| == 2049 * turns + count && count <= 2048
      decreases |buf|
    {
      requiredLen := MsgLen(buf);
      if |buf| < requiredLen {
        break;
      }
      frames := frames + [buf[..requiredLen]];
      buf := buf[requiredLen..];
      requiredLen := HEADER_SIZE;
      count := count + 1;
      if count > 2048 {
        count, turns := 0, turns + 1;
      }
    }
  }

  /** What the next chunk adds to the frames found so far. */
  lemma NextChunk(seen: seq<byte>, chunk: seq<byte>, later: seq<byte>, required: nat)
    requires Progresses(seen + (chunk + later))
    requires Progresses(seen) && required == if |Rest(seen)| < HEADER_SIZE then HEADER_SIZE else MsgLen(Rest(seen))
    ensures seen + (chunk + later) == (seen + chunk) + later
    ensures Progresses(seen + chunk) && Progresses(Rest(seen) + chunk)
    ensures Frames(seen + chunk) == Frames(seen) + Frames(Rest(seen) + chunk)
    ensures Rest(seen + chunk) == Rest(Rest(seen) + chunk)
    ensures required == HEADER_SIZE
            || (|Rest(seen) + chunk| >= HEADER_SIZE && required == MsgLen(Rest(seen) + chunk) >= HEADER_SIZE)
  {
    assert seen + (chunk + later) == (seen + chunk) + later;
    SplittingResumes(seen + chunk, later);
    SplittingResumes(seen, chunk);
  }

  /** However the stream is cut into chunks, the frames dispatched and the bytes left over are
      those of splitting all received bytes in one go; if messages were sent, they are these
      messages and the beginning of the next. `turns` counts how often the loop lets
      others run: once in 2049 frames. */
  method Receive(os: seq<Outcome>) returns (frames: seq<seq<byte>>, buf: seq<byte>, turns: nat)
    requires Progresses(Delivered(os))
    ensures frames == Frames(Delivered(os)) && buf == Rest(Delivered(os))
    ensures forall ms, tail :: Carries(Delivered(os), ms, tail) ==> frames == EncodedAll(ms) && buf == tail
    ensures turns == |frames| / 2049
  {
    var requiredLen, count := HEADER_SIZE, 0;
    frames, buf, turns := [], [], 0;
    ghost var seen := [];
    var i := 0;
    while i < |os|
      invariant 0 <= i <= |os|
      invariant Delivered(os) == seen + Delivered(os[i..])
      invariant Progresses(seen) && frames == Frames(seen) && buf == Rest(seen)
      invariant requiredLen == if |buf| < HEADER_SIZE then HEADER_SIZE else MsgLen(buf)
      invariant |frames| == 2049 * turns + count && count <= 2048
    {
      var o := os[i];
      DeliveredFrom(os, i, seen);
      i := i + 1;
      if o.Timeout? && !o.closing {
        continue;
      }
      if !o.Data? || |o.bytes| == 0 || o.closing {
        assert Delivered(os) == seen;
        AllMessagesAreSplit(seen);
        return;
      }
      NextChunk(seen, o.bytes, Delivered(os[i..]), requiredLen);
      var more, t;
      more, buf, requiredLen, count, t := TakeFrames(buf + o.bytes, requiredLen, count);
      frames := frames + more;
      turns := turns + t;
      seen := seen + o.bytes;
    }
    assert Delivered(os) == seen + [] == seen;
    AllMessagesAreSplit(seen);
  }
}
