/**
 Reassembling messages from a TCP byte stream. The stream may be cut anywhere; the
 messages that come out, and any framing error, depend on the bytes alone.
 */
module Framer {
  import opened BgpTypes
  import opened AsPathCodec
  import opened UpdateCodec

  const FRAMER_CAPACITY: nat := 2 * MAX_MESSAGE_LEN

  // ----------------------------------------------------------- one buffer's head

  datatype Head = Wait | Bad(subcode: U8) | Ready(length: nat)

  /** What the front of a buffer says: incomplete, broken, or a whole message of that length. */
  function HeadOf(buf: seq<U8>): (h: Head)
    ensures h.Ready? ==> HEADER_LEN <= h.length <= |buf| && h.length <= MAX_MESSAGE_LEN
  {
    if |buf| < HEADER_LEN then Wait
    else if buf[..16] != MARKER then Bad(1)
    else
      var length := From16(buf[16..18]) as int;
      if !(HEADER_LEN <= length <= MAX_MESSAGE_LEN) then Bad(2)
      else if |buf| < length then Wait
      else Ready(length)
  }

  predicate Marked(buf: seq<U8>) {
    |buf| >= 16 && forall i :: 0 <= i < 16 ==> buf[i] == 0xFF
  }

  /** The length a header announces. */
  function Announced(buf: seq<U8>): int
    requires |buf| >= 19
  {
    (buf[16] as int) * 0x100 + buf[17]
  }

  /** When the front of a buffer is broken, and how; when it is a message, and of which length; else more is awaited. */
  lemma HeadIff(buf: seq<U8>)
    ensures var h := HeadOf(buf);
            && (h == Bad(1) <==> |buf| >= 19 && !Marked(buf))
            && (h == Bad(2) <==> |buf| >= 19 && Marked(buf) && !(19 <= Announced(buf) <= 4096))
            && (h.Ready? <==> |buf| >= 19 && Marked(buf) && 19 <= Announced(buf) <= 4096 && Announced(buf) <= |buf|)
            && (h.Ready? ==> h.length == Announced(buf))
            && (h.Bad? ==> h.subcode in {1, 2})
  {
    if |buf| >= 19 {
      assert buf[..16] == MARKER <==> Marked(buf) by {
        if buf[..16] == MARKER {
          forall i | 0 <= i < 16 ensures buf[i] == 0xFF { assert buf[i] == buf[..16][i]; }
        }
      }
    }
  }

  /** Exactly one message, header and all. */
  predicate Whole(m: seq<U8>) {
    HeadOf(m) == Ready(|m|)
  }

  /** More bytes never change a verdict once there is one. */
  lemma HeadIsStable(buf: seq<U8>, more: seq<U8>)
    ensures !HeadOf(buf).Wait? ==> HeadOf(buf + more) == HeadOf(buf)
  {
    if |buf| >= HEADER_LEN {
      assert (buf + more)[..16] == buf[..16] && (buf + more)[16..18] == buf[16..18];
    }
  }

  lemma WholeThen(m: seq<U8>, more: seq<U8>)
    requires Whole(m)
    ensures HeadOf(m + more) == Ready(|m|) && (m + more)[..|m|] == m && (m + more)[|m|..] == more
  {
    HeadIsStable(m, more);
  }

  lemma ReadyIsWhole(buf: seq<U8>)
    requires HeadOf(buf).Ready?
    ensures Whole(buf[..HeadOf(buf).length])
  {
    var m := buf[..HeadOf(buf).length];
    assert m[..16] == buf[..16] && m[16..18] == buf[16..18];
  }

  /** A buffer that waits holds less than one message, so a push of up to 4097 bytes still fits. */
  lemma WaitingIsShort(buf: seq<U8>)
    requires HeadOf(buf).Wait?
    ensures |buf| < MAX_MESSAGE_LEN
    ensures |buf| + (MAX_MESSAGE_LEN + 1) <= FRAMER_CAPACITY
  {}

  /** Every message the speaker writes is whole. */
  lemma SerializedIsWhole(code: U8, body: seq<U8>)
    requires HEADER_LEN + |body| <= MAX_MESSAGE_LEN
    ensures Whole(WithHeader(code, body))
  {
    HeaderFields(code, body);
  }

  // -------------------------------------------------------------- whole streams

  function Flat(ms: seq<seq<U8>>): seq<U8> {
    if ms == [] then [] else ms[0] + Flat(ms[1..])
  }

  ghost predicate AllWhole(ms: seq<seq<U8>>) {
    forall i :: 0 <= i < |ms| ==> Whole(ms[i])
  }

  lemma {:induction false} FlatSnoc(ms: seq<seq<U8>>, m: seq<U8>)
    ensures Flat(ms + [m]) == Flat(ms) + m
    decreases |ms|
  {
    if ms == [] {
      assert ms + [m] == [m] && [m][1..] == [];
    } else {
      FlatSnoc(ms[1..], m);
      assert (ms + [m])[1..] == ms[1..] + [m];
      Associative(ms[0], Flat(ms[1..]), m);
    }
  }

  /**
   Two ways of cutting the same bytes into whole messages and a remainder: one list
   of messages continues the other, and it can only be longer if the shorter one
   left a complete message unread.
   */
  lemma {:induction false} SameBytesSameFrames(ms: seq<seq<U8>>, rest: seq<U8>, ns: seq<seq<U8>>, tail: seq<U8>)
    requires AllWhole(ms) && AllWhole(ns) && Flat(ms) + rest == Flat(ns) + tail
    ensures ms <= ns || ns <= ms
    ensures !HeadOf(rest).Ready? ==> ns <= ms
    ensures !HeadOf(rest).Ready? && !HeadOf(tail).Ready? ==> ms == ns && rest == tail
    decreases |ms|
  {
    if ms == [] {
      assert Flat(ms) + rest == rest;
      if ns != [] {
        FirstMessage(ns, tail);
      } else {
        assert Flat(ns) + tail == tail;
      }
    } else {
      FirstMessage(ms, rest);
      if ns == [] {
        assert Flat(ns) + tail == tail;
      } else {
        FirstMessage(ns, tail);
        assert ms[0] == ns[0];
        SameBytesSameFrames(ms[1..], rest, ns[1..], tail);
        assert ms == [ms[0]] + ms[1..] && ns == [ns[0]] + ns[1..];
      }
    }
  }

  lemma FirstMessage(ms: seq<seq<U8>>, rest: seq<U8>)
    requires ms != [] && AllWhole(ms)
    ensures var all := Flat(ms) + rest;
            HeadOf(all) == Ready(|ms[0]|) && all[..|ms[0]|] == ms[0] && all[|ms[0]|..] == Flat(ms[1..]) + rest
  {
    Associative(ms[0], Flat(ms[1..]), rest);
    WholeThen(ms[0], Flat(ms[1..]) + rest);
  }

  /**
   What arrived is a front part of the messages sent: then what was popped is a front
   part of their list, the framer never sees a broken header, and once drained it
   holds less than the next message.
   */
  lemma {:induction false} FramesAreTheMessagesSent(popped: seq<seq<U8>>, buf: seq<U8>, sent: seq<seq<U8>>)
    requires AllWhole(popped) && AllWhole(sent) && Flat(popped) + buf <= Flat(sent)
    ensures popped <= sent && !HeadOf(buf).Bad?
    ensures HeadOf(buf).Wait? && |popped| < |sent| ==> |buf| < |sent[|popped|]| && buf <= sent[|popped|]
    decreases |popped|
  {
    if popped == [] {
      assert Flat(popped) + buf == buf;
      HeadOfFront(buf, sent);
    } else {
      var later := Flat(sent)[|Flat(popped) + buf|..];
      assert Flat(sent) == Flat(popped) + (buf + later) by { Associative(Flat(popped), buf, later); }
      FirstMessage(popped, buf + later);
      assert sent != [] by { assert |Flat(sent)| >= |popped[0]| >= HEADER_LEN; }
      assert Flat(sent) + [] == Flat(sent);
      FirstMessage(sent, []);
      assert popped[0] == sent[0];
      assert Flat(sent[1..]) + [] == Flat(sent[1..]);
      Associative(Flat(popped[1..]), buf, later);
      FramesAreTheMessagesSent(popped[1..], buf, sent[1..]);
      assert popped == [popped[0]] + popped[1..] && sent == [sent[0]] + sent[1..];
    }
  }

  lemma HeadOfFront(buf: seq<U8>, sent: seq<seq<U8>>)
    requires AllWhole(sent) && buf <= Flat(sent)
    ensures !HeadOf(buf).Bad?
    ensures HeadOf(buf).Wait? && sent != [] ==> |buf| < |sent[0]| && buf <= sent[0]
  {
    if sent != [] {
      assert Flat(sent) + [] == Flat(sent);
      FirstMessage(sent, []);
      var later := Flat(sent)[|buf|..];
      assert Flat(sent) == buf + later;
      HeadIsStable(buf, later);
      if |buf| >= |sent[0]| {
        assert buf[..|sent[0]|] == sent[0];
        WholeThen(sent[0], buf[|sent[0]|..]);
        assert buf == sent[0] + buf[|sent[0]|..];
      } else {
        assert buf == sent[0][..|buf|];
      }
    }
  }

  // ------------------------------------------------------------------- the framer

  datatype Popped = NeedMore | Broken(subcode: U8) | Frame(bytes: seq<U8>)

  class BgpFramer {
    const capacity: nat
    var buf: seq<U8>
    /** Every byte accepted and every message handed out since the last reset. */
    ghost var received: seq<U8>
    ghost var popped: seq<seq<U8>>

    /** Nothing is lost, duplicated or reordered between the stream and the messages. */
    ghost predicate Valid()
      reads this
    {
      && capacity >= MAX_MESSAGE_LEN && |buf| <= capacity
      && AllWhole(popped) && Flat(popped) + buf == received
    }

    constructor (wanted: nat)
      ensures Valid() && received == [] && popped == [] && buf == []
      ensures capacity == if wanted > MAX_MESSAGE_LEN then wanted else MAX_MESSAGE_LEN
    {
      capacity := if wanted > MAX_MESSAGE_LEN then wanted else MAX_MESSAGE_LEN;
      buf, received, popped := [], [], [];
    }

    /** Refused exactly when the cap would be exceeded, and then nothing changes. */
    method Push(data: seq<U8>) returns (ok: bool)
      requires Valid()
      modifies this
      ensures Valid() && popped == old(popped)
      ensures ok <==> old(|buf|) + |data| <= capacity
      ensures received == if ok then old(received) + data else old(received)
      ensures buf == if ok then old(buf) + data else old(buf)
    {
      if |buf| + |data| > capacity {
        return false;
      }
      Associative(Flat(popped), buf, data);
      buf := buf + data;
      received := received + data;
      return true;
    }

    /** Takes the next whole message off the buffer. */
    method NextFrame() returns (r: Popped)
      requires Valid()
      modifies this
      ensures Valid() && received == old(received)
      ensures r.NeedMore? <==> old(HeadOf(buf)).Wait?
      ensures forall c :: r == Broken(c) <==> old(HeadOf(buf)) == Bad(c)
      ensures if r.Frame? then Whole(r.bytes) && popped == old(popped) + [r.bytes] && old(buf) == r.bytes + buf
              else popped == old(popped) && buf == old(buf)
    {
      match HeadOf(buf)
      case Wait => return NeedMore;
      case Bad(c) => return Broken(c);
      case Ready(length) =>
        var frame := buf[..length];
        ReadyIsWhole(buf);
        assert buf == frame + buf[length..];
        FlatSnoc(popped, frame);
        Associative(Flat(popped), frame, buf[length..]);
        buf := buf[length..];
        popped := popped + [frame];
        return Frame(frame);
    }

    /** The same answer as `NextFrame`, without consuming it. */
    method PeekFrame() returns (r: Popped)
      ensures r.NeedMore? <==> HeadOf(buf).Wait?
      ensures forall c :: r == Broken(c) <==> HeadOf(buf) == Bad(c)
      ensures r.Frame? ==> Whole(r.bytes) && r.bytes <= buf
    {
      match HeadOf(buf)
      case Wait => return NeedMore;
      case Bad(c) => return Broken(c);
      case Ready(length) =>
        ReadyIsWhole(buf);
        return Frame(buf[..length]);
    }

    /** Pops until more bytes are needed or the stream is broken. */
    method Drain() returns (last: Popped)
      requires Valid()
      modifies this
      ensures Valid() && received == old(received) && old(popped) <= popped
      ensures !HeadOf(buf).Ready? && !last.Frame?
      ensures last.NeedMore? <==> HeadOf(buf).Wait?
      ensures last.NeedMore? ==> |buf| < MAX_MESSAGE_LEN
    {
      last := NextFrame();
      while last.Frame?
        invariant Valid() && received == old(received) && old(popped) <= popped
        invariant !last.Frame? ==> !HeadOf(buf).Ready? && (last.NeedMore? <==> HeadOf(buf).Wait?)
        decreases |buf|, if last.Frame? then 1 else 0
      {
        last := NextFrame();
      }
    }

    method Reset()
      requires Valid()
      modifies this
      ensures Valid() && buf == [] && received == [] && popped == []
    {
      buf, received, popped := [], [], [];
    }
  }

  // ----------------------------------------------------------- reading in batches

  /** One read of everything available: chunk after chunk is pushed before anything is popped. */
  function PushAll(size: nat, chunks: seq<seq<U8>>, capacity: nat): Option<nat>
    decreases |chunks|
  {
    if chunks == [] then Some(size)
    else if size + |chunks[0]| > capacity then None
    else PushAll(size + |chunks[0]|, chunks[1..], capacity)
  }

  /** A batch is refused exactly when all of it together exceeds the cap, however it is cut. */
  lemma {:induction false} BatchRefusedIff(size: nat, chunks: seq<seq<U8>>, capacity: nat)
    requires size <= capacity
    ensures PushAll(size, chunks, capacity).None? <==> size + |Flat(chunks)| > capacity
    decreases |chunks|
  {
    if chunks != [] && size + |chunks[0]| <= capacity {
      BatchRefusedIff(size + |chunks[0]|, chunks[1..], capacity);
    }
  }

  /** A drained framer of the default capacity takes every batch of up to 4097 bytes, but never three full-size messages at once. */
  lemma DrainedBatches(buf: seq<U8>, chunks: seq<seq<U8>>)
    requires HeadOf(buf).Wait?
    ensures |Flat(chunks)| <= MAX_MESSAGE_LEN + 1 ==> PushAll(|buf|, chunks, FRAMER_CAPACITY).Some?
    ensures |chunks| == 3 && AllWhole(chunks) && (forall i :: 0 <= i < 3 ==> |chunks[i]| == MAX_MESSAGE_LEN) ==>
              PushAll(|buf|, chunks, FRAMER_CAPACITY).None?
  {
    BatchRefusedIff(|buf|, chunks, FRAMER_CAPACITY);
    if |chunks| == 3 {
      assert chunks[1..][1..] == chunks[2..] && chunks[2..][1..] == chunks[3..];
      assert Flat(chunks[1..]) == chunks[1] + Flat(chunks[2..]) && Flat(chunks[2..]) == chunks[2] + Flat(chunks[3..]);
    }
  }

  /** Such messages exist: three of them, whole and of 4096 octets each, are refused in whatever state the drained framer is. */
  lemma FullMessagesAreRefused(buf: seq<U8>, code: U8) returns (chunks: seq<seq<U8>>)
    requires HeadOf(buf).Wait?
    ensures |chunks| == 3 && AllWhole(chunks)
    ensures forall i :: 0 <= i < 3 ==> |chunks[i]| == MAX_MESSAGE_LEN && chunks[i][18] == code
    ensures PushAll(|buf|, chunks, FRAMER_CAPACITY).None?
  {
    var body: seq<U8> := seq(MAX_MESSAGE_LEN - HEADER_LEN, i => 0);
    var m := WithHeader(code, body);
    SerializedIsWhole(code, body);
    HeaderFields(code, body);
    chunks := [m, m, m];
    DrainedBatches(buf, chunks);
  }
}
