/** The Docker Engine's multiplexed stream, taken apart into two queues that sized reads and `wait()` share.

    A frame is eight bytes - stream number, three zeroes, big-endian length - and its payload. The socket is an
    adversary: it cuts the wire anywhere and may have nothing ready at any non-blocking call. Output is binary. */
module Demux {
  import opened Options

  type Byte = x: int | 0 <= x < 256

  // --------------------------------------------------------------------------------- the wire format

  function Length(wire: seq<Byte>): nat
    requires |wire| >= 8
  {
    ((wire[4] as int * 256 + wire[5] as int) * 256 + wire[6] as int) * 256 + wire[7] as int
  }

  predicate HasFrame(wire: seq<Byte>) { |wire| >= 8 && |wire| >= 8 + Length(wire) }

  /** The first frame's payload, if it is for this stream. */
  function Own(stream: int, wire: seq<Byte>): seq<Byte>
    requires HasFrame(wire)
  {
    if wire[0] == stream then wire[8..8 + Length(wire)] else []
  }

  /** The payload bytes of one stream, in wire order, of every whole frame. */
  function Payload(stream: int, wire: seq<Byte>): seq<Byte>
    decreases |wire|
  {
    if !HasFrame(wire) then []
    else Own(stream, wire) + Payload(stream, wire[8 + Length(wire)..])
  }

  /** What is left behind the last whole frame. */
  function Rest(wire: seq<Byte>): (r: seq<Byte>)
    ensures !HasFrame(r) && |r| <= |wire|
    decreases |wire|
  {
    if !HasFrame(wire) then wire else Rest(wire[8 + Length(wire)..])
  }

  /** A frame as the daemon sends it: its size is four bytes, the highest first. */
  datatype Frame = Frame(stream: Byte, pad: (Byte, Byte, Byte), payload: seq<Byte>)

  predicate Fits(f: Frame) { |f.payload| < 0x1_0000_0000 }

  function BigEndian(n: nat): (Byte, Byte, Byte, Byte)
    requires n < 0x1_0000_0000
  {
    (n / 0x100_0000, n / 0x1_0000 % 0x100, n / 0x100 % 0x100, n % 0x100)
  }

  function Header(f: Frame): seq<Byte>
    requires Fits(f)
  {
    var size := BigEndian(|f.payload|);
    [f.stream, f.pad.0, f.pad.1, f.pad.2, size.0, size.1, size.2, size.3]
  }

  /** The four bytes carry every size that fits in them. */
  lemma {:induction false} SizeReadsBack(n: nat, wire: seq<Byte>)
    requires n < 0x1_0000_0000 && |wire| >= 8 && (wire[4], wire[5], wire[6], wire[7]) == BigEndian(n)
    ensures Length(wire) == n
  {
    assert n / 0x1_0000 == n / 0x100_0000 * 0x100 + n / 0x1_0000 % 0x100;
    assert n / 0x100 == n / 0x1_0000 * 0x100 + n / 0x100 % 0x100;
  }

  /** What the daemon sends for these frames. */
  function Wire(frames: seq<Frame>): seq<Byte>
    requires forall i :: 0 <= i < |frames| ==> Fits(frames[i])
  {
    if frames == [] then [] else Header(frames[0]) + frames[0].payload + Wire(frames[1..])
  }

  function Sent(stream: int, frames: seq<Frame>): seq<Byte> {
    if frames == [] then []
    else (if frames[0].stream == stream then frames[0].payload else []) + Sent(stream, frames[1..])
  }

  lemma {:induction false} OneFrame(f: Frame, tail: seq<Byte>)
    requires Fits(f)
    ensures var wire := Header(f) + f.payload + tail; HasFrame(wire) && wire[0] == f.stream && Length(wire) == |f.payload|
    ensures var wire := Header(f) + f.payload + tail; wire[8..8 + |f.payload|] == f.payload && wire[8 + |f.payload|..] == tail
  {
    var wire := Header(f) + f.payload + tail;
    assert forall i :: 0 <= i < 8 ==> wire[i] == Header(f)[i];
    SizeReadsBack(|f.payload|, wire);
  }

  /** Reading the wire gives back each stream's bytes, and whatever is not yet a whole frame. */
  lemma {:induction false} FramesReadBack(stream: int, frames: seq<Frame>, partial: seq<Byte>)
    requires (forall i :: 0 <= i < |frames| ==> Fits(frames[i])) && !HasFrame(partial)
    ensures Payload(stream, Wire(frames) + partial) == Sent(stream, frames)
    ensures Rest(Wire(frames) + partial) == partial
  {
    hide Fits, Length, Header;
    if frames == [] {
      assert Wire(frames) + partial == partial;
    } else {
      var f := frames[0];
      var tail := Wire(frames[1..]) + partial;
      assert Wire(frames) + partial == Header(f) + f.payload + tail;
      OneFrame(f, tail);
      FramesReadBack(stream, frames[1..], partial);
    }
  }

  lemma {:induction false} FrameKept(a: seq<Byte>, b: seq<Byte>)
    requires HasFrame(a)
    ensures HasFrame(a + b) && Length(a + b) == Length(a) && (a + b)[0] == a[0]
    ensures (a + b)[8..8 + Length(a)] == a[8..8 + Length(a)]
    ensures (a + b)[8 + Length(a)..] == a[8 + Length(a)..] + b
  {
    assert forall i :: 0 <= i < 8 ==> (a + b)[i] == a[i];
  }

  /** Bytes that arrive later only continue what was left over. */
  lemma {:induction false} PayloadAppend(stream: int, a: seq<Byte>, b: seq<Byte>)
    ensures Payload(stream, a + b) == Payload(stream, a) + Payload(stream, Rest(a) + b)
    ensures Rest(a + b) == Rest(Rest(a) + b)
    decreases |a|
  {
    hide Length, HasFrame;
    if HasFrame(a) {
      FrameKept(a, b);
      PayloadAppend(stream, a[8 + Length(a)..], b);
      Assoc(Own(stream, a), Payload(stream, a[8 + Length(a)..]), Payload(stream, Rest(a) + b));
    } else {
      assert [] + Payload(stream, a + b) == Payload(stream, a + b);
    }
  }

  lemma {:induction false} Assoc(a: seq<Byte>, b: seq<Byte>, c: seq<Byte>)
    ensures a + (b + c) == (a + b) + c
  {
  }

  /** The first frame's bytes belong behind what its queue has, and the rest is read as it would be alone. */
  lemma {:induction false} FirstFrame(wire: seq<Byte>, out: seq<Byte>, err: seq<Byte>)
    requires HasFrame(wire)
    ensures var n := 8 + Length(wire); var payload := wire[8..n]; var rest := wire[n..];
            (out + (if wire[0] == 1 then payload else [])) + Payload(1, rest) == out + Payload(1, wire)
            && (err + (if wire[0] == 2 then payload else [])) + Payload(2, rest) == err + Payload(2, wire)
            && Rest(rest) == Rest(wire)
  {
    hide Length;
    Assoc(out, Own(1, wire), Payload(1, wire[8 + Length(wire)..]));
    Assoc(err, Own(2, wire), Payload(2, wire[8 + Length(wire)..]));
  }

  // -------------------------------------------------------------------------------------- the queues

  function Flat(chunks: seq<seq<Byte>>): seq<Byte> {
    if chunks == [] then [] else Flat(chunks[..|chunks| - 1]) + chunks[|chunks| - 1]
  }

  lemma {:induction false} FlatPush(chunks: seq<seq<Byte>>, chunk: seq<Byte>)
    ensures Flat(chunks + [chunk]) == Flat(chunks) + chunk
  {
    assert (chunks + [chunk])[..|chunks|] == chunks;
  }

  lemma {:induction false} NothingFlat()
    ensures Flat([]) == []
  {
  }

  lemma {:induction false} FlatPop(chunks: seq<seq<Byte>>)
    requires chunks != []
    ensures Flat(chunks) == chunks[0] + Flat(chunks[1..])
    decreases |chunks|
  {
    hide Flat;
    var n := |chunks| - 1;
    FlatPush(chunks[..n], chunks[n]);
    assert chunks == chunks[..n] + [chunks[n]];
    NothingFlat();
    if n == 0 {
      assert chunks[..0] == [] && chunks[1..] == [];
      assert [] + chunks[0] == chunks[0] + [];
    } else {
      FlatPop(chunks[..n]);
      var middle := chunks[1..n];
      assert chunks[..n][1..] == middle && chunks[1..] == middle + [chunks[n]];
      FlatPush(middle, chunks[n]);
      Assoc(chunks[0], Flat(middle), chunks[n]);
    }
  }

  /** What one call took out of a queue: returned to the caller, or lost with the exception it raised. */
  datatype Taken = Taken(stream: int, bytes: seq<Byte>, lost: bool)

  function TakenFrom(log: seq<Taken>, stream: int): seq<Byte> {
    if log == [] then []
    else
      var last := log[|log| - 1];
      TakenFrom(log[..|log| - 1], stream) + (if last.stream == stream then last.bytes else [])
  }

  function Delivered(log: seq<Taken>, stream: int): seq<Byte> {
    if log == [] then []
    else
      var last := log[|log| - 1];
      Delivered(log[..|log| - 1], stream) + (if last.stream == stream && !last.lost then last.bytes else [])
  }

  predicate NothingLost(log: seq<Taken>, stream: int) {
    forall i :: 0 <= i < |log| && log[i].stream == stream && log[i].lost ==> log[i].bytes == []
  }

  lemma {:induction false} DeliveredLength(log: seq<Taken>, stream: int)
    ensures |Delivered(log, stream)| <= |TakenFrom(log, stream)|
    ensures |Delivered(log, stream)| == |TakenFrom(log, stream)| <==> NothingLost(log, stream)
    ensures NothingLost(log, stream) ==> Delivered(log, stream) == TakenFrom(log, stream)
  {
    if log != [] {
      var before := log[..|log| - 1];
      DeliveredLength(before, stream);
      assert NothingLost(log, stream) <==>
        NothingLost(before, stream) && (log[|log| - 1].stream == stream && log[|log| - 1].lost ==> log[|log| - 1].bytes == []);
    }
  }

  lemma {:induction false} TakenMore(log: seq<Taken>, t: Taken, stream: int)
    ensures TakenFrom(log + [t], stream) == TakenFrom(log, stream) + (if t.stream == stream then t.bytes else [])
  {
    assert (log + [t])[..|log|] == log;
  }

  // ------------------------------------------------------------------------------------- the process

  /** What the socket does next: hand over at least one byte, or have nothing ready. Behind the last event it is at
      its end. */
  datatype Event = Chunk(first: Byte, more: seq<Byte>) | NotReady

  /** All the bytes still to come. */
  function Coming(events: seq<Event>): seq<Byte> {
    if events == [] then [] else ChunkOf(events[0]) + Coming(events[1..])
  }

  /** The bytes before the first moment with nothing ready, and the events behind it. */
  function Ready(events: seq<Event>): seq<Byte> {
    if events == [] || events[0].NotReady? then [] else ChunkOf(events[0]) + Ready(events[1..])
  }

  function Behind(events: seq<Event>): seq<Event> {
    if events == [] then [] else if events[0].NotReady? then events[1..] else Behind(events[1..])
  }

  /** Everything that is still to come is ready now, and then the socket ends. */
  predicate AllReady(events: seq<Event>) { forall i :: 0 <= i < |events| ==> events[i].Chunk? }

  function ChunkOf(event: Event): seq<Byte> { if event.Chunk? then [event.first] + event.more else [] }

  /** What one look at the exec's state finds. */
  datatype Poll = Running | TimedOut | Exited(code: Option<int>)

  datatype ReadResult = Bytes(bytes: seq<Byte>) | Dropped | Unsupported

  datatype WaitResult = Status(code: int) | WaitDropped | Timeout

  /** The queues hold what was received and not yet taken out. */
  ghost predicate Queued(tty: bool, queue: seq<seq<Byte>>, stream: int, log: seq<Taken>, received: seq<Byte>) {
    TakenFrom(log, stream) + Flat(queue) == Expected(tty, stream, received)
  }

  /** What one stream has sent so far. A terminal has one stream and no frames. */
  function Expected(tty: bool, stream: int, received: seq<Byte>): seq<Byte> {
    if !tty then Payload(stream, received) else if stream == 1 then received else []
  }

  predicate NoEmpty(queue: seq<seq<Byte>>) { forall i :: 0 <= i < |queue| ==> queue[i] != [] }

  /** The record of a call that has taken `bytes` so far: lost, until it returns them. */
  function Held(log: seq<Taken>, stream: int, bytes: seq<Byte>): seq<Taken> { log + [Taken(stream, bytes, true)] }

  lemma {:induction false} HeldMore(log: seq<Taken>, stream: int, bytes: seq<Byte>, more: seq<Byte>, s: int)
    ensures TakenFrom(Held(log, stream, bytes), s) == TakenFrom(log, s) + (if stream == s then bytes else [])
    ensures TakenFrom(Held(log, stream, bytes + more), s)
            == TakenFrom(Held(log, stream, bytes), s) + (if stream == s then more else [])
    ensures TakenFrom(log + [Taken(stream, bytes, false)], s) == TakenFrom(Held(log, stream, bytes), s)
  {
    TakenMore(log, Taken(stream, bytes, true), s);
    TakenMore(log, Taken(stream, bytes, false), s);
    TakenMore(log, Taken(stream, bytes + more, true), s);
    Assoc(TakenFrom(log, s), bytes, more);
  }

  lemma {:induction false} HeldNothing(log: seq<Taken>, stream: int, s: int)
    ensures TakenFrom(Held(log, stream, []), s) == TakenFrom(log, s)
  {
    TakenMore(log, Taken(stream, [], true), s);
    assert TakenFrom(log, s) + [] == TakenFrom(log, s);
  }

  lemma {:induction false} PushBack(queue: seq<seq<Byte>>, head: seq<Byte>, rest: seq<Byte>)
    requires queue != [] && queue[0] == head + rest
    ensures Flat(queue) == head + Flat([rest] + queue[1..])
  {
    FlatPop(queue);
    FlatPop([rest] + queue[1..]);
    assert ([rest] + queue[1..])[1..] == queue[1..];
    Assoc(head, rest, Flat(queue[1..]));
  }

  /** The bytes behind those already taken. */
  function Missing(taken: seq<Byte>, sent: seq<Byte>): seq<Byte> {
    if |taken| <= |sent| then sent[|taken|..] else []
  }

  /** The socket has not ended for the program yet, and it will end inside a frame. */
  predicate CutOff(tty: bool, eof: bool, total: seq<Byte>) { !tty && !eof && Rest(total) != [] }

  /** A read to the end is under way on a wire that ends inside a frame, and the stream still has bytes on it. */
  predicate Loses(size: int, stream: int, tty: bool, eof: bool, total: seq<Byte>, log: seq<Taken>) {
    size < 0 && CutOff(tty, eof, total) && |TakenFrom(log, stream)| < |Payload(stream, total)|
  }

  lemma {:induction false} ReadyStep(events: seq<Event>)
    ensures events == [] ==> Ready(events) == [] && Behind(events) == [] && AllReady(events)
    ensures events != [] && events[0].NotReady? ==>
      Ready(events) == [] && Behind(events) == events[1..] && !AllReady(events)
    ensures events != [] && events[0].Chunk? ==>
      Ready(events) == ChunkOf(events[0]) + Ready(events[1..]) && Behind(events) == Behind(events[1..])
    ensures events != [] && events[0].Chunk? ==> AllReady(events) == AllReady(events[1..])
  {
    if events != [] && events[0].Chunk? {
      assert events == [events[0]] + events[1..];
    }
  }

  class ContainerProcess {
    const tty: bool
    const polite: bool // the socket can be made non-blocking
    var events: seq<Event>
    var out: seq<seq<Byte>>
    var err: seq<seq<Byte>>
    var wire: seq<Byte>
    var eof: bool
    var closed: bool
    var returncode: Option<int>
    ghost const total: seq<Byte> // everything the daemon will have sent
    ghost var received: seq<Byte>
    ghost var log: seq<Taken>

    /** The frame buffer holds exactly the bytes behind the last whole frame, and nothing received is missing from or
        out of place in the queues. */
    ghost predicate Valid()
      reads this
    {
      && Queued(tty, out, 1, log, received) && Queued(tty, err, 2, log, received)
      && NoEmpty(out) && NoEmpty(err)
      && wire == (if tty then [] else Rest(received))
      && (eof ==> events == [] || closed) && (closed ==> eof)
    }

    ghost predicate Whole()
      reads this`received, this`events
    {
      received + Coming(events) == total
    }

    constructor (tty: bool, polite: bool, events: seq<Event>)
      ensures Valid() && this.tty == tty && this.polite == polite && this.events == events
      ensures Whole() && total == Coming(events)
      ensures log == [] && received == [] && out == [] && err == [] && !eof && !closed
    {
      this.tty, this.polite, this.events := tty, polite, events;
      out, err, wire, eof, closed, returncode := [], [], [], false, false, None;
      received, log, total := [], [], Coming(events);
      assert [] + Coming(events) == Coming(events);
    }

    function Queue(stream: int): seq<seq<Byte>>
      reads this`out, this`err
    {
      if stream == 1 then out else err
    }

    /** A bound on what reading can still do. */
    ghost function Left(): nat
      reads this`events, this`wire
    {
      |Coming(events)| + |wire|
    }

    ghost function Weight(): nat
      reads this`events, this`wire, this`out, this`err
    {
      Left() + |Flat(out)| + |Flat(err)|
    }

    /** A blocking receive: it waits out the moments with nothing ready. Empty means the end. */
    method Recv() returns (chunk: seq<Byte>)
      modifies this`events
      ensures chunk == [] ==> events == []
      ensures chunk + Coming(events) == Coming(old(events))
    {
      while events != [] && events[0].NotReady?
        invariant Coming(events) == Coming(old(events))
      {
        assert [] + Coming(events[1..]) == Coming(events[1..]);
        events := events[1..];
      }
      if events == [] { return []; }
      chunk := ChunkOf(events[0]);
      events := events[1..];
    }

    lemma {:induction false} PushNoEmpty(queue: seq<seq<Byte>>, payload: seq<Byte>)
      requires NoEmpty(queue) && payload != []
      ensures NoEmpty(queue + [payload])
    {
    }

    method AppendTo(stream: int, payload: seq<Byte>)
      requires stream == 1 || stream == 2
      requires payload != [] && NoEmpty(out) && NoEmpty(err)
      modifies this`out, this`err
      ensures NoEmpty(out) && NoEmpty(err)
      ensures out == if stream == 1 then old(out) + [payload] else old(out)
      ensures err == if stream == 2 then old(err) + [payload] else old(err)
      ensures Flat(out) == Flat(old(out)) + (if stream == 1 then payload else [])
      ensures Flat(err) == Flat(old(err)) + (if stream == 2 then payload else [])
    {
      hide Flat;
      FlatPush(out, payload);
      FlatPush(err, payload);
      PushNoEmpty(out, payload);
      PushNoEmpty(err, payload);
      assert Flat(out) + [] == Flat(out) && Flat(err) + [] == Flat(err);
      if stream == 1 { out := out + [payload]; } else { err := err + [payload]; }
    }

    /** Move every whole frame from the buffer to its queue. */
    method ConsumeFrames() returns (consumed: bool)
      requires NoEmpty(out) && NoEmpty(err)
      modifies this`out, this`err, this`wire
      ensures NoEmpty(out) && NoEmpty(err)
      ensures Flat(out) == Flat(old(out)) + Payload(1, old(wire))
      ensures Flat(err) == Flat(old(err)) + Payload(2, old(wire))
      ensures wire == Rest(old(wire)) && consumed == HasFrame(old(wire))
      ensures !consumed ==> out == old(out) && err == old(err) && wire == old(wire)
      ensures consumed ==> |wire| < |old(wire)|
      ensures |wire| + |Flat(out)| + |Flat(err)| <= |old(wire)| + |Flat(old(out))| + |Flat(old(err))|
    {
      consumed := false;
      while HasFrame(wire)
        invariant NoEmpty(out) && NoEmpty(err)
        invariant Flat(out) + Payload(1, wire) == Flat(old(out)) + Payload(1, old(wire))
        invariant Flat(err) + Payload(2, wire) == Flat(old(err)) + Payload(2, old(wire))
        invariant Rest(wire) == Rest(old(wire))
        invariant !consumed ==> out == old(out) && err == old(err) && wire == old(wire)
        invariant consumed ==> |wire| < |old(wire)| && HasFrame(old(wire))
        invariant |wire| + |Flat(out)| + |Flat(err)| <= |old(wire)| + |Flat(old(out))| + |Flat(old(err))|
        decreases |wire|
      {
        ConsumeFrame();
        consumed := true;
      }
    }

    method ConsumeFrame()
      requires NoEmpty(out) && NoEmpty(err) && HasFrame(wire)
      modifies this`out, this`err, this`wire
      ensures NoEmpty(out) && NoEmpty(err)
      ensures Flat(out) + Payload(1, wire) == Flat(old(out)) + Payload(1, old(wire))
      ensures Flat(err) + Payload(2, wire) == Flat(old(err)) + Payload(2, old(wire))
      ensures Rest(wire) == Rest(old(wire)) && |wire| < |old(wire)|
      ensures |wire| + |Flat(out)| + |Flat(err)| <= |old(wire)| + |Flat(old(out))| + |Flat(old(err))|
    {
      hide Length, Flat, Payload, Rest, NoEmpty;
      var frameSize := 8 + Length(wire);
      var stream := wire[0];
      var payload := wire[8..frameSize];
      FirstFrame(wire, Flat(out), Flat(err));
      wire := wire[frameSize..];
      assert Flat(out) + [] == Flat(out) && Flat(err) + [] == Flat(err);
      if (stream == 1 || stream == 2) && payload != [] {
        AppendTo(stream as int, payload);
      }
    }

    /** What arrives goes through the frame buffer into the queues. */
    method TakeIn(chunk: seq<Byte>) returns (consumed: bool)
      requires Valid() && !tty && received + (chunk + Coming(events)) == total
      modifies this`out, this`err, this`wire, this`received
      ensures Valid() && Whole() && received == old(received) + chunk
      ensures consumed == HasFrame(old(wire) + chunk)
      ensures !consumed ==> out == old(out) && err == old(err)
      ensures consumed ==> |wire| < |old(wire)| + |chunk|
      ensures |wire| <= |old(wire)| + |chunk|
      ensures |wire| + |Flat(out)| + |Flat(err)| <= |old(wire)| + |chunk| + |Flat(old(out))| + |Flat(old(err))|
    {
      hide Flat, HasFrame, NoEmpty, Coming, Payload, Rest, TakenFrom;
      PayloadAppend(1, received, chunk);
      PayloadAppend(2, received, chunk);
      Assoc(TakenFrom(log, 1), Flat(out), Payload(1, wire + chunk));
      Assoc(TakenFrom(log, 2), Flat(err), Payload(2, wire + chunk));
      Assoc(received, chunk, Coming(events));
      received := received + chunk;
      wire := wire + chunk;
      consumed := ConsumeFrames();
    }

    /** The end of the socket; `false` is the program's error for a frame cut short. */
    method FinishWire() returns (ok: bool)
      requires Valid() && events == []
      modifies this`eof
      ensures Valid() && eof && ok == (wire == [])
    {
      eof := true;
      ok := wire == [];
    }

    method ReceiveTerminal()
      requires Valid() && Whole() && tty && !eof
      modifies this`events, this`out, this`err, this`eof, this`received
      ensures Valid() && Whole() && old(received) <= received && Weight() <= old(Weight())
      ensures eof ==> out == old(out) && received == old(received)
      ensures !eof ==> Left() < old(Left())
      ensures err == old(err)
    {
      hide Flat, Payload, Rest, TakenFrom, NoEmpty, Coming;
      var value := Recv();
      if value != [] {
        Assoc(TakenFrom(log, 1), Flat(out), value);
        Assoc(received, value, Coming(events));
        received := received + value;
        AppendTo(1, value);
      } else {
        eof := true;
      }
    }

    /** Block until a frame is complete or the socket ends. */
    method Receive() returns (ok: bool)
      requires Valid() && Whole()
      modifies this`events, this`out, this`err, this`wire, this`eof, this`received
      ensures Valid() && Whole() && old(received) <= received && Weight() <= old(Weight())
      ensures old(eof) ==> ok && eof && received == old(received)
      ensures !ok ==> !old(eof) && eof && wire != []
      ensures !ok || eof ==> out == old(out) && err == old(err)
      ensures ok && !old(eof) && eof ==> wire == []
      ensures ok && !eof ==> Left() < old(Left())
    {
      hide Flat, Payload, Rest, HasFrame, Coming;
      ok := true;
      if eof { return; }
      if tty { ReceiveTerminal(); return; }
      var consumed := ConsumeFrames();
      while !consumed
        invariant Valid() && Whole() && old(received) <= received && Weight() <= old(Weight()) && !eof
        invariant !consumed ==> out == old(out) && err == old(err)
        invariant consumed ==> Left() < old(Left())
        invariant Left() <= old(Left())
        decreases |Coming(events)|
      {
        var chunk := Recv();
        if chunk == [] {
          ok := FinishWire();
          return;
        }
        consumed := TakeIn(chunk);
      }
    }

    lemma {:induction false} NextChunk()
      requires events != []
      ensures Coming(events) == ChunkOf(events[0]) + Coming(events[1..])
      ensures events[0].NotReady? ==> Coming(events) == Coming(events[1..])
    {
      assert [] + Coming(events[1..]) == Coming(events[1..]);
    }

    /** Take what is there without blocking. */
    method ReceiveAvailable() returns (ok: bool)
      requires Valid() && Whole()
      modifies this`events, this`out, this`err, this`wire, this`eof, this`received
      ensures Valid() && Whole() && old(received) <= received
      ensures old(eof) || closed || !polite ==> ok && received == old(received) && eof == old(eof) && events == old(events)
      ensures !old(eof) && !closed && polite ==>
        received == old(received) + Ready(old(events)) && events == Behind(old(events)) && eof == AllReady(old(events))
      ensures !ok ==> !old(eof) && eof && wire != []
      ensures ok && !old(eof) && eof ==> wire == []
    {
      hide Flat, Payload, Rest, HasFrame, Coming, AllReady, Ready, Behind;
      ok := true;
      if eof || closed || !polite { return; }
      assert received + Ready(events) == old(received) + Ready(old(events));
      while !eof
        invariant Valid() && Whole() && old(received) <= received && !eof
        invariant received + Ready(events) == old(received) + Ready(old(events))
        invariant Behind(events) == Behind(old(events)) && AllReady(events) == AllReady(old(events))
        decreases |events| + if eof then 0 else 1
      {
        ReadyStep(events);
        if events == [] {
          if tty { eof := true; } else { ok := FinishWire(); }
          break;
        }
        NextChunk();
        if events[0].NotReady? {
          events := events[1..];
          break;
        }
        var value := ChunkOf(events[0]);
        Assoc(received, value, Ready(events[1..]));
        events := events[1..];
        if tty {
          Assoc(TakenFrom(log, 1), Flat(out), value);
          Assoc(received, value, Coming(events));
          received := received + value;
          AppendTo(1, value);
        } else {
          var _ := TakeIn(value);
        }
      }
    }

    /** Block until the stream has something queued or the socket ends. */
    method Fill(stream: int) returns (ok: bool)
      requires Valid() && Whole()
      modifies this`events, this`out, this`err, this`wire, this`eof, this`received
      ensures Valid() && Whole() && old(received) <= received && Weight() <= old(Weight())
      ensures old(eof) ==> eof && received == old(received)
      ensures old(Queue(stream)) != [] ==> ok && received == old(received) && eof == old(eof) && Queue(stream) == old(Queue(stream))
      ensures ok ==> Queue(stream) != [] || eof
      ensures !ok ==> !old(eof) && eof && wire != [] && Queue(stream) == []
      ensures ok && !old(eof) && eof ==> wire == []
    {
      hide Flat, Coming, Payload, Rest, HasFrame, Queued, NoEmpty, Expected;
      ok := true;
      while Queue(stream) == [] && !eof
        invariant Valid() && Whole() && old(received) <= received && Weight() <= old(Weight())
        invariant old(eof) ==> eof && received == old(received)
        invariant old(Queue(stream)) != [] ==> received == old(received) && eof == old(eof) && Queue(stream) == old(Queue(stream))
        invariant !old(eof) && eof ==> wire == []
        decreases Left(), if eof then 0 else 1
      {
        ok := Receive();
        if !ok { return; }
      }
    }

    /** Take the head of a queue, or the first `room` bytes of it. */
    method Pop(stream: int, room: Option<nat>, ghost before: seq<Taken>, ghost output: seq<Byte>) returns (chunk: seq<Byte>)
      requires Valid() && (stream == 1 || stream == 2) && Queue(stream) != []
      requires room.Some? ==> room.value > 0
      requires log == Held(before, stream, output)
      modifies this`out, this`err, this`log
      ensures Valid() && log == Held(before, stream, output + chunk)
      ensures chunk != [] && (room.Some? ==> |chunk| <= room.value)
      ensures Weight() < old(Weight())
    {
      hide Flat, Payload, Rest, HasFrame, Expected, Held, TakenFrom, Coming;
      var queue := Queue(stream);
      FlatPop(queue);
      chunk := queue[0];
      var left := queue[1..];
      if room.Some? && |chunk| > room.value {
        var rest := chunk[room.value..];
        chunk := chunk[..room.value];
        PushBack(queue, chunk, rest);
        left := [rest] + left;
      }
      HeldMore(before, stream, output, chunk, 1);
      HeldMore(before, stream, output, chunk, 2);
      Assoc(TakenFrom(log, stream), chunk, Flat(left));
      log := Held(before, stream, output + chunk);
      if stream == 1 { out := left; } else { err := left; }
    }

    /** Read from one stream: everything to its end if `size` is negative, else as soon as there is something. */
    method ReadStream(stream: int, size: int) returns (r: ReadResult)
      requires Valid() && Whole() && (stream == 1 || stream == 2)
      modifies this`events, this`out, this`err, this`wire, this`eof, this`received, this`log
      ensures Valid() && Whole() && old(received) <= received
      ensures r.Unsupported? <==> tty && stream == 2
      ensures r.Bytes? && size != 0 ==> log == old(log) + [Taken(stream, r.bytes, false)]
      ensures r.Unsupported? || size == 0 ==> log == old(log) && received == old(received)
      ensures r.Bytes? && size >= 0 ==> |r.bytes| <= size
      // Nothing means the end, and a read without a bound gets all there ever was.
      ensures r == Bytes([]) && size != 0 ==> eof && Queue(stream) == []
      ensures r.Bytes? && size < 0 ==> eof && Queue(stream) == []
      // With something queued a sized read waits for nothing.
      ensures size > 0 && old(Queue(stream)) != [] && !r.Unsupported? ==>
        r.Bytes? && r.bytes != [] && received == old(received) && eof == old(eof)
      // An error means a partial frame at the end of the socket, found by this very call.
      ensures r.Dropped? ==> !old(eof) && eof && wire != [] && Queue(stream) == []
      ensures !r.Dropped? && !old(eof) && eof ==> wire == []
      ensures old(eof) ==> eof && received == old(received)
      // A read to the end raises exactly on a wire that will end inside a frame, and what it then loses is all that
      // its stream still had; a sized one raises there when its stream has nothing left, and loses nothing.
      ensures size < 0 && !r.Unsupported? ==> (r.Dropped? <==> CutOff(tty, old(eof), total))
      ensures size > 0 && !r.Unsupported? ==>
        (r.Dropped? <==> CutOff(tty, old(eof), total) && |TakenFrom(old(log), stream)| >= |Payload(stream, total)|)
      ensures r.Dropped? ==> log == Held(old(log), stream,
        if size < 0 then Missing(TakenFrom(old(log), stream), Payload(stream, total)) else [])
    {
      hide Flat, Coming, Payload, Rest, HasFrame, Queued, NoEmpty, Expected, TakenFrom, Missing, Held;
      if tty && stream == 2 { return Unsupported; }
      if size == 0 { return Bytes([]); }
      var output := [];
      StartHolding(stream);
      while size < 0 || |output| < size
        invariant Valid() && Whole() && old(received) <= received && log == Held(old(log), stream, output)
        invariant size >= 0 ==> output == [] && Queue(stream) == old(Queue(stream)) && received == old(received) && eof == old(eof)
        invariant old(eof) ==> eof && received == old(received)
        invariant !old(eof) && eof ==> wire == []
        decreases Weight()
      {
        var ok := Fill(stream);
        if !ok {
          DropTakes(old(log), stream, output);
          return Dropped;
        }
        if Queue(stream) == [] { break; }
        var chunk := Pop(stream, if size < 0 then None else Some(size), old(log), output);
        output := output + chunk;
        if size >= 0 {
          assert output == chunk;
          StillHas(old(log), stream, output);
          Return(old(log), stream, output);
          return Bytes(output);
        }
      }
      if !old(eof) { CleanEnd(); }
      Return(old(log), stream, output);
      r := Bytes(output);
    }

    /** Out of bytes at a cut end: the call holds all that the stream still had. */
    lemma {:induction false} DropTakes(before: seq<Taken>, stream: int, output: seq<Byte>)
      requires Valid() && Whole() && eof && !closed && wire != [] && (stream == 1 || stream == 2)
      requires Queue(stream) == [] && log == Held(before, stream, output)
      ensures !tty && Rest(total) != [] && output == Missing(TakenFrom(before, stream), Payload(stream, total))
      ensures |TakenFrom(before, stream)| + |output| == |Payload(stream, total)|
    {
      hide Payload, Rest, TakenFrom, NoEmpty;
      AtTheSocketsEnd();
      HeldMore(before, stream, output, [], stream);
      var taken := TakenFrom(before, stream);
      assert taken + output + [] == Payload(stream, total) && taken + output + [] == taken + output;
      assert (taken + output)[|taken|..] == output;
    }

    lemma {:induction false} CleanEnd()
      requires Valid() && Whole() && eof && !closed && wire == []
      ensures tty || Rest(total) == []
    {
      hide Payload, Rest, TakenFrom;
      AtTheSocketsEnd();
    }

    lemma {:induction false} AtTheSocketsEnd()
      requires Valid() && Whole() && eof && !closed
      ensures received == total
    {
      assert received + [] == received;
    }

    /** A call that has something in hand had something to come. */
    lemma {:induction false} StillHas(before: seq<Taken>, stream: int, output: seq<Byte>)
      requires Valid() && Whole() && output != [] && (stream == 1 || stream == 2) && !(tty && stream == 2)
      requires log == Held(before, stream, output)
      ensures !tty ==> |TakenFrom(before, stream)| < |Payload(stream, total)|
    {
      hide Payload, Rest, TakenFrom, NoEmpty, Coming, Flat;
      HeldMore(before, stream, output, [], stream);
      PayloadAppend(stream, received, Coming(events));
      if !tty {
        assert |TakenFrom(log, stream)| <= |Payload(stream, received)| <= |Payload(stream, total)|;
      }
    }

    ghost method StartHolding(stream: int)
      requires Valid()
      modifies this`log
      ensures Valid() && log == Held(old(log), stream, [])
    {
      hide TakenFrom, Flat, Payload, Rest, NoEmpty, Expected;
      HeldNothing(log, stream, 1);
      HeldNothing(log, stream, 2);
      log := Held(log, stream, []);
    }

    ghost method Return(before: seq<Taken>, stream: int, output: seq<Byte>)
      requires Valid() && log == Held(before, stream, output)
      modifies this`log
      ensures Valid() && log == before + [Taken(stream, output, false)]
    {
      hide TakenFrom, Flat, Payload, Rest, NoEmpty, Expected;
      HeldMore(before, stream, output, [], 1);
      HeldMore(before, stream, output, [], 2);
      log := before + [Taken(stream, output, false)];
    }

    /** `wait`: take what is there, look at the state, again. */
    method Wait(polls: seq<Poll>) returns (r: WaitResult)
      requires Valid() && Whole()
      modifies this`events, this`out, this`err, this`wire, this`eof, this`received, this`returncode
      ensures Valid() && Whole() && old(received) <= received
      ensures !old(eof) && !closed && polite ==> old(received) + Ready(old(events)) <= received
      ensures r.WaitDropped? ==> !old(eof) && eof && wire != []
      ensures !r.WaitDropped? && !old(eof) && eof ==> wire == []
      ensures old(eof) ==> eof && received == old(received)
      ensures r.Status? ==> returncode == Some(r.code)
      ensures old(returncode).Some? ==> returncode == old(returncode) && !r.Timeout?
    {
      hide Flat, Coming, Payload, Rest, HasFrame, Queued, NoEmpty, Expected, TakenFrom;
      var i := 0;
      while true
        invariant Valid() && Whole() && old(received) <= received && i <= |polls|
        invariant i == 0 ==> events == old(events) && received == old(received) && eof == old(eof)
        invariant i > 0 && !old(eof) && !closed && polite ==> old(received) + Ready(old(events)) <= received
        invariant old(eof) ==> eof && received == old(received)
        invariant !old(eof) && eof ==> wire == []
        invariant returncode == old(returncode)
        decreases |polls| - i
      {
        var ok := ReceiveAvailable();
        if !ok { return WaitDropped; }
        if returncode.None? && i < |polls| && polls[i].Exited? {
          returncode := Some(if polls[i].code.Some? then polls[i].code.value else -1);
        }
        if returncode.Some? { return Status(returncode.value); }
        if i == |polls| || polls[i].TimedOut? { return Timeout; }
        i := i + 1;
      }
    }

    method Close()
      requires Valid()
      modifies this`eof, this`closed
      ensures Valid() && closed
    {
      if !closed { eof, closed := true, true; }
    }
  }

  // --------------------------------------------------------------------------------------- whole runs

  datatype Op = Read(size: int) | ReadStderr(size: int) | WaitFor(polls: seq<Poll>) | CloseIt

  /** The stream that a call reads, and its bound. */
  function StreamOf(op: Op): int { if op.Read? then 1 else if op.ReadStderr? then 2 else 0 }

  function SizeOf(op: Op): int { if op.Read? || op.ReadStderr? then op.size else 0 }

  /** Every read has a bound. */
  predicate AllSized(ops: seq<Op>) { forall i :: 0 <= i < |ops| ==> SizeOf(ops[i]) >= 0 }

  /** What was handed out, followed by what is queued, is what the stream has sent. */
  ghost predicate Conserved(p: ContainerProcess, stream: int)
    reads p
  {
    Delivered(p.log, stream) + Flat(p.Queue(stream)) == Expected(p.tty, stream, p.received)
  }

  lemma {:induction false} ConservedIs(p: ContainerProcess, stream: int)
    requires p.Valid() && (stream == 1 || stream == 2)
    ensures Conserved(p, stream) <==> NothingLost(p.log, stream)
  {
    hide Flat, Payload, Rest, Delivered, TakenFrom, NothingLost;
    DeliveredLength(p.log, stream);
    assert TakenFrom(p.log, stream) + Flat(p.Queue(stream)) == Expected(p.tty, stream, p.received);
  }

  lemma {:induction false} LostMore(before: seq<Taken>, t: Taken, stream: int)
    ensures NothingLost(before + [t], stream)
            <==> NothingLost(before, stream) && (t.stream == stream && t.lost ==> t.bytes == [])
  {
    var log := before + [t];
    assert log[|before|] == t && forall i :: 0 <= i < |before| ==> log[i] == before[i];
  }

  /** Any calls in any order, on any socket. Every stream is conserved if all reads have a bound, if the wire ends with a
      whole frame, or if the stream has nothing on it; and the error for a cut frame is raised once if the socket ended
      inside one and never otherwise. */
  method Run(p: ContainerProcess, ops: seq<Op>) returns (drops: nat)
    requires p.Valid() && p.Whole() && !p.eof
    modifies p
    ensures p.Valid() && p.Whole() && drops <= 1
    ensures p.eof && !p.closed ==> (drops == 1 <==> !p.tty && Rest(p.total) != [])
    ensures !p.eof ==> drops == 0
    ensures forall s :: (s == 1 || s == 2) && old(Conserved(p, s)) && Safe(p.tty, p.total, s, ops) ==> Conserved(p, s)
  {
    hide Flat, Coming, Payload, Rest, HasFrame, Queued, NoEmpty, Expected, TakenFrom, Delivered, Conserved;
    drops := 0;
    for i := 0 to |ops|
      invariant p.Valid() && p.Whole() && drops <= 1
      invariant p.eof && !p.closed ==> (drops == 1 <==> p.wire != [])
      invariant !p.eof ==> drops == 0
      invariant forall s :: (s == 1 || s == 2) && old(Conserved(p, s)) && Safe(p.tty, p.total, s, ops) ==> Conserved(p, s)
    {
      var dropped := Call(p, ops[i]);
      if dropped { drops := drops + 1; }
    }
    if p.eof && !p.closed { AtTheEnd(p); }
  }

  /** No call of these can lose bytes of the stream. */
  predicate Safe(tty: bool, total: seq<Byte>, stream: int, ops: seq<Op>) {
    AllSized(ops) || tty || Rest(total) == [] || Payload(stream, total) == []
  }

  /** One call conserves what was conserved - unless it reads a stream to the end, on a wire that will end inside a
      frame, while that stream still has bytes to hand out; and then it does not. */
  method Call(p: ContainerProcess, op: Op) returns (dropped: bool)
    requires p.Valid() && p.Whole()
    modifies p
    ensures p.Valid() && p.Whole()
    ensures forall s :: s == 1 || s == 2 ==>
      (Conserved(p, s) <==> old(Conserved(p, s))
                            && !(s == StreamOf(op) && Loses(SizeOf(op), s, p.tty, old(p.eof), p.total, old(p.log))))
    ensures dropped ==> !old(p.eof) && p.eof && p.wire != []
    ensures !dropped && !old(p.eof) && p.eof && !p.closed ==> p.wire == []
    ensures old(p.eof) ==> p.eof && p.received == old(p.received)
    ensures old(p.closed) ==> p.closed
    ensures old(p.wire) == (if p.tty then [] else Rest(old(p.received)))
  {
    hide Flat, Coming, Payload, Rest, HasFrame, Queued, NoEmpty, Expected, TakenFrom, NothingLost, Conserved, Missing, Held;
    ConservedIs(p, 1);
    ConservedIs(p, 2);
    match op {
      case Read(size) =>
        dropped := ReadOne(p, 1, size);
      case ReadStderr(size) =>
        dropped := ReadOne(p, 2, size);
      case WaitFor(polls) =>
        var r := p.Wait(polls);
        dropped := r.WaitDropped?;
      case CloseIt =>
        p.Close();
        dropped := false;
    }
    ConservedIs(p, 1);
    ConservedIs(p, 2);
  }

  method ReadOne(p: ContainerProcess, stream: int, size: int) returns (dropped: bool)
    requires p.Valid() && p.Whole() && (stream == 1 || stream == 2)
    modifies p`events, p`out, p`err, p`wire, p`eof, p`received, p`log
    ensures p.Valid() && p.Whole()
    ensures forall s :: s == 1 || s == 2 ==>
      (NothingLost(p.log, s) <==> NothingLost(old(p.log), s)
                                  && !(s == stream && Loses(size, s, p.tty, old(p.eof), p.total, old(p.log))))
    ensures dropped ==> !old(p.eof) && p.eof && p.wire != []
    ensures !dropped && !old(p.eof) && p.eof ==> p.wire == []
    ensures old(p.eof) ==> p.eof && p.received == old(p.received)
  {
    hide Flat, Coming, Payload, Rest, HasFrame, Queued, NoEmpty, Expected, TakenFrom, NothingLost;
    var r := p.ReadStream(stream, size);
    dropped := r.Dropped?;
    if p.log != old(p.log) {
      LostMore(old(p.log), p.log[|old(p.log)|], 1);
      LostMore(old(p.log), p.log[|old(p.log)|], 2);
    }
  }

  /** For every wire that ends inside a frame and every stream with bytes on it there is a call that loses them: the
      first read to the end. */
  method FirstReadLoses(p: ContainerProcess, stream: int)
    requires p.Valid() && p.Whole() && (stream == 1 || stream == 2) && p.log == []
    requires CutOff(p.tty, p.eof, p.total) && Payload(stream, p.total) != []
    modifies p
    ensures p.Valid() && !Conserved(p, stream)
    ensures p.log == [Taken(stream, Payload(stream, p.total), true)]
  {
    hide Flat, Coming, Payload, Rest, HasFrame, Queued, NoEmpty, Expected, NothingLost, Conserved;
    ConservedIs(p, stream);
    LostMore([], Taken(stream, Payload(stream, p.total), true), stream);
    var r := p.ReadStream(stream, -1);
    ConservedIs(p, stream);
  }

  /** At the end of the socket every byte was received, and the frame buffer says whether it ended inside a frame. */
  lemma {:induction false} AtTheEnd(p: ContainerProcess)
    requires p.Valid() && p.Whole() && p.eof && !p.closed
    ensures p.received == p.total
    ensures !p.tty ==> (p.wire == [] <==> Rest(p.total) == [])
  {
    assert p.received + [] == p.received;
  }

  /** The smallest case: a whole frame and one byte more, and a read to the end raises with the frame's byte in hand. */
  method ReadToEndCanLose() returns (p: ContainerProcess)
    ensures p.Valid() && !Conserved(p, 1)
    ensures Payload(1, p.total) == [7] && p.log == [Taken(1, [7], true)]
  {
    hide Flat, Coming, Payload, Rest, HasFrame, Queued, NoEmpty, Expected, NothingLost, Conserved;
    var event := Chunk(1, [0, 0, 0, 0, 0, 0, 1, 7, 1]);
    p := new ContainerProcess(false, true, [event]);
    LosingWire(event);
    FirstReadLoses(p, 1);
  }

  lemma {:induction false} LosingWire(event: Event)
    requires event == Chunk(1, [0, 0, 0, 0, 0, 0, 1, 7, 1])
    ensures Coming([event]) == Header(Frame(1, (0, 0, 0), [7])) + [7] + [1]
    ensures Rest(Coming([event])) == [1] && Payload(1, Coming([event])) == [7]
  {
    var f := Frame(1, (0, 0, 0), [7]);
    assert [event][1..] == [] && Coming([]) == [];
    assert Coming([event]) == Header(f) + [7] + [1];
    assert Wire([f]) == Header(f) + [7] by { assert [f][1..] == [] && Wire([]) == []; }
    assert Sent(1, [f]) == [7] by { assert [f][1..] == [] && Sent(1, []) == []; }
    FramesReadBack(1, [f], [1]);
  }
}
