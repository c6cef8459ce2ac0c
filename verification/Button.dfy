/** `button.py`: a press-then-release detector over a chunked stream of
    `input_event` records, and the two bitmap encodings of key codes. */
module Button {
  import opened Basics

  const EVENT_SIZE := 24
  const EV_KEY := 1

  // ------------------------------------------------------------- one event

  /** Native `llHHi`, little-endian: type at 16, code at 18, signed value at 20. */
  datatype InputEvent = InputEvent(kind: int, code: int, value: int)

  function Unsigned(b: Bytes): int {
    if b == [] then 0 else b[0] + 256 * Unsigned(b[1..])
  }

  function Decode(chunk: Bytes): InputEvent
    requires |chunk| == EVENT_SIZE
  {
    var raw := Unsigned(chunk[20..24]);
    InputEvent(Unsigned(chunk[16..18]), Unsigned(chunk[18..20]),
               if raw < 0x8000_0000 then raw else raw - 0x1_0000_0000)
  }

  /** The 24 bytes of an event: 16 of time, then type, code and value, each with its
      low byte first, the value in two's complement. */
  ghost predicate Encodes(s: Bytes, kind: int, code: int, value: int) {
    var v := if value < 0 then value + 0x1_0000_0000 else value;
    && |s| == 24 && 0 <= kind < 0x1_0000 && 0 <= code < 0x1_0000 && -0x8000_0000 <= value < 0x8000_0000
    && s[16] == kind % 256 && s[17] == kind / 256 && s[18] == code % 256 && s[19] == code / 256
    && s[20] == v % 256 && s[21] == v / 256 % 256 && s[22] == v / 0x1_0000 % 256 && s[23] == v / 0x100_0000
  }

  lemma UnsignedTwo(a: Byte, b: Byte)
    ensures Unsigned([a, b]) == a + 256 * b
  {
    assert [a, b][1..] == [b] && [b][1..] == [];
    assert Unsigned([b]) == b;
  }

  lemma UnsignedFour(a: Byte, b: Byte, c: Byte, d: Byte)
    ensures Unsigned([a, b, c, d]) == a + 256 * b + 0x1_0000 * c + 0x100_0000 * d
  {
    assert [a, b, c, d][1..] == [b, c, d] && [b, c, d][1..] == [c, d];
    UnsignedTwo(c, d);
  }

  /** Decoding gives back what was encoded, whatever the time bytes. */
  lemma DecodeEncoded(s: Bytes, kind: int, code: int, value: int)
    requires Encodes(s, kind, code, value)
    ensures Decode(s) == InputEvent(kind, code, value)
  {
    assert s[16..18] == [s[16], s[17]] && s[18..20] == [s[18], s[19]];
    assert s[20..24] == [s[20], s[21], s[22], s[23]];
    UnsignedTwo(s[16], s[17]);
    UnsignedTwo(s[18], s[19]);
    UnsignedFour(s[20], s[21], s[22], s[23]);
    hide Unsigned;
    Digits(if value < 0 then value + 0x1_0000_0000 else value);
  }

  lemma Digits(v: int)
    requires 0 <= v < 0x1_0000_0000
    ensures v == v % 256 + 256 * (v / 256 % 256) + 0x1_0000 * (v / 0x1_0000 % 256) + 0x100_0000 * (v / 0x100_0000)
  {
  }

  /** Every 24 bytes are some event's. */
  lemma EveryChunkEncodes(s: Bytes)
    requires |s| == 24
    ensures Encodes(s, Decode(s).kind, Decode(s).code, Decode(s).value)
  {
    assert s[16..18] == [s[16], s[17]] && s[18..20] == [s[18], s[19]];
    assert s[20..24] == [s[20], s[21], s[22], s[23]];
    UnsignedTwo(s[16], s[17]);
    UnsignedTwo(s[18], s[19]);
    UnsignedFour(s[20], s[21], s[22], s[23]);
    hide Unsigned;
    DigitsAre(s[20], s[21], s[22], s[23]);
  }

  lemma DigitsAre(a: Byte, b: Byte, c: Byte, d: Byte)
    ensures var v := a + 256 * b + 0x1_0000 * c + 0x100_0000 * d;
      && v % 256 == a && v / 256 % 256 == b && v / 0x1_0000 % 256 == c && v / 0x100_0000 == d
      && 0 <= v < 0x1_0000_0000
  {
  }

  predicate Press(e: InputEvent, code: int) {
    e.kind == EV_KEY && e.code == code && e.value == 1
  }

  predicate Release(e: InputEvent, code: int) {
    e.kind == EV_KEY && e.code == code && e.value == 0
  }

  /** The `i`-th whole event of a byte stream. */
  function EventAt(s: Bytes, i: nat): InputEvent
    requires EVENT_SIZE * (i + 1) <= |s|
  {
    Decode(s[EVENT_SIZE * i..EVENT_SIZE * (i + 1)])
  }

  /** Event `j` releases the key, and some earlier event pressed it. */
  ghost predicate CompletesAt(s: Bytes, code: int, j: nat) {
    && EVENT_SIZE * (j + 1) <= |s| && Release(EventAt(s, j), code)
    && exists i :: 0 <= i < j && Press(EventAt(s, i), code)
  }

  ghost predicate FirstAt(s: Bytes, code: int, j: nat) {
    CompletesAt(s, code, j) && forall k: nat | k < j :: !CompletesAt(s, code, k)
  }

  ghost predicate Confirmed(s: Bytes, code: int) {
    exists j: nat :: CompletesAt(s, code, j)
  }

  /** Key events in bytes: bytes 24 to 48 release what bytes 0 to 24 pressed. */
  lemma PressReleaseConfirms(press: Bytes, release: Bytes, code: int)
    requires Encodes(press, 1, code, 1) && Encodes(release, 1, code, 0)
    ensures Confirmed(press + release, code) && !Confirmed(press, code) && !Confirmed(release + press, code)
  {
    PairConfirms(press, release, code);
    PairConfirms(release, press, code);
    DecodeEncoded(press, 1, code, 1);
    DecodeEncoded(release, 1, code, 0);
    hide Decode, Encodes;
    assert forall j: nat :: !CompletesAt(press, code, j);
  }

  lemma PairConfirms(a: Bytes, b: Bytes, code: int)
    requires |a| == 24 && |b| == 24
    ensures Confirmed(a + b, code) <==> Press(Decode(a), code) && Release(Decode(b), code)
  {
    hide Decode;
    var s := a + b;
    assert s[0..24] == a && s[24..48] == b;
    assert EventAt(s, 0) == Decode(a) && EventAt(s, 1) == Decode(b);
    if Press(Decode(a), code) && Release(Decode(b), code) {
      assert CompletesAt(s, code, 1);
    }
    if j: nat :| CompletesAt(s, code, j) {
      var i :| 0 <= i < j && Press(EventAt(s, i), code);
      assert i == 0 && j == 1;
    }
  }

  /** A stream is confirmed exactly when it holds, at multiples of 24, the bytes of a
      press of the key and later those of a release of it. */
  lemma ConfirmedMeans(s: Bytes, code: int)
    ensures Confirmed(s, code) <==>
      exists i: nat, j: nat :: i < j && IsEventAt(s, i, code, 1) && IsEventAt(s, j, code, 0)
  {
    hide Decode, Encodes;
    forall i: nat
      ensures IsEventAt(s, i, code, 1) <==> 24 * (i + 1) <= |s| && Press(EventAt(s, i), code)
      ensures IsEventAt(s, i, code, 0) <==> 24 * (i + 1) <= |s| && Release(EventAt(s, i), code)
    {
      EventIs(s, i, code);
    }
    hide IsEventAt, EventAt;
    if j: nat :| CompletesAt(s, code, j) {
      var i: nat :| i < j && Press(EventAt(s, i), code);
      assert IsEventAt(s, i, code, 1) && IsEventAt(s, j, code, 0);
    }
    if i: nat, j: nat :| i < j && IsEventAt(s, i, code, 1) && IsEventAt(s, j, code, 0) {
      assert CompletesAt(s, code, j);
    }
  }

  ghost predicate IsEventAt(s: Bytes, i: nat, code: int, value: int) {
    24 * (i + 1) <= |s| && Encodes(s[24 * i..24 * (i + 1)], 1, code, value)
  }

  lemma EventIs(s: Bytes, i: nat, code: int)
    ensures IsEventAt(s, i, code, 1) <==> 24 * (i + 1) <= |s| && Press(EventAt(s, i), code)
    ensures IsEventAt(s, i, code, 0) <==> 24 * (i + 1) <= |s| && Release(EventAt(s, i), code)
  {
    if 24 * (i + 1) <= |s| {
      var chunk := s[24 * i..24 * (i + 1)];
      EveryChunkEncodes(chunk);
      if Encodes(chunk, 1, code, 1) { DecodeEncoded(chunk, 1, code, 1); }
      if Encodes(chunk, 1, code, 0) { DecodeEncoded(chunk, 1, code, 0); }
      hide Decode, Encodes;
    }
  }

  // ------------------------------------------------------------- the waiter

  datatype Scanned = Scanned(fired: bool, pressed: bool, rest: Bytes)

  /** What one call makes of the buffered bytes. */
  function Scan(pressed: bool, s: Bytes, code: int): Scanned
    decreases |s|
  {
    if |s| < EVENT_SIZE then Scanned(false, pressed, s)
    else
      var e := Decode(s[..EVENT_SIZE]);
      if Release(e, code) && pressed then Scanned(true, pressed, s[EVENT_SIZE..])
      else Scan(pressed || Press(e, code), s[EVENT_SIZE..], code)
  }

  class PressWaiter {
    const code: int
    var buf: Bytes
    var pressed: bool

    constructor (code: int)
      ensures this.code == code && buf == [] && !pressed
    {
      this.code := code;
      buf, pressed := [], false;
    }

    method Feed(data: Bytes) returns (fired: bool)
      modifies this
      ensures Scanned(fired, pressed, buf) == Scan(old(pressed), old(buf) + data, code)
      ensures !fired ==> |buf| < EVENT_SIZE
    {
      buf := buf + data;
      while |buf| >= EVENT_SIZE
        invariant Scan(pressed, buf, code) == Scan(old(pressed), old(buf) + data, code)
        decreases |buf|
      {
        var chunk := buf[..EVENT_SIZE];
        buf := buf[EVENT_SIZE..];
        var e := Decode(chunk);
        if e.kind == EV_KEY && e.code == code {
          if e.value == 1 {
            pressed := true;
          } else if e.value == 0 && pressed {
            return true;
          }
        }
      }
      return false;
    }
  }

  // ------------------------------------------------------------- chunking

  function Joined(chunks: seq<Bytes>): Bytes {
    if chunks == [] then [] else Joined(chunks[..|chunks| - 1]) + chunks[|chunks| - 1]
  }

  /** The waiter after a list of calls, stopping at the first that fires. */
  function FedAll(chunks: seq<Bytes>, code: int): Scanned {
    if chunks == [] then Scanned(false, false, [])
    else
      var w := FedAll(chunks[..|chunks| - 1], code);
      if w.fired then w else Scan(w.pressed, w.rest + chunks[|chunks| - 1], code)
  }

  lemma {:induction false} ScanOn(pressed: bool, s: Bytes, more: Bytes, code: int)
    ensures var w := Scan(pressed, s, code);
      && (!w.fired ==> Scan(pressed, s + more, code) == Scan(w.pressed, w.rest + more, code))
      && (w.fired ==> Scan(pressed, s + more, code).fired)
    decreases |s|
  {
    if |s| >= EVENT_SIZE {
      var e := Decode(s[..EVENT_SIZE]);
      assert (s + more)[..EVENT_SIZE] == s[..EVENT_SIZE];
      assert (s + more)[EVENT_SIZE..] == s[EVENT_SIZE..] + more;
      if !(Release(e, code) && pressed) {
        ScanOn(pressed || Press(e, code), s[EVENT_SIZE..], more, code);
      }
    }
  }

  /** Until it fires, the waiter is where one call with all the bytes would be. */
  lemma {:induction false} FedIsScan(chunks: seq<Bytes>, code: int)
    ensures FedAll(chunks, code).fired == Scan(false, Joined(chunks), code).fired
    ensures !FedAll(chunks, code).fired ==> FedAll(chunks, code) == Scan(false, Joined(chunks), code)
  {
    if chunks != [] {
      var init, last := chunks[..|chunks| - 1], chunks[|chunks| - 1];
      FedIsScan(init, code);
      hide Scan;
      ScanOn(false, Joined(init), last, code);
    }
  }

  // ------------------------------------------------------------- what it detects

  ghost predicate PressedBy(s: Bytes, code: int, k: nat) {
    exists i :: 0 <= i < k && EVENT_SIZE * (i + 1) <= |s| && Press(EventAt(s, i), code)
  }

  /** Scanning from event `k` on, knowing nothing completed before it. */
  lemma {:induction false} ScanFrom(s: Bytes, code: int, k: nat)
    requires EVENT_SIZE * k <= |s|
    requires forall j: nat | j < k :: !CompletesAt(s, code, j)
    ensures var w := Scan(PressedBy(s, code, k), s[EVENT_SIZE * k..], code);
      && (w.fired <==> Confirmed(s, code))
      && (!w.fired ==> w.rest == s[EVENT_SIZE * (|s| / EVENT_SIZE)..])
    decreases |s| - EVENT_SIZE * k
  {
    var t := s[EVENT_SIZE * k..];
    if |t| < EVENT_SIZE {
      assert |s| / EVENT_SIZE == k;
      assert forall j: nat | CompletesAt(s, code, j) :: j < k;
    } else {
      assert t[..EVENT_SIZE] == s[EVENT_SIZE * k..EVENT_SIZE * (k + 1)];
      assert t[EVENT_SIZE..] == s[EVENT_SIZE * (k + 1)..];
      var e := EventAt(s, k);
      PressedNext(s, code, k);
      assert CompletesAt(s, code, k) <==> Release(e, code) && PressedBy(s, code, k);
      if !CompletesAt(s, code, k) {
        ScanFrom(s, code, k + 1);
      }
    }
  }

  lemma PressedNext(s: Bytes, code: int, k: nat)
    requires EVENT_SIZE * (k + 1) <= |s|
    ensures PressedBy(s, code, k + 1) <==> PressedBy(s, code, k) || Press(EventAt(s, k), code)
  {
    if PressedBy(s, code, k + 1) && !Press(EventAt(s, k), code) {
      var i :| 0 <= i < k + 1 && EVENT_SIZE * (i + 1) <= |s| && Press(EventAt(s, i), code);
      assert i < k;
    }
    if Press(EventAt(s, k), code) {
      assert PressedBy(s, code, k + 1);
    }
  }

  /** One scan of a stream fires exactly when the stream holds a press followed by
      a release; otherwise what is left is the unread tail, short of an event. */
  lemma {:induction false} ScanDetects(s: Bytes, code: int)
    ensures Scan(false, s, code).fired <==> Confirmed(s, code)
    ensures !Scan(false, s, code).fired ==> Scan(false, s, code).rest == s[EVENT_SIZE * (|s| / EVENT_SIZE)..]
  {
    assert s[EVENT_SIZE * 0..] == s;
    assert !PressedBy(s, code, 0);
    ScanFrom(s, code, 0);
  }

  lemma ConfirmedLater(s: Bytes, more: Bytes, code: int)
    ensures Confirmed(s, code) ==> Confirmed(s + more, code)
    ensures forall j: nat | EVENT_SIZE * (j + 1) <= |s| :: CompletesAt(s + more, code, j) <==> CompletesAt(s, code, j)
  {
    forall i: nat | EVENT_SIZE * (i + 1) <= |s|
      ensures EventAt(s + more, i) == EventAt(s, i)
    {
      assert (s + more)[EVENT_SIZE * i..EVENT_SIZE * (i + 1)] == s[EVENT_SIZE * i..EVENT_SIZE * (i + 1)];
    }
    forall j: nat | EVENT_SIZE * (j + 1) <= |s|
      ensures CompletesAt(s + more, code, j) <==> CompletesAt(s, code, j)
    {
    }
  }

  lemma {:induction false} JoinedPrefix(chunks: seq<Bytes>, i: nat)
    requires i <= |chunks|
    ensures Joined(chunks[..i]) <= Joined(chunks)
    decreases |chunks|
  {
    if i < |chunks| {
      JoinedPrefix(chunks[..|chunks| - 1], i);
      assert chunks[..|chunks| - 1][..i] == chunks[..i];
    } else {
      assert chunks[..i] == chunks;
    }
  }

  /** However the stream is cut into chunks: the call with chunk `i` is the first to
      fire exactly when that chunk brings the last byte of the first completing
      event; as long as no call has fired, the buffer is the unread tail. */
  lemma ChunkingIsInvisible(chunks: seq<Bytes>, code: int, i: nat)
    requires i < |chunks|
    ensures var before, upTo := |Joined(chunks[..i])|, |Joined(chunks[..i + 1])|;
      (!FedAll(chunks[..i], code).fired && FedAll(chunks[..i + 1], code).fired)
      <==> exists j: nat :: FirstAt(Joined(chunks), code, j) && before < EVENT_SIZE * (j + 1) <= upTo
    ensures !FedAll(chunks[..i], code).fired ==>
      var s := Joined(chunks[..i]);
      FedAll(chunks[..i], code).rest == s[EVENT_SIZE * (|s| / EVENT_SIZE)..]
      && |FedAll(chunks[..i], code).rest| < EVENT_SIZE
  {
    FiresByThen(chunks, code, i);
    FiresByThen(chunks, code, i + 1);
    FedIsScan(chunks[..i], code);
    ScanDetects(Joined(chunks[..i]), code);
    hide Scan, FedAll, CompletesAt, Joined;
    var s := Joined(chunks);
    if Confirmed(s, code) {
      var _ := FirstExists(s, code);
    }
    if FedAll(chunks[..i + 1], code).fired && !FedAll(chunks[..i], code).fired {
      var k: nat :| CompletesAt(s, code, k) && EVENT_SIZE * (k + 1) <= |Joined(chunks[..i + 1])|;
      assert Confirmed(s, code);
      var j := FirstExists(s, code);
      assert j <= k;
    }
  }

  lemma FirstExists(s: Bytes, code: int) returns (j: nat)
    requires Confirmed(s, code)
    ensures FirstAt(s, code, j)
  {
    var m: nat :| CompletesAt(s, code, m);
    j := FirstUpTo(s, code, m);
  }

  lemma {:induction false} FirstUpTo(s: Bytes, code: int, m: nat) returns (j: nat)
    requires CompletesAt(s, code, m)
    ensures FirstAt(s, code, j)
  {
    if k: nat :| k < m && CompletesAt(s, code, k) {
      j := FirstUpTo(s, code, k);
    } else {
      j := m;
    }
  }

  /** By the end of chunk `i` it has fired exactly when a completing event has fully arrived. */
  lemma FiresByThen(chunks: seq<Bytes>, code: int, i: nat)
    requires i <= |chunks|
    ensures FedAll(chunks[..i], code).fired <==>
      exists j: nat :: CompletesAt(Joined(chunks), code, j) && EVENT_SIZE * (j + 1) <= |Joined(chunks[..i])|
  {
    var s, t := Joined(chunks), Joined(chunks[..i]);
    JoinedPrefix(chunks, i);
    assert s == t + s[|t|..];
    FedIsScan(chunks[..i], code);
    ScanDetects(t, code);
    ConfirmedLater(t, s[|t|..], code);
    hide Scan, FedAll, Joined;
    if Confirmed(t, code) {
      var j: nat :| CompletesAt(t, code, j);
      assert CompletesAt(s, code, j);
    }
  }

  // ------------------------------------------------------------- the wait

  /** What a read of the non-blocking device returns; no bytes at all is the end of file. */
  datatype Read = Blocked | Data(bytes: Bytes)

  /** One turn of the wait: the clock as it is read, and whether `select` says ready. */
  datatype Tick = Tick(now: real, ready: bool)

  class Device {
    var queue: seq<Read>

    method Next() returns (r: Read)
      modifies this
      ensures old(queue) == [] ==> r == Blocked && queue == []
      ensures old(queue) != [] ==> [r] + queue == old(queue)
    {
      if queue == [] {
        return Blocked;
      }
      r := queue[0];
      queue := queue[1..];
    }
  }

  /** What is left to read once the queue is drained. */
  function AfterDrain(queue: seq<Read>): seq<Read> {
    if queue == [] then []
    else if queue[0] == Blocked || queue[0].bytes == [] then queue[1..]
    else AfterDrain(queue[1..])
  }

  method Drain(dev: Device)
    modifies dev
    ensures dev.queue == AfterDrain(old(dev.queue))
  {
    var more := true;
    while more
      invariant more ==> AfterDrain(dev.queue) == AfterDrain(old(dev.queue))
      invariant !more ==> dev.queue == AfterDrain(old(dev.queue))
      decreases |dev.queue|, more
    {
      var r := dev.Next();
      more := r.Data? && r.bytes != [];
    }
  }

  /** One turn of the wait: time is up, nothing to read, or some bytes. */
  datatype Turn = Expired | Nothing | Chunk(data: Bytes)

  /** The bytes one turn reads, none if there is nothing to read, and what is left. */
  function ReadOf(queue: seq<Read>, ready: bool): (Bytes, seq<Read>) {
    if !ready || queue == [] then ([], queue)
    else (if queue[0].Data? then queue[0].bytes else [], queue[1..])
  }

  function TurnOf(queue: seq<Read>, tick: Tick, deadline: real): (Turn, seq<Read>) {
    if deadline - tick.now <= 0.0 then (Expired, queue)
    else var (chunk, rest) := ReadOf(queue, tick.ready); (if chunk == [] then Nothing else Chunk(chunk), rest)
  }

  function Turns(queue: seq<Read>, ticks: seq<Tick>, deadline: real): (turns: seq<Turn>)
    ensures |turns| == |ticks|
  {
    if ticks == [] then []
    else var (turn, rest) := TurnOf(queue, ticks[0], deadline); [turn] + Turns(rest, ticks[1..], deadline)
  }

  /** The bytes that arrive before the window closes. */
  function InWindow(turns: seq<Turn>): seq<Bytes> {
    if turns == [] || turns[0].Expired? then []
    else if turns[0].Chunk? then [turns[0].data] + InWindow(turns[1..])
    else InWindow(turns[1..])
  }

  /** The chunks that count: read after the drain, at a turn the clock still allows. */
  function Live(queue: seq<Read>, ticks: seq<Tick>, deadline: real): seq<Bytes> {
    InWindow(Turns(AfterDrain(queue), ticks, deadline))
  }

  /** Nothing queued before the drain counts: neither the read that ends the
      drain nor any before it. */
  lemma {:induction false} QueuedNeverCounts(queued: seq<Read>, stop: Read, rest: seq<Read>)
    requires forall r | r in queued :: r.Data? && r.bytes != []
    requires stop == Blocked || stop.bytes == []
    ensures AfterDrain(queued + [stop] + rest) == rest
  {
    var all := queued + [stop] + rest;
    if queued == [] {
      assert all == [stop] + rest && all[1..] == rest;
    } else {
      assert all[0] == queued[0] && queued[0] in queued;
      assert all[1..] == queued[1..] + [stop] + rest;
      QueuedNeverCounts(queued[1..], stop, rest);
    }
  }

  /** Nothing counts from the first turn at which the time is up, whatever is read then. */
  lemma {:induction false} LateNeverCounts(queue: seq<Read>, ticks: seq<Tick>, deadline: real, i: nat)
    requires i < |ticks| && ticks[i].now >= deadline
    ensures InWindow(Turns(queue, ticks, deadline)) == InWindow(Turns(queue, ticks[..i], deadline))
    decreases i
  {
    if i > 0 {
      var (turn, rest) := TurnOf(queue, ticks[0], deadline);
      assert ticks[..i][0] == ticks[0] && ticks[..i][1..] == ticks[1..][..i - 1];
      LateNeverCounts(rest, ticks[1..], deadline, i - 1);
      assert Turns(queue, ticks, deadline)[1..] == Turns(rest, ticks[1..], deadline);
      assert Turns(queue, ticks[..i], deadline)[1..] == Turns(rest, ticks[..i][1..], deadline);
    }
  }

  function ReadyTurns(ticks: seq<Tick>): nat {
    if ticks == [] then 0 else (if ticks[0].ready then 1 else 0) + ReadyTurns(ticks[1..])
  }

  /** The bytes of a list of reads, one after another. */
  function BytesOf(rs: seq<Read>): Bytes {
    if rs == [] then [] else (if rs[0].Data? then rs[0].bytes else []) + BytesOf(rs[1..])
  }

  lemma {:induction false} JoinedFront(chunk: Bytes, chunks: seq<Bytes>)
    ensures Joined([chunk] + chunks) == chunk + Joined(chunks)
    decreases |chunks|
  {
    var all := [chunk] + chunks;
    if chunks == [] {
      assert all[..0] == [] && chunk + [] == chunk && [] + chunk == chunk;
    } else {
      var init := chunks[..|chunks| - 1];
      JoinedFront(chunk, init);
      assert all[..|all| - 1] == [chunk] + init;
    }
  }

  /** As long as the time is not up every read counts, in order: one for each turn
      at which there is something to read. */
  lemma {:induction false} TimelyCounts(queue: seq<Read>, ticks: seq<Tick>, deadline: real)
    requires forall t | t in ticks :: t.now < deadline
    ensures var n := ReadyTurns(ticks);
      Joined(InWindow(Turns(queue, ticks, deadline))) == BytesOf(if n <= |queue| then queue[..n] else queue)
  {
    if ticks != [] {
      var (turn, rest) := TurnOf(queue, ticks[0], deadline);
      assert ticks[0] in ticks && forall t | t in ticks[1..] :: t in ticks;
      TimelyCounts(rest, ticks[1..], deadline);
      var turns, n := Turns(queue, ticks, deadline), ReadyTurns(ticks);
      assert turns == [turn] + Turns(rest, ticks[1..], deadline);
      if turn.Chunk? { JoinedFront(turn.data, InWindow(turns[1..])); }
      if ticks[0].ready && queue != [] {
        assert rest == queue[1..];
        FirstRead(queue, n);
      }
    }
  }

  lemma FirstRead(queue: seq<Read>, n: nat)
    requires queue != [] && n > 0
    ensures BytesOf(if n <= |queue| then queue[..n] else queue)
      == (if queue[0].Data? then queue[0].bytes else [])
         + BytesOf(if n - 1 <= |queue| - 1 then queue[1..][..n - 1] else queue[1..])
  {
    hide BytesOf;
    if n <= |queue| {
      BytesStep(queue[..n]);
      assert queue[..n][1..] == queue[1..][..n - 1];
    } else {
      BytesStep(queue);
    }
  }

  lemma BytesStep(rs: seq<Read>)
    requires rs != []
    ensures BytesOf(rs) == (if rs[0].Data? then rs[0].bytes else []) + BytesOf(rs[1..])
  {
  }

  /** After `i` turns `fed` has come, and the rest of `live` is still to come. */
  ghost predicate Owed(live: seq<Bytes>, fed: seq<Bytes>, queue: seq<Read>, ticks: seq<Tick>, i: nat, deadline: real)
    requires i <= |ticks|
  {
    live == fed + InWindow(Turns(queue, ticks[i..], deadline))
  }

  lemma OwedNext(live: seq<Bytes>, fed: seq<Bytes>, queue: seq<Read>, ticks: seq<Tick>, i: nat, deadline: real)
    requires i < |ticks| && Owed(live, fed, queue, ticks, i, deadline)
    ensures deadline - ticks[i].now <= 0.0 ==> live == fed
    ensures deadline - ticks[i].now > 0.0 ==>
      var (chunk, rest) := ReadOf(queue, ticks[i].ready);
      Owed(live, if chunk == [] then fed else fed + [chunk], rest, ticks, i + 1, deadline)
  {
    assert ticks[i..][0] == ticks[i] && ticks[i..][1..] == ticks[i + 1..];
    var (turn, rest) := TurnOf(queue, ticks[i], deadline);
    assert Turns(queue, ticks[i..], deadline)[1..] == Turns(rest, ticks[i + 1..], deadline);
  }

  lemma OwedEnds(live: seq<Bytes>, fed: seq<Bytes>, queue: seq<Read>, ticks: seq<Tick>, i: nat, deadline: real)
    requires i <= |ticks| && Owed(live, fed, queue, ticks, i, deadline)
    ensures fed <= live && (i == |ticks| ==> live == fed)
  {
  }

  lemma OwedStarts(queue: seq<Read>, ticks: seq<Tick>, deadline: real)
    ensures Owed(InWindow(Turns(queue, ticks, deadline)), [], queue, ticks, 0, deadline)
  {
    assert ticks[0..] == ticks;
  }

  /** `select`, and the read it allows. */
  method TryRead(dev: Device, ready: bool) returns (chunk: Bytes)
    modifies dev
    ensures (chunk, dev.queue) == ReadOf(old(dev.queue), ready)
  {
    chunk := [];
    if ready {
      var r := dev.Next();
      if r.Data? {
        chunk := r.bytes;
      }
    }
  }

  /** `feed`, for a waiter that has been fed `fed` and not fired. */
  method FeedNext(waiter: PressWaiter, chunk: Bytes, ghost fed: seq<Bytes>) returns (fired: bool)
    requires FedAll(fed, waiter.code) == Scanned(false, waiter.pressed, waiter.buf)
    modifies waiter
    ensures FedAll(fed + [chunk], waiter.code) == Scanned(fired, waiter.pressed, waiter.buf)
  {
    hide Scan, FedAll;
    FedMore(fed, chunk, waiter.code);
    fired := waiter.Feed(chunk);
  }

  /** The loop of the wait. It ends when the turns run out, at the latest. */
  method WaitTurns(dev: Device, waiter: PressWaiter, deadline: real, ticks: seq<Tick>) returns (ok: bool)
    requires FedAll([], waiter.code) == Scanned(false, waiter.pressed, waiter.buf)
    modifies dev, waiter
    ensures ok <==> Confirmed(Joined(InWindow(Turns(old(dev.queue), ticks, deadline))), waiter.code)
  {
    hide *;
    ghost var live := InWindow(Turns(dev.queue, ticks, deadline));
    ghost var fed: seq<Bytes> := [];
    var i := 0;
    OwedStarts(dev.queue, ticks, deadline);
    while i < |ticks|
      invariant i <= |ticks|
      invariant Owed(live, fed, dev.queue, ticks, i, deadline)
      invariant FedAll(fed, waiter.code) == Scanned(false, waiter.pressed, waiter.buf)
    {
      OwedNext(live, fed, dev.queue, ticks, i, deadline);
      if deadline - ticks[i].now <= 0.0 {
        NothingFired(fed, waiter.code);
        return false;
      }
      var chunk := TryRead(dev, ticks[i].ready);
      if chunk != [] {
        var fired := FeedNext(waiter, chunk, fed);
        fed := fed + [chunk];
        if fired {
          OwedEnds(live, fed, dev.queue, ticks, i + 1, deadline);
          EnoughArrived(fed, live, waiter.code);
          return true;
        }
      }
      i := i + 1;
    }
    OwedEnds(live, fed, dev.queue, ticks, i, deadline);
    NothingFired(fed, waiter.code);
    return false;
  }

  /** `_wait_press_release_on_fd`: what was queued is drained, a key already held is
      rejected, and then only a press and a release that are both read before the
      deadline confirm. */
  method WaitPressRelease(dev: Device, held: bool, code: int, start: real, window: real, ticks: seq<Tick>)
    returns (ok: bool)
    modifies dev
    ensures ok <==> !held && Confirmed(Joined(Live(old(dev.queue), ticks, start + window)), code)
  {
    Drain(dev);
    if held {
      return false;
    }
    hide Confirmed, Joined, InWindow, Turns, AfterDrain;
    NothingFed(code);
    var waiter := new PressWaiter(code);
    ok := WaitTurns(dev, waiter, start + window, ticks);
  }

  lemma NothingFed(code: int)
    ensures FedAll([], code) == Scanned(false, false, [])
  {
  }

  lemma FedMore(fed: seq<Bytes>, data: Bytes, code: int)
    requires !FedAll(fed, code).fired
    ensures FedAll(fed + [data], code) == Scan(FedAll(fed, code).pressed, FedAll(fed, code).rest + data, code)
  {
    assert (fed + [data])[..|fed|] == fed;
    hide Scan;
  }

  lemma NothingFired(fed: seq<Bytes>, code: int)
    requires !FedAll(fed, code).fired
    ensures !Confirmed(Joined(fed), code)
  {
    hide Scan, FedAll, Joined;
    FedIsScan(fed, code);
    ScanDetects(Joined(fed), code);
  }

  lemma EnoughArrived(fed: seq<Bytes>, all: seq<Bytes>, code: int)
    requires fed <= all && FedAll(fed, code).fired
    ensures Confirmed(Joined(all), code)
  {
    assert fed == all[..|fed|];
    FiresByThen(all, code, |fed|);
  }
}
