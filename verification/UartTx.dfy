/** The transmit side of FluidNC/esp32/fnc_idf_uart.c as a concurrent protocol: fnc_uart_tx_all() with
    and without a ring buffer, and the TXFIFO_EMPTY branch of the interrupt handler. An activation of
    the handler is one step; the task is cut at every call that other steps can see. No breaks. */
module UartTx {
  import opened Bytes

  const FIFO_LEN := 128
  const EMPTY_THRESH := 10
  const WORD := 0x1_0000_0000

  // What is sent to the ring: a length header, or a chunk of bytes. The ring itself does not tell
  // them apart.
  datatype Item = Header(size: nat) | Chunk(bytes: seq<Byte>)

  // tx_ptr, with the bytes of its item from there on.
  datatype Ptr = Null | At(bytes: seq<Byte>)

  // Where the task that holds tx_mux is.
  datatype Task =
    | Idle
    // with a ring buffer
    | SendHeader(src: seq<Byte>)
    | SendChunk(rest: seq<Byte>)
    | EnableTx(rest: seq<Byte>)
    // without: it takes the semaphore, writes, and either marks the wait or goes on
    | TakeSem(rest: seq<Byte>)
    | WriteFifo(rest: seq<Byte>)
    | MarkWait(rest: seq<Byte>)
    | EnableWait(rest: seq<Byte>)
    | GiveSem

  datatype Tx = Tx(
    bufSize: nat,           // tx_buf_size
    chunk: nat,             // half the ring's largest item
    fifo: seq<Byte>,        // hardware FIFO
    enabled: bool,          // TXFIFO_EMPTY enabled
    ring: seq<Item>,        // tx_ring_buf
    lenTot: nat,            // tx_len_tot, unsigned 32-bit
    lenCur: nat,            // tx_len_cur
    ptr: Ptr,               // tx_ptr
    sem: bool,              // tx_fifo_sem available
    waiting: bool,          // tx_waiting_fifo
    task: Task,
    // histories: bytes on the wire, bytes of all writes so far, whether an item was taken for the other kind
    wire: seq<Byte>,
    written: seq<Byte>,
    confused: bool)

  datatype Action = Drain | Interrupt | StartWrite(src: seq<Byte>) | TaskStep

  function Min(a: nat, b: nat): nat { if a < b then a else b }

  // ---- The interrupt handler, transmit branch ------------------------------------------------------------

  // The handler's loop: the driver's state, the room it counts on, its en_tx_flg, and whether it left the loop.
  datatype Turn = Turn(s: Tx, room: nat, enable: bool, done: bool)

  predicate Pointed(s: Tx) {
    s.ptr.At? ==> |s.ptr.bytes| == s.lenCur
  }

  predicate NeedsItem(s: Tx) {
    s.lenTot == 0 || s.ptr.Null? || s.lenCur == 0
  }

  // A chunk read as a header gives some length or other; `confused` records that it happened.
  function TakeHeader(s: Tx, item: Item): Tx {
    s.(ptr := Null, lenTot := if item.Header? then item.size else |item.bytes|, confused := s.confused || item.Chunk?)
  }

  function TakeChunk(s: Tx, item: Item): Tx {
    var bytes := if item.Chunk? then item.bytes else [];
    s.(ptr := At(bytes), lenCur := |bytes|, confused := s.confused || item.Header?)
  }

  // An item that arrives while neither is expected is dropped.
  function TakeItem(t: Turn): (r: Turn)
    requires Pointed(t.s) && t.s.ring != []
    ensures Pointed(r.s) && |r.s.ring| < |t.s.ring| && r.room == t.room
  {
    var item := t.s.ring[0];
    var s := t.s.(ring := t.s.ring[1..]);
    if s.lenTot == 0 then t.(s := TakeHeader(s, item))
    else if s.ptr.Null? then t.(s := TakeChunk(s, item), enable := true)
    else t.(s := s)
  }

  function Push(t: Turn): (r: Turn)
    requires Pointed(t.s) && !NeedsItem(t.s) && t.room > 0
    ensures Pointed(r.s) && r.room < t.room && r.s.ring == t.s.ring
  {
    var n := Min(t.s.lenCur, t.room);
    var cur := t.s.lenCur - n;
    var s := t.s.(fifo := t.s.fifo + t.s.ptr.bytes[..n], lenTot := (t.s.lenTot - n) % WORD, lenCur := cur,
                  ptr := if cur == 0 then Null else At(t.s.ptr.bytes[n..]));
    t.(s := s, room := t.room - n, enable := true)
  }

  function FillTurn(t: Turn): (r: Turn)
    requires Pointed(t.s) && t.room > 0 && !t.done
    ensures Pointed(r.s) && r.room <= t.room && |r.s.ring| <= |t.s.ring|
    ensures r.done || r.room < t.room || |r.s.ring| < |t.s.ring|
  {
    if NeedsItem(t.s) && t.s.ring == [] then t.(done := true)
    else
      var t1 := if NeedsItem(t.s) then TakeItem(t) else t;
      if NeedsItem(t1.s) then t1 else Push(t1)
  }

  function Fill(t: Turn): (r: Turn)
    requires Pointed(t.s)
    ensures Pointed(r.s)
    decreases t.room + |t.s.ring|, !t.done
  {
    if t.done || t.room == 0 then t else Fill(FillTurn(t))
  }

  function InterruptTx(s: Tx): Tx
    requires Pointed(s) && |s.fifo| <= FIFO_LEN
  {
    if s.waiting && s.bufSize == 0 then s.(enabled := false, waiting := false, sem := true)
    else if s.bufSize == 0 then s.(enabled := false)
    else
      var t := Fill(Turn(s.(enabled := false), FIFO_LEN - |s.fifo|, false, false));
      t.s.(enabled := t.enable)
  }

  // ---- The task ------------------------------------------------------------------------------------------

  predicate CanStep(s: Tx) {
    match s.task
    case Idle => false
    case TakeSem(_) => s.sem
    case _ => true
  }

  function StepTask(s: Tx): Tx
    requires CanStep(s) && |s.fifo| <= FIFO_LEN
  {
    match s.task
    case SendHeader(src) => s.(ring := s.ring + [Header(|src|)], task := SendChunk(src))
    case SendChunk(rest) =>
      var n := Min(|rest|, s.chunk);
      s.(ring := s.ring + [Chunk(rest[..n])], task := EnableTx(rest[n..]))
    case EnableTx(rest) => s.(enabled := true, task := if rest == [] then Idle else SendChunk(rest))
    case TakeSem(rest) => s.(sem := false, task := WriteFifo(rest))
    case WriteFifo(rest) =>
      var n := Min(|rest|, FIFO_LEN - |s.fifo|);
      s.(fifo := s.fifo + rest[..n], task := if n < |rest| then MarkWait(rest[n..]) else GiveSem)
    case MarkWait(rest) => s.(waiting := true, task := EnableWait(rest))
    case EnableWait(rest) => s.(enabled := true, task := TakeSem(rest))
    case GiveSem => s.(sem := true, task := Idle)
  }

  // ---- Runs ----------------------------------------------------------------------------------------------

  predicate Possible(s: Tx, a: Action) {
    && |s.fifo| <= FIFO_LEN && Pointed(s)
    && match a
       case Drain => s.fifo != []
       // The interrupt comes when it is enabled and the FIFO is down to the threshold.
       case Interrupt => s.enabled && |s.fifo| <= EMPTY_THRESH
       case StartWrite(src) => s.task.Idle? && |src| < WORD
       case TaskStep => CanStep(s)
  }

  function Apply(s: Tx, a: Action): Tx
    requires Possible(s, a)
  {
    match a
    case Drain => s.(wire := s.wire + s.fifo[..1], fifo := s.fifo[1..])
    case Interrupt => InterruptTx(s)
    case StartWrite(src) =>
      s.(written := s.written + src,
         task := if src == [] then Idle else if s.bufSize > 0 then SendHeader(src) else TakeSem(src))
    case TaskStep => StepTask(s)
  }

  // The driver as installed: a ring is larger than the FIFO, and its largest item with what the ring adds
  // to it takes half of it.
  predicate Initial(s: Tx) {
    && s.fifo == s.wire == s.written == [] && s.ring == [] && !s.enabled
    && s.lenTot == s.lenCur == 0 && s.ptr.Null? && s.sem && !s.waiting && s.task.Idle? && !s.confused
    && RingSize(s.bufSize, s.chunk)
  }

  predicate RingSize(bufSize: nat, chunk: nat) {
    bufSize > 0 ==> bufSize > FIFO_LEN && 0 < chunk <= bufSize / 4
  }

  predicate CanRun(s: Tx, actions: seq<Action>)
    decreases |actions|
  {
    actions == [] || (Possible(s, actions[0]) && CanRun(Apply(s, actions[0]), actions[1..]))
  }

  function Run(s: Tx, actions: seq<Action>): Tx
    requires CanRun(s, actions)
    decreases |actions|
  {
    if actions == [] then s else Run(Apply(s, actions[0]), actions[1..])
  }

  // ---- Framing -------------------------------------------------------------------------------------------

  // The items, read with `n` bytes of the current write still to come, alternate as the protocol has it
  // and end with `owed` bytes to come: a header for each write, then chunks that add up to its length.
  predicate Frames(n: nat, items: seq<Item>, owed: nat)
    decreases |items|
  {
    if items == [] then n == owed
    else if n == 0 then items[0].Header? && 0 < items[0].size < WORD && Frames(items[0].size, items[1..], owed)
    else items[0].Chunk? && 0 < |items[0].bytes| <= n && Frames(n - |items[0].bytes|, items[1..], owed)
  }

  lemma {:induction false} FramesHeader(n: nat, items: seq<Item>, size: nat)
    requires Frames(n, items, 0) && 0 < size < WORD
    ensures Frames(n, items + [Header(size)], size)
    decreases |items|
  {
    if items == [] {
      assert (items + [Header(size)])[1..] == [];
    } else {
      assert (items + [Header(size)])[1..] == items[1..] + [Header(size)];
      FramesHeader(if n == 0 then items[0].size else n - |items[0].bytes|, items[1..], size);
    }
  }

  lemma {:induction false} FramesData(n: nat, items: seq<Item>, owed: nat, bytes: seq<Byte>)
    requires Frames(n, items, owed) && 0 < |bytes| <= owed
    ensures Frames(n, items + [Chunk(bytes)], owed - |bytes|)
    decreases |items|
  {
    if items == [] {
      assert (items + [Chunk(bytes)])[1..] == [];
    } else {
      assert (items + [Chunk(bytes)])[1..] == items[1..] + [Chunk(bytes)];
      FramesData(if n == 0 then items[0].size else n - |items[0].bytes|, items[1..], owed, bytes);
    }
  }

  function Payload(items: seq<Item>): seq<Byte>
    decreases |items|
  {
    if items == [] then [] else (if items[0].Chunk? then items[0].bytes else []) + Payload(items[1..])
  }

  lemma {:induction false} PayloadAppend(a: seq<Item>, b: seq<Item>)
    ensures Payload(a + b) == Payload(a) + Payload(b)
    decreases |a|
  {
    if a == [] {
      assert a + b == b;
    } else {
      assert (a + b)[1..] == a[1..] + b;
      PayloadAppend(a[1..], b);
    }
  }

  // ---- Invariants ----------------------------------------------------------------------------------------

  // Bytes announced in a header and not yet in the ring.
  function Owed(t: Task): nat {
    if t.SendChunk? || t.EnableTx? then |t.rest| else 0
  }

  function Rest(t: Task): seq<Byte> {
    if t.Idle? || t.GiveSem? then [] else if t.SendHeader? then t.src else t.rest
  }

  function Left(p: Ptr): seq<Byte> {
    if p.At? then p.bytes else []
  }

  // No item was taken for the other kind, and the lengths are those of the items.
  predicate Framed(s: Tx) {
    && !s.confused && Pointed(s)
    && s.lenCur <= s.lenTot < WORD && (s.ptr.At? <==> s.lenCur > 0)
    && Frames(s.lenTot - s.lenCur, s.ring, Owed(s.task))
  }

  function Flow(s: Tx): seq<Byte> {
    s.wire + s.fifo + (Left(s.ptr) + (Payload(s.ring) + Rest(s.task)))
  }

  // The bytes of all writes are those on the wire, in the FIFO, in the item at hand, in the ring and
  // still with the task, in this order.
  predicate InOrder(s: Tx) {
    s.written == Flow(s)
  }

  predicate HoldsToken(t: Task) {
    t.WriteFifo? || t.MarkWait? || t.GiveSem?
  }

  // Each kind of driver uses its own half of the state; without a ring exactly one of the semaphore,
  // the task and the waiting flag has the token.
  predicate Tokens(s: Tx) {
    if s.bufSize > 0 then
      && s.chunk > 0 && !s.waiting
      && (s.task.SendHeader? || s.task.SendChunk? || s.task.EnableTx? || s.task.Idle?)
    else
      && s.ring == [] && s.lenTot == 0
      && (s.task.TakeSem? || s.task.WriteFifo? || s.task.MarkWait? || s.task.EnableWait? || s.task.GiveSem? || s.task.Idle?)
      && (s.waiting ==> s.task.EnableWait? || s.task.TakeSem?)
      && (if s.sem then 1 else 0) + (if s.waiting then 1 else 0) + (if HoldsToken(s.task) then 1 else 0) == 1
  }

  // While bytes are waiting to go to the FIFO, or a task waits for room there, the interrupt is on or
  // about to be switched on.
  predicate Live(s: Tx) {
    && (s.ptr.At? || (exists i :: 0 <= i < |s.ring| && s.ring[i].Chunk?) ==> s.enabled || s.task.EnableTx?)
    && (s.waiting ==> s.enabled || s.task.EnableWait?)
  }

  predicate Busy(s: Tx) {
    |s.fifo| <= FIFO_LEN && (s.task.SendHeader? ==> 0 < |s.task.src| < WORD)
    && (s.task.SendChunk? || s.task.TakeSem? || s.task.WriteFifo? || s.task.MarkWait? || s.task.EnableWait? ==> s.task.rest != [])
  }

  ghost predicate Inv(s: Tx) {
    Framed(s) && InOrder(s) && Tokens(s) && Live(s) && Busy(s)
  }

  // ---- The handler keeps them ----------------------------------------------------------------------------

  lemma TakeItemKeeps(t: Turn)
    requires Framed(t.s) && NeedsItem(t.s) && t.s.ring != []
    ensures var r := TakeItem(t); Framed(r.s) && Flow(r.s) == Flow(t.s)
  {
    if t.s.lenTot > 0 {
      assert Left(t.s.ptr) + Payload(t.s.ring) == t.s.ring[0].bytes + Payload(t.s.ring[1..]);
      Regroup([], t.s.ring[0].bytes, Payload(t.s.ring[1..]), Rest(t.s.task));
    }
  }

  lemma Regroup(w: seq<Byte>, a: seq<Byte>, b: seq<Byte>, c: seq<Byte>)
    ensures w + (a + (b + c)) == w + (a + b + c) == (w + a) + (b + c) && [] + c == c
  {
  }

  lemma PushKeeps(t: Turn)
    requires Framed(t.s) && !NeedsItem(t.s) && t.room > 0
    ensures var r := Push(t); Framed(r.s) && Flow(r.s) == Flow(t.s)
  {
    var n := Min(t.s.lenCur, t.room);
    var tail := Payload(t.s.ring) + Rest(t.s.task);
    assert t.s.ptr.bytes == t.s.ptr.bytes[..n] + t.s.ptr.bytes[n..];
    Regroup(t.s.wire + t.s.fifo, t.s.ptr.bytes[..n], t.s.ptr.bytes[n..], tail);
    assert t.s.wire + (t.s.fifo + t.s.ptr.bytes[..n]) == (t.s.wire + t.s.fifo) + t.s.ptr.bytes[..n];
    assert Push(t).s.lenTot == t.s.lenTot - n;
  }

  // What the loop leaves alone.
  predicate SameTask(a: Tx, b: Tx) {
    a.task == b.task && a.bufSize == b.bufSize && a.chunk == b.chunk && a.sem == b.sem && a.waiting == b.waiting
    && a.wire == b.wire && a.written == b.written
  }

  lemma FillTurnKeeps(t: Turn)
    requires Framed(t.s) && t.room > 0 && !t.done && |t.s.fifo| + t.room == FIFO_LEN
    ensures var r := FillTurn(t);
            && Framed(r.s) && Flow(r.s) == Flow(t.s) && SameTask(t.s, r.s) && |r.s.fifo| + r.room == FIFO_LEN
            && (r.done ==> r.s.ring == [] && r.s.ptr.Null?) && (t.enable ==> r.enable) && (r.room == 0 ==> r.enable)
  {
    hide Flow, Frames;
    if NeedsItem(t.s) && t.s.ring != [] {
      TakeItemKeeps(t);
      if !NeedsItem(TakeItem(t).s) {
        PushKeeps(TakeItem(t));
      }
    } else if !NeedsItem(t.s) {
      PushKeeps(t);
    }
  }

  /** The handler's loop: it empties the ring or fills the FIFO, and asks for the next interrupt unless
      nothing is left. */
  lemma {:induction false} FillKeeps(t: Turn)
    requires Framed(t.s) && |t.s.fifo| + t.room == FIFO_LEN
    requires t.done ==> t.s.ring == [] && t.s.ptr.Null?
    requires t.room == 0 ==> t.enable
    ensures var r := Fill(t);
            && Framed(r.s) && Flow(r.s) == Flow(t.s) && SameTask(t.s, r.s) && |r.s.fifo| + r.room == FIFO_LEN
            && (r.enable || (r.s.ring == [] && r.s.ptr.Null?))
    decreases t.room + |t.s.ring|, !t.done
  {
    hide Frames, Flow, FillTurn;
    if !t.done && t.room > 0 {
      FillTurnKeeps(t);
      FillKeeps(FillTurn(t));
    }
  }

  lemma InterruptKeeps(s: Tx)
    requires Inv(s) && Possible(s, Interrupt)
    ensures Inv(InterruptTx(s))
  {
    hide Frames, Payload, Fill;
    if s.bufSize > 0 {
      var t := Turn(s.(enabled := false), FIFO_LEN - |s.fifo|, false, false);
      FillKeeps(t);
    }
  }

  // ---- The task keeps them -------------------------------------------------------------------------------

  lemma SendHeaderKeeps(s: Tx)
    requires Inv(s) && s.task.SendHeader?
    ensures Inv(StepTask(s))
  {
    FramesHeader(s.lenTot - s.lenCur, s.ring, |s.task.src|);
    PayloadAppend(s.ring, [Header(|s.task.src|)]);
    hide Frames;
    assert Payload(s.ring) + [] == Payload(s.ring);
    assert Payload([Header(|s.task.src|)]) == [];
  }

  lemma SendChunkFlow(s: Tx)
    requires s.task.SendChunk? && |s.fifo| <= FIFO_LEN
    ensures Flow(StepTask(s)) == Flow(s)
  {
    var rest := s.task.rest;
    var n := Min(|rest|, s.chunk);
    ChunkPayload(s.ring, rest, n);
    hide Payload;
    assert Rest(StepTask(s).task) == rest[n..];
  }

  lemma ChunkPayload(ring: seq<Item>, rest: seq<Byte>, n: nat)
    requires n <= |rest|
    ensures Payload(ring + [Chunk(rest[..n])]) + rest[n..] == Payload(ring) + rest
  {
    hide Payload;
    var first, last := rest[..n], rest[n..];
    PayloadAppend(ring, [Chunk(first)]);
    PayloadOne(first);
    assert rest == first + last;
    assert (Payload(ring) + first) + last == Payload(ring) + (first + last);
  }

  lemma PayloadOne(bytes: seq<Byte>)
    ensures Payload([Chunk(bytes)]) == bytes
  {
  }

  lemma SendChunkKeeps(s: Tx)
    requires Inv(s) && s.task.SendChunk?
    ensures Inv(StepTask(s))
  {
    SendChunkFlow(s);
    var n := Min(|s.task.rest|, s.chunk);
    FramesData(s.lenTot - s.lenCur, s.ring, |s.task.rest|, s.task.rest[..n]);
    hide Frames, Flow;
  }

  lemma WriteFifoFlow(s: Tx)
    requires s.task.WriteFifo? && s.ring == [] && s.ptr.Null? && |s.fifo| <= FIFO_LEN
    ensures Flow(StepTask(s)) == Flow(s)
  {
    var rest := s.task.rest;
    var n := Min(|rest|, FIFO_LEN - |s.fifo|);
    var s' := StepTask(s);
    assert rest == rest[..n] + rest[n..];
    assert n == |rest| ==> rest[n..] == [];
    assert Rest(s'.task) == rest[n..];
    NoItems(s);
    NoItems(s');
    Regroup(s.wire, s.fifo, rest[..n], rest[n..]);
  }

  lemma NoItems(s: Tx)
    requires s.ring == [] && s.ptr.Null?
    ensures Flow(s) == s.wire + (s.fifo + Rest(s.task)) == s.wire + s.fifo + Rest(s.task)
  {
  }

  lemma WriteFifoKeeps(s: Tx)
    requires Inv(s) && s.task.WriteFifo?
    ensures Inv(StepTask(s))
  {
    WriteFifoFlow(s);
    hide Frames, Flow;
  }

  lemma OtherStepsKeep(s: Tx)
    requires Inv(s) && CanStep(s) && !s.task.SendHeader? && !s.task.SendChunk? && !s.task.WriteFifo?
    ensures Inv(StepTask(s))
  {
    hide Payload;
  }

  lemma StepKeeps(s: Tx, a: Action)
    requires Inv(s) && Possible(s, a)
    ensures Inv(Apply(s, a))
  {
    if a.Interrupt? {
      hide InterruptTx, Inv;
      InterruptKeeps(s);
    } else if a.TaskStep? {
      hide StepTask, Inv;
      if s.task.SendHeader? {
        SendHeaderKeeps(s);
      } else if s.task.SendChunk? {
        SendChunkKeeps(s);
      } else if s.task.WriteFifo? {
        WriteFifoKeeps(s);
      } else {
        OtherStepsKeep(s);
      }
    } else if a.Drain? {
      DrainKeeps(s);
    } else {
      StartKeeps(s, a.src);
    }
  }

  lemma DrainKeeps(s: Tx)
    requires Inv(s) && Possible(s, Drain)
    ensures Inv(Apply(s, Drain))
  {
    hide Frames, Payload, InterruptTx, StepTask;
    assert s.fifo == s.fifo[..1] + s.fifo[1..];
    assert s.wire + s.fifo[..1] + s.fifo[1..] == s.wire + s.fifo;
  }

  lemma StartKeeps(s: Tx, src: seq<Byte>)
    requires Inv(s) && Possible(s, StartWrite(src))
    ensures Inv(Apply(s, StartWrite(src)))
  {
    hide Frames, Payload, InterruptTx, StepTask;
    assert Rest(s.task) == [];
    var front := s.wire + s.fifo + (Left(s.ptr) + Payload(s.ring));
    assert Flow(s) == front && Flow(Apply(s, StartWrite(src))) == front + src;
  }

  /** Every interleaving of the handler, the writing task and the wire. */
  lemma {:induction false} AllInv(s: Tx, actions: seq<Action>)
    requires Inv(s) && CanRun(s, actions)
    ensures Inv(Run(s, actions))
    decreases |actions|
  {
    hide Inv, Apply;
    if actions != [] {
      StepKeeps(s, actions[0]);
      AllInv(Apply(s, actions[0]), actions[1..]);
    }
  }

  /** Framing: over every run of the installed driver no chunk is taken for a header nor the reverse,
      tx_ptr is set exactly when bytes of its item are left, and what went to the FIFO is a prefix of
      the writes put end to end. */
  lemma TransmitFraming(init: Tx, actions: seq<Action>)
    requires Initial(init) && CanRun(init, actions)
    ensures var s := Run(init, actions);
            !s.confused && (s.ptr.At? <==> s.lenCur > 0) && s.wire + s.fifo <= s.written
  {
    AllInv(init, actions);
  }

  /** Without a ring buffer: one token at all times, and when no task is writing every byte of every
      write is in the FIFO or on the wire, once and in order, and the semaphore can be taken. */
  lemma UnbufferedToken(init: Tx, actions: seq<Action>)
    requires Initial(init) && init.bufSize == 0 && CanRun(init, actions)
    ensures var s := Run(init, actions);
            && (if s.sem then 1 else 0) + (if s.waiting then 1 else 0) + (if HoldsToken(s.task) then 1 else 0) == 1
            && (s.task.Idle? ==> s.sem && !s.waiting && s.wire + s.fifo == s.written)
  {
    AllInv(init, actions);
    ModeKept(init, actions);
    hide Run, CanRun;
    var s := Run(init, actions);
    assert Left(s.ptr) + (Payload(s.ring) + Rest(s.task)) == Rest(s.task);
  }

  lemma StepMode(s: Tx, a: Action)
    requires Possible(s, a)
    ensures Apply(s, a).bufSize == s.bufSize && Apply(s, a).chunk == s.chunk
  {
    if a.Interrupt? && s.bufSize > 0 {
      FillMode(Turn(s.(enabled := false), FIFO_LEN - |s.fifo|, false, false));
    }
    hide Fill;
  }

  lemma {:induction false} ModeKept(s: Tx, actions: seq<Action>)
    requires CanRun(s, actions)
    ensures Run(s, actions).bufSize == s.bufSize && Run(s, actions).chunk == s.chunk
    decreases |actions|
  {
    if actions != [] {
      StepMode(s, actions[0]);
      hide Apply, Possible;
      ModeKept(Apply(s, actions[0]), actions[1..]);
    }
  }

  lemma {:induction false} FillMode(t: Turn)
    requires Pointed(t.s)
    ensures Fill(t).s.bufSize == t.s.bufSize && Fill(t).s.chunk == t.s.chunk
    decreases t.room + |t.s.ring|, !t.done
  {
    if !t.done && t.room > 0 {
      FillTurnMode(t);
      hide FillTurn;
      FillMode(FillTurn(t));
    }
  }

  lemma FillTurnMode(t: Turn)
    requires Pointed(t.s) && t.room > 0 && !t.done
    ensures FillTurn(t).s.bufSize == t.s.bufSize && FillTurn(t).s.chunk == t.s.chunk
  {
  }

  // What an item takes in the ring: the ring's own header and the item, in whole words. A length header
  // is a uart_tx_data_t.
  function Need(item: Item): nat {
    8 + 4 * (((if item.Header? then 12 else |item.bytes|) + 3) / 4)
  }

  function Occupied(items: seq<Item>): nat
    decreases |items|
  {
    if items == [] then 0 else Need(items[0]) + Occupied(items[1..])
  }

  // The free part of the ring is in one piece, or in two where the buffer ends: whatever takes at most half
  // of it is sent at once. What the handler still holds may keep any send waiting.
  predicate Tight(s: Tx, item: Item) {
    s.ptr.At? || Occupied(s.ring) + 2 * Need(item) > s.bufSize
  }

  // The task is at a send that waits for room, or may have to.
  predicate MayWait(s: Tx) {
    || (s.task.SendHeader? && Tight(s, Header(|s.task.src|)))
    || (s.task.SendChunk? && Tight(s, Chunk(s.task.rest[..Min(|s.task.rest|, s.chunk)])))
  }

  // Without a chunk in the ring there is room: at most the header of the write is in it.
  lemma RoomWithoutChunks(s: Tx)
    requires Inv(s) && s.bufSize > 0 && RingSize(s.bufSize, s.chunk)
    requires s.ptr.Null? && forall i :: 0 <= i < |s.ring| ==> !s.ring[i].Chunk?
    ensures !MayWait(s)
  {
    AtMostHeader(s.lenTot - s.lenCur, s.ring, Owed(s.task));
    hide Frames, Flow, Payload, Occupied;
  }

  lemma AtMostHeader(n: nat, items: seq<Item>, owed: nat)
    requires Frames(n, items, owed) && forall i :: 0 <= i < |items| ==> !items[i].Chunk?
    ensures Occupied(items) <= 20
  {
    if items != [] {
      assert items[1..] == [];
    }
  }

  /** The transmitter cannot stall: when the task can take no step, or is at a send that has to wait for
      room in the ring, and no drain is possible and the interrupt does not come either, then no task is
      waiting and everything written is on the wire. */
  lemma TransmitterCannotStall(init: Tx, actions: seq<Action>)
    requires Initial(init) && CanRun(init, actions)
    ensures var s := Run(init, actions);
            (forall a :: Possible(s, a) ==> a.StartWrite? || (a.TaskStep? && MayWait(s)))
            ==> s.wire == s.written && s.task.Idle?
  {
    AllInv(init, actions);
    ModeKept(init, actions);
    hide Run, CanRun;
    var s := Run(init, actions);
    if forall a :: Possible(s, a) ==> a.StartWrite? || (a.TaskStep? && MayWait(s)) {
      assert !Possible(s, Drain) && !Possible(s, Interrupt) && (Possible(s, TaskStep) ==> MayWait(s));
      assert s.fifo == [] && !s.enabled;
      if s.bufSize > 0 {
        RoomWithoutChunks(s);
      }
      assert s.task.Idle?;
      NoData(s.lenTot - s.lenCur, s.ring);
      assert s.wire + s.fifo == s.wire;
    }
  }

  lemma NoData(n: nat, items: seq<Item>)
    requires Frames(n, items, 0) && forall i :: 0 <= i < |items| ==> !items[i].Chunk?
    ensures items == []
  {
  }

  // ---- The driver object ---------------------------------------------------------------------------------

  // What fnc_uart_tx_all puts into the ring for the bytes of one write.
  function Chunks(src: seq<Byte>, chunk: nat): seq<Item>
    requires chunk > 0
    decreases |src|
  {
    if src == [] then [] else
      var n := Min(|src|, chunk);
      [Chunk(src[..n])] + Chunks(src[n..], chunk)
  }

  // The chunks of one write carry its bytes in order.
  lemma {:induction false} ChunksCarry(src: seq<Byte>, chunk: nat)
    requires chunk > 0
    ensures Payload(Chunks(src, chunk)) == src
    decreases |src|
  {
    if src != [] {
      var k := Min(|src|, chunk);
      ChunksCarry(src[k..], chunk);
      PayloadAppend([Chunk(src[..k])], Chunks(src[k..], chunk));
      assert Payload([Chunk(src[..k])]) == src[..k];
    }
  }

  // They can follow any items that announce as many bytes, and leave nothing owed.
  lemma {:induction false} ChunksFrame(src: seq<Byte>, chunk: nat, n: nat, items: seq<Item>)
    requires chunk > 0 && Frames(n, items, |src|)
    ensures Frames(n, items + Chunks(src, chunk), 0)
    decreases |src|
  {
    hide Frames;
    if src == [] {
      assert items + Chunks(src, chunk) == items;
    } else {
      var k := Min(|src|, chunk);
      FramesData(n, items, |src|, src[..k]);
      ChunksFrame(src[k..], chunk, n, items + [Chunk(src[..k])]);
      assert items + [Chunk(src[..k])] + Chunks(src[k..], chunk) == items + Chunks(src, chunk);
    }
  }

  function Write(src: seq<Byte>, chunk: nat): seq<Item>
    requires chunk > 0
  {
    [Header(|src|)] + Chunks(src, chunk)
  }

  /** The items of one write, put behind framed items, are framed and add its bytes in order. */
  lemma WriteFrames(n: nat, items: seq<Item>, src: seq<Byte>, chunk: nat)
    requires chunk > 0 && Frames(n, items, 0) && 0 < |src| < WORD
    ensures Frames(n, items + Write(src, chunk), 0) && Payload(items + Write(src, chunk)) == Payload(items) + src
  {
    FramesHeader(n, items, |src|);
    ChunksFrame(src, chunk, n, items + [Header(|src|)]);
    ChunksCarry(src, chunk);
    PayloadAppend([Header(|src|)], Chunks(src, chunk));
    PayloadAppend(items, Write(src, chunk));
    hide Frames;
    assert items + [Header(|src|)] + Chunks(src, chunk) == items + Write(src, chunk);
    assert Payload([Header(|src|)]) == [];
  }

  lemma FillOnce(t: Turn)
    requires Pointed(t.s)
    ensures t.done || t.room == 0 ==> Fill(t) == t
    ensures !t.done && t.room > 0 ==> Fill(t) == Fill(FillTurn(t))
  {
  }

  class Transmitter {
    const bufSize: nat
    const chunk: nat
    var fifo: seq<Byte>
    var enabled: bool
    var ring: seq<Item>
    var lenTot: nat
    var lenCur: nat
    var ptr: Ptr
    var sem: bool
    var waiting: bool
    ghost var wire: seq<Byte>
    ghost var written: seq<Byte>
    ghost var confused: bool

    // The state of the protocol while the task is at `t`.
    ghost function State(t: Task): Tx
      reads this
    {
      Tx(bufSize, chunk, fifo, enabled, ring, lenTot, lenCur, ptr, sem, waiting, t, wire, written, confused)
    }

    ghost predicate Valid()
      reads this
    {
      |fifo| <= FIFO_LEN && Pointed(State(Idle)) && (bufSize > 0 ==> chunk > 0)
    }

    // fnc_uart_driver_install, as far as sending goes.
    constructor (bufSize: nat, chunk: nat)
      requires RingSize(bufSize, chunk)
      ensures Valid() && Initial(State(Idle)) && this.bufSize == bufSize && this.chunk == chunk
    {
      this.bufSize, this.chunk := bufSize, chunk;
      fifo, enabled, ring, lenTot, lenCur, ptr := [], false, [], 0, 0, Null;
      sem, waiting, wire, written, confused := true, false, [], [], false;
    }

    method ReadHeader(item: Item, ghost t: Task)
      requires Valid()
      modifies this`ptr, this`lenTot, this`confused
      ensures Valid() && State(t) == TakeHeader(old(State(t)), item)
    {
      ptr := Null;
      lenTot := if item.Header? then item.size else |item.bytes|;
      confused := confused || item.Chunk?;
    }

    method ReadChunk(item: Item, ghost t: Task)
      requires Valid()
      modifies this`ptr, this`lenCur, this`confused
      ensures Valid() && State(t) == TakeChunk(old(State(t)), item)
    {
      var bytes := if item.Chunk? then item.bytes else [];
      ptr, lenCur := At(bytes), |bytes|;
      confused := confused || item.Header?;
    }

    // xRingbufferReceiveFromISR and what the handler makes of the item.
    method TakeFromRing(enTx: bool, ghost room: nat, ghost t: Task) returns (enTx': bool)
      requires Valid() && ring != []
      modifies this`ring, this`ptr, this`lenTot, this`lenCur, this`confused
      ensures Valid() && Turn(State(t), room, enTx', false) == TakeItem(Turn(old(State(t)), room, enTx, false))
    {
      hide TakeHeader, TakeChunk;
      enTx' := enTx;
      var item := ring[0];
      ring := ring[1..];
      if lenTot == 0 {
        ReadHeader(item, t);
      } else if ptr.Null? {
        ReadChunk(item, t);
        enTx' := true;
      }
    }

    // fnc_uart_enable_tx_write_fifo and the bookkeeping after it.
    method PushToFifo(room: nat, enTx: bool, ghost t: Task) returns (room': nat)
      requires Valid() && !NeedsItem(State(t)) && 0 < room <= FIFO_LEN - |fifo|
      modifies this`fifo, this`ptr, this`lenTot, this`lenCur
      ensures Valid() && room' <= FIFO_LEN - |fifo|
      ensures Turn(State(t), room', true, false) == Push(Turn(old(State(t)), room, enTx, false))
    {
      var n := Min(lenCur, room);
      fifo := fifo + ptr.bytes[..n];
      ptr := At(ptr.bytes[n..]);
      lenTot := (lenTot - n) % WORD;
      lenCur := lenCur - n;
      room' := room - n;
      if lenCur == 0 {
        ptr := Null;
      }
    }

    // The handler's loop over the ring and the room in the FIFO.
    method FillFifo(ghost t: Task) returns (enTx: bool)
      requires Valid() && !enabled
      modifies this`fifo, this`ring, this`ptr, this`lenTot, this`lenCur, this`confused
      ensures Valid()
      ensures State(t) == Fill(Turn(old(State(t)), FIFO_LEN - old(|fifo|), false, false)).s
      ensures enTx == Fill(Turn(old(State(t)), FIFO_LEN - old(|fifo|), false, false)).enable
    {
      hide TakeItem, Push, Fill;
      enTx := false;
      var room: nat := FIFO_LEN - |fifo|;
      ghost var start := Turn(State(t), room, false, false);
      ghost var turn := start;
      while room > 0
        invariant Valid() && room <= FIFO_LEN - |fifo| && turn == Turn(State(t), room, enTx, false)
        invariant Fill(turn) == Fill(start)
        decreases room + |ring|
      {
        FillOnce(turn);
        if lenTot == 0 || ptr.Null? || lenCur == 0 {
          if ring == [] {
            turn := turn.(done := true);
            break;
          }
          enTx := TakeFromRing(enTx, room, t);
        }
        if lenTot > 0 && ptr.At? && lenCur > 0 {
          room := PushToFifo(room, enTx, t);
          enTx := true;
        }
        turn := Turn(State(t), room, enTx, false);
      }
      FillOnce(turn);
    }

    /** The transmit branch of the interrupt handler. */
    method TxInterrupt(ghost t: Task)
      requires Valid()
      modifies this`fifo, this`enabled, this`ring, this`ptr, this`lenTot, this`lenCur, this`sem, this`waiting, this`confused
      ensures Valid() && State(t) == InterruptTx(old(State(t)))
    {
      hide Fill;
      enabled := false;
      if waiting && bufSize == 0 {
        waiting := false;
        sem := true;
      } else if bufSize > 0 {
        var enTx := FillFifo(t);
        if enTx {
          enabled := true;
        }
      }
    }

    // Blocked on the semaphore: the FIFO runs empty and the handler is entered.
    method Block()
      requires Valid() && bufSize == 0 && waiting && enabled
      modifies this
      ensures Valid() && fifo == [] && wire == old(wire + fifo) && sem && !waiting
      ensures ring == old(ring) && written == old(written)
    {
      wire, fifo := wire + fifo, [];
      TxInterrupt(Idle);
    }

    /** fnc_uart_tx_all on a driver with a ring buffer: the write reaches the ring as one header and
        the chunks of its bytes. */
    method WriteBuffered(src: seq<Byte>) returns (n: nat)
      requires Valid() && bufSize > 0 && |src| < WORD
      modifies this`ring, this`enabled
      ensures Valid() && n == |src|
      ensures if src == [] then ring == old(ring) && enabled == old(enabled)
              else ring == old(ring) + Write(src, chunk) && enabled
    {
      n := |src|;
      if src == [] {
        return;
      }
      var rest := src;
      ring := ring + [Header(|src|)];
      assert ring + Chunks(rest, chunk) == old(ring) + Write(src, chunk);
      while rest != []
        invariant Valid() && ring + Chunks(rest, chunk) == old(ring) + Write(src, chunk)
        invariant rest == [] ==> enabled
        decreases |rest|
      {
        var k := Min(|rest|, chunk);
        ring := ring + [Chunk(rest[..k])];
        rest := rest[k..];
        assert ring + Chunks(rest, chunk) == old(ring) + Write(src, chunk);
        enabled := true;
      }
      assert ring + [] == ring;
    }

    /** fnc_uart_tx_all on a driver without one: every byte goes to the FIFO once and in order, and the
        semaphore is available again. */
    method WriteUnbuffered(src: seq<Byte>) returns (n: nat)
      requires Valid() && bufSize == 0 && sem && !waiting
      modifies this
      ensures Valid() && n == |src| && sem && !waiting
      ensures wire + fifo == old(wire + fifo) + src
    {
      n := |src|;
      if src == [] {
        return;
      }
      var rest := src;
      assert wire + fifo + rest == old(wire + fifo) + src;
      while rest != []
        invariant Valid() && (rest == [] ==> !sem && !waiting)
        invariant rest != [] ==> (sem && !waiting) || (!sem && waiting && enabled)
        invariant wire + fifo + rest == old(wire + fifo) + src
        decreases |rest|, sem
      {
        if !sem {
          Block();
        }
        sem := false;
        var k := Min(|rest|, FIFO_LEN - |fifo|);
        ghost var whole := wire + fifo + rest;
        assert rest == rest[..k] + rest[k..];
        assert wire + (fifo + rest[..k]) + rest[k..] == whole;
        fifo := fifo + rest[..k];
        if k < |rest| {
          waiting := true;
          enabled := true;
        }
        rest := rest[k..];
      }
      sem := true;
    }
  }
}
