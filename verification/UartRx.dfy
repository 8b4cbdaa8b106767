/** The receive side of FluidNC/esp32/fnc_idf_uart.c as a concurrent protocol. An activation of the
    interrupt handler is one step; a task's code is cut at every ring-buffer call and every critical
    section, and any other step may come in between. Pattern detection is off. */
module UartRx {
  import opened Bytes
  import opened EscapeFilter

  const FIFO_LEN := 128

  // RXFIFO_FULL and RXFIFO_TOUT, the two receive interrupts.
  datatype Mask = Mask(full: bool, tout: bool)

  const RX_BITS := Mask(true, true)
  const NO_BITS := Mask(false, false)

  function Or(a: Mask, b: Mask): Mask { Mask(a.full || b.full, a.tout || b.tout) }
  function And(a: Mask, b: Mask): Mask { Mask(a.full && b.full, a.tout && b.tout) }
  function Minus(a: Mask, b: Mask): Mask { Mask(a.full && !b.full, a.tout && !b.tout) }
  predicate Within(a: Mask, b: Mask) { And(a, b) == a }

  // Where the task that holds rx_mux is.
  datatype Task =
    | Idle
    // fnc_uart_read_bytes, with `left` bytes still wanted
    | Receive(left: nat)                        // about to call xRingbufferReceiveUpTo
    | Account(data: seq<Byte>, left: nat)       // data taken from the ring, not yet subtracted
    | Return(left: nat)                         // about to return the ring item
    | Check(left: nat, dry: bool)               // fnc_uart_check_buf_full; `dry` if the ring was empty
    | Resend(left: nat, dry: bool)              // about to send the stash to the ring
    | ClearFull(left: nat, dry: bool)           // stash sent, flag and counter not yet updated
    | Reenable(left: nat, dry: bool)
    // fnc_uart_flush_input
    | FlushReceive
    | FlushAccount(data: seq<Byte>)
    | FlushReturn
    | FlushCheck
    | FlushResend
    | FlushClear
    | FlushReset                                // the ring was empty: zero the counter, drop the flag
    | FlushFifo
    | FlushReenable

  predicate Flushing(t: Task) {
    t.FlushReceive? || t.FlushAccount? || t.FlushReturn? || t.FlushCheck? || t.FlushResend? || t.FlushClear?
    || t.FlushReset? || t.FlushFifo? || t.FlushReenable?
  }

  datatype Rx = Rx(
    fifo: seq<Byte>,        // hardware FIFO
    stash: seq<Byte>,       // rx_data_buf[..rx_stash_len]
    full: bool,             // rx_buffer_full_flg
    buffered: int,          // rx_buffered_len
    usr: Mask,              // rx_int_usr_mask
    enabled: Mask,          // interrupt enable register
    ring: seq<Byte>,        // rx_ring_buf, a byte buffer
    held: nat,              // bytes of the item received and not yet returned
    size: nat,              // capacity of the ring
    alwaysTimeout: bool,    // rx_always_timeout_flg
    events: bool,           // the escape filter has a registered pin
    last: Byte,             // its carried-over byte
    task: Task,
    // histories: bytes let through before the last registration of a pin, raw bytes read from the FIFO
    // since then, all of them, bytes handed to readers, bytes that left the driver
    kept: seq<Byte>,
    raw: seq<Byte>,
    read: seq<Byte>,
    delivered: seq<Byte>,
    gone: seq<Byte>)

  // What one step does. Every step is a function of the state; the step's own parameters carry what
  // the hardware, the callers and the ring buffer choose.
  datatype Action =
    | Arrive(byte: Byte)
    | Interrupt(timeout: bool)
    | UserEnable(mask: Mask)
    | UserDisable(mask: Mask)
    | RegisterPin
    | StartRead(length: nat)
    | StartFlush
    | TaskStep(chunk: nat)  // the task's next step; a receive takes `chunk` bytes

  // ---- The interrupt handler, receive branch -------------------------------------------------------------

  // Bytes read from the FIFO: one stays behind to trigger the timeout, if the driver is set up so.
  function ReadLen(s: Rx, timeout: bool): int {
    |s.fifo| - if s.alwaysTimeout && !timeout then 1 else 0
  }

  predicate Fits(s: Rx, n: nat) {
    |s.ring| + s.held + n <= s.size
  }

  // The handler offers what it read to the ring, or holds it back.
  function Offer(s: Rx): Rx {
    if s.stash == [] then s
    else if Fits(s, |s.stash|) then s.(ring := s.ring + s.stash, buffered := s.buffered + |s.stash|)
    else s.(full := true, enabled := Minus(s.enabled, RX_BITS))
  }

  function InterruptRx(s: Rx, timeout: bool): Rx
    requires 0 <= ReadLen(s, timeout)
  {
    if s.full then s.(enabled := Minus(s.enabled, RX_BITS))
    else
      var n := ReadLen(s, timeout);
      var f := Filter(s.events, s.last, s.fifo[..n]);
      Offer(s.(fifo := s.fifo[n..], raw := s.raw + s.fifo[..n], read := s.read + s.fifo[..n], last := f.last, stash := f.bytes))
  }

  // ---- Critical sections -----------------------------------------------------------------------------------

  function EnableIntr(s: Rx, mask: Mask): Rx {
    s.(usr := Or(s.usr, mask), enabled := Or(s.enabled, mask))
  }

  function DisableIntr(s: Rx, mask: Mask): Rx {
    s.(usr := Minus(s.usr, mask), enabled := Minus(s.enabled, mask))
  }

  function ReenableIntr(s: Rx, mask: Mask): Rx {
    s.(enabled := Or(s.enabled, And(s.usr, mask)))
  }

  // uart_register_input_pin(): from here on pin events are filtered out; a byte carried over is dropped.
  function Register(s: Rx): Rx {
    s.(events := true, last := 0, kept := s.kept + Filter(s.events, 0, s.raw).bytes, raw := [])
  }

  function CountStash(s: Rx): Rx {
    s.(buffered := s.buffered + |s.stash|, full := false)
  }

  // ---- The task --------------------------------------------------------------------------------------------

  function Next(left: nat): Task {
    if left == 0 then Idle else Receive(left)
  }

  // Whether a receive may hand out `chunk` bytes: some, if there are any, and none only if there are none.
  predicate CanTake(s: Rx, chunk: nat, atMost: nat) {
    chunk <= |s.ring| && chunk <= atMost && (chunk == 0 <==> s.ring == [])
  }

  predicate CanStep(s: Rx, chunk: nat) {
    match s.task
    case Idle => false
    case Receive(left) => left > 0 && CanTake(s, chunk, left)
    case FlushReceive => CanTake(s, chunk, |s.ring|)
    case _ => true
  }

  // fnc_uart_read_bytes and the check of the full flag it makes.
  function StepRead(s: Rx, chunk: nat): Rx
    requires CanStep(s, chunk) && !Flushing(s.task)
  {
    match s.task
    case Receive(left) =>
      if chunk == 0 then s.(task := Check(left, true))
      else s.(ring := s.ring[chunk..], held := chunk, task := Account(s.ring[..chunk], left))
    case Account(data, left) =>
      s.(buffered := s.buffered - |data|, delivered := s.delivered + data, gone := s.gone + data,
         task := Return(if |data| <= left then left - |data| else 0))
    case Return(left) => s.(held := 0, task := Check(left, false))
    case Check(left, dry) =>
      if s.full then s.(task := Resend(left, dry)) else s.(task := if dry then Idle else Next(left))
    case Resend(left, dry) =>
      if Fits(s, |s.stash|) then s.(ring := s.ring + s.stash, task := ClearFull(left, dry))
      else s.(task := if dry then Idle else Next(left))
    case ClearFull(left, dry) => CountStash(s).(task := Reenable(left, dry))
    case Reenable(left, dry) => ReenableIntr(s, RX_BITS).(task := Next(left))
  }

  // fnc_uart_flush_input, after it has switched the interrupts off.
  function StepFlush(s: Rx, chunk: nat): Rx
    requires CanStep(s, chunk) && Flushing(s.task)
  {
    match s.task
    case FlushReceive =>
      if chunk == 0 then s.(task := FlushReset)
      else s.(ring := s.ring[chunk..], held := chunk, task := FlushAccount(s.ring[..chunk]))
    case FlushAccount(data) => s.(buffered := s.buffered - |data|, gone := s.gone + data, task := FlushReturn)
    case FlushReturn => s.(held := 0, task := FlushCheck)
    case FlushCheck => s.(task := if s.full then FlushResend else FlushReceive)
    case FlushResend =>
      if Fits(s, |s.stash|) then s.(ring := s.ring + s.stash, task := FlushClear) else s.(task := FlushReceive)
    case FlushClear => CountStash(s).(task := FlushReceive)
    case FlushReset =>
      s.(buffered := 0, full := false, gone := s.gone + (if s.full then s.stash else []), task := FlushFifo)
    case FlushFifo => s.(fifo := [], task := FlushReenable)
    case FlushReenable => ReenableIntr(s, RX_BITS).(task := Idle)
  }

  function StepTask(s: Rx, chunk: nat): Rx
    requires CanStep(s, chunk)
  {
    if Flushing(s.task) then StepFlush(s, chunk) else StepRead(s, chunk)
  }

  // ---- Runs ------------------------------------------------------------------------------------------------

  predicate Possible(s: Rx, a: Action) {
    match a
    case Arrive(_) => |s.fifo| < FIFO_LEN
    // The handler sees enabled interrupts only, and the full interrupt only on a non-empty FIFO.
    case Interrupt(timeout) => (if timeout then s.enabled.tout else s.enabled.full) && 0 <= ReadLen(s, timeout)
    case UserEnable(_) => true
    case UserDisable(_) => true
    case RegisterPin => true
    case StartRead(_) => s.task.Idle?
    case StartFlush => s.task.Idle?
    case TaskStep(chunk) => CanStep(s, chunk)
  }

  function Apply(s: Rx, a: Action): Rx
    requires Possible(s, a)
  {
    match a
    case Arrive(b) => s.(fifo := s.fifo + [b])
    case Interrupt(timeout) => InterruptRx(s, timeout)
    case UserEnable(mask) => EnableIntr(s, mask)
    case UserDisable(mask) => DisableIntr(s, mask)
    case RegisterPin => Register(s)
    case StartRead(length) => s.(task := Next(length))
    case StartFlush => s.(enabled := Minus(s.enabled, RX_BITS), task := FlushReceive)
    case TaskStep(chunk) => StepTask(s, chunk)
  }

  // The driver as installed: the ring is larger than the FIFO.
  predicate Initial(s: Rx) {
    && s.fifo == s.stash == s.ring == s.kept == s.raw == s.read == s.delivered == s.gone == []
    && !s.full && s.buffered == 0 && s.held == 0 && s.last == 0 && s.task.Idle?
    && s.usr == s.enabled == RX_BITS && s.size > FIFO_LEN
  }

  predicate CanRun(s: Rx, actions: seq<Action>)
    decreases |actions|
  {
    actions == [] || (Possible(s, actions[0]) && CanRun(Apply(s, actions[0]), actions[1..]))
  }

  function Run(s: Rx, actions: seq<Action>): Rx
    requires CanRun(s, actions)
    decreases |actions|
  {
    if actions == [] then s else Run(Apply(s, actions[0]), actions[1..])
  }

  // No task switches receive interrupts on while a flush is under way.
  predicate Orderly(s: Rx, actions: seq<Action>)
    requires CanRun(s, actions)
    decreases |actions|
  {
    actions == [] ||
    ((actions[0].UserEnable? ==> !Flushing(s.task)) && Orderly(Apply(s, actions[0]), actions[1..]))
  }

  // ---- Invariants --------------------------------------------------------------------------------------------

  // Bytes a task has taken from the ring and not yet passed on.
  function InHand(s: Rx): seq<Byte> {
    if s.task.Account? || s.task.FlushAccount? then s.task.data else []
  }

  // The stash is held back until it has been sent to the ring again.
  function HeldBack(s: Rx): seq<Byte> {
    if s.full && !s.task.ClearFull? && !s.task.FlushClear? then s.stash else []
  }

  function Stream(s: Rx): seq<Byte> {
    s.gone + InHand(s) + s.ring + HeldBack(s)
  }

  // What the filter has let through so far, started anew by each registration of a pin.
  function Passed(s: Rx): seq<Byte> {
    s.kept + Filter(s.events, 0, s.raw).bytes
  }

  // It is what left the driver, what a task holds, the ring and the stash, in this order.
  ghost predicate Conserved(s: Rx) {
    Passed(s) == Stream(s) && Filter(s.events, 0, s.raw).last == s.last
  }

  // The full flag stays up while its stash is on the way; a flush keeps the handler out.
  predicate Steady(s: Rx) {
    && (s.task.Resend? || s.task.ClearFull? || s.task.FlushResend? || s.task.FlushClear? ==> s.full)
    && (Flushing(s.task) ==> s.enabled == NO_BITS)
    && (s.task.FlushReset? ==> s.ring == [])
  }

  // The counter is the ring's content, up to the one adjustment the task still owes.
  predicate Accounted(s: Rx) {
    s.buffered == |s.ring| + |InHand(s)| - if s.task.ClearFull? || s.task.FlushClear? then |s.stash| else 0
  }

  // Interrupts the user switched off are off; those the user wants are off only while the flag is up,
  // a flush runs or the task is about to switch them on again.
  predicate Masked(s: Rx) {
    && Within(s.enabled, s.usr)
    && (s.enabled == s.usr || s.full || Flushing(s.task) || s.task.Reenable?)
  }

  // The stash always fits into an empty ring.
  predicate Sized(s: Rx) {
    && |s.fifo| <= FIFO_LEN && |s.stash| <= FIFO_LEN < s.size
    && (s.task.Receive? ==> s.task.left > 0)
    && (s.held != 0 ==> s.task.Account? || s.task.Return? || s.task.FlushAccount? || s.task.FlushReturn?)
  }

  lemma SteadyInterrupt(s: Rx, timeout: bool)
    requires Steady(s) && Possible(s, Interrupt(timeout))
    ensures Steady(InterruptRx(s, timeout))
  {
    hide Filter;
  }

  lemma SteadyRead(s: Rx, chunk: nat)
    requires Steady(s) && CanStep(s, chunk) && !Flushing(s.task)
    ensures Steady(StepRead(s, chunk))
  {
  }

  lemma SteadyFlush(s: Rx, chunk: nat)
    requires Steady(s) && CanStep(s, chunk) && Flushing(s.task)
    ensures Steady(StepFlush(s, chunk))
  {
  }

  lemma SteadyStep(s: Rx, a: Action)
    requires Steady(s) && Possible(s, a) && (a.UserEnable? ==> !Flushing(s.task))
    ensures Steady(Apply(s, a))
  {
    hide InterruptRx, StepRead, StepFlush;
    if a.Interrupt? {
      SteadyInterrupt(s, a.timeout);
    } else if a.TaskStep? {
      if Flushing(s.task) {
        SteadyFlush(s, a.chunk);
      } else {
        SteadyRead(s, a.chunk);
      }
    }
  }

  lemma AccountedInterrupt(s: Rx, timeout: bool)
    requires Accounted(s) && Steady(s) && Possible(s, Interrupt(timeout))
    ensures Accounted(InterruptRx(s, timeout))
  {
    hide Filter;
  }

  lemma AccountedRead(s: Rx, chunk: nat)
    requires Accounted(s) && Steady(s) && CanStep(s, chunk) && !Flushing(s.task)
    ensures Accounted(StepRead(s, chunk))
  {
  }

  lemma AccountedFlush(s: Rx, chunk: nat)
    requires Accounted(s) && Steady(s) && CanStep(s, chunk) && Flushing(s.task)
    ensures Accounted(StepFlush(s, chunk))
  {
  }

  lemma AccountedStep(s: Rx, a: Action)
    requires Accounted(s) && Steady(s) && Possible(s, a)
    ensures Accounted(Apply(s, a))
  {
    hide InterruptRx, StepRead, StepFlush;
    if a.Interrupt? {
      AccountedInterrupt(s, a.timeout);
    } else if a.TaskStep? {
      if Flushing(s.task) {
        AccountedFlush(s, a.chunk);
      } else {
        AccountedRead(s, a.chunk);
      }
    }
  }

  lemma MaskedInterrupt(s: Rx, timeout: bool)
    requires Masked(s) && Possible(s, Interrupt(timeout))
    ensures Masked(InterruptRx(s, timeout))
  {
    hide Filter;
  }

  lemma MaskedRead(s: Rx, chunk: nat)
    requires Masked(s) && CanStep(s, chunk) && !Flushing(s.task)
    ensures Masked(StepRead(s, chunk))
  {
  }

  lemma MaskedFlush(s: Rx, chunk: nat)
    requires Masked(s) && CanStep(s, chunk) && Flushing(s.task)
    ensures Masked(StepFlush(s, chunk))
  {
  }

  lemma MaskedStep(s: Rx, a: Action)
    requires Masked(s) && Possible(s, a)
    ensures Masked(Apply(s, a))
  {
    hide InterruptRx, StepRead, StepFlush;
    if a.Interrupt? {
      MaskedInterrupt(s, a.timeout);
    } else if a.TaskStep? {
      if Flushing(s.task) {
        MaskedFlush(s, a.chunk);
      } else {
        MaskedRead(s, a.chunk);
      }
    }
  }

  lemma SizedInterrupt(s: Rx, timeout: bool)
    requires Sized(s) && Possible(s, Interrupt(timeout))
    ensures Sized(InterruptRx(s, timeout))
  {
    hide Filter;
  }

  lemma SizedRead(s: Rx, chunk: nat)
    requires Sized(s) && CanStep(s, chunk) && !Flushing(s.task)
    ensures Sized(StepRead(s, chunk))
  {
  }

  lemma SizedFlush(s: Rx, chunk: nat)
    requires Sized(s) && CanStep(s, chunk) && Flushing(s.task)
    ensures Sized(StepFlush(s, chunk))
  {
  }

  lemma SizedStep(s: Rx, a: Action)
    requires Sized(s) && Possible(s, a)
    ensures Sized(Apply(s, a))
  {
    hide InterruptRx, StepRead, StepFlush;
    if a.Interrupt? {
      SizedInterrupt(s, a.timeout);
    } else if a.TaskStep? {
      if Flushing(s.task) {
        SizedFlush(s, a.chunk);
      } else {
        SizedRead(s, a.chunk);
      }
    }
  }

  lemma Regroup(a: seq<Byte>, b: seq<Byte>, c: seq<Byte>)
    ensures a + (b + c) == a + b + c && a + [] == a && a + b + [] == a + b
  {
  }

  lemma StreamGrows(s: Rx, timeout: bool)
    requires Steady(s) && Possible(s, Interrupt(timeout))
    ensures var s' := InterruptRx(s, timeout);
            Stream(s') == Stream(s) + if s.full then [] else Filter(s.events, s.last, s.fifo[..ReadLen(s, timeout)]).bytes
  {
    hide Filter;
    if s.full {
      Regroup(Stream(s), [], []);
    } else {
      var f := Filter(s.events, s.last, s.fifo[..ReadLen(s, timeout)]).bytes;
      Regroup(s.gone + InHand(s), s.ring, f);
      Regroup(s.gone + InHand(s) + s.ring, [], []);
    }
  }

  lemma InterruptReads(s: Rx, timeout: bool)
    requires !s.full && 0 <= ReadLen(s, timeout)
    ensures var s', more := InterruptRx(s, timeout), s.fifo[..ReadLen(s, timeout)];
            && s'.kept == s.kept && s'.raw == s.raw + more && s'.read == s.read + more && s'.events == s.events
            && s'.last == Filter(s.events, s.last, more).last
  {
    hide Filter;
  }

  lemma PassedGrows(s: Rx, timeout: bool)
    requires !s.full && Possible(s, Interrupt(timeout)) && Filter(s.events, 0, s.raw).last == s.last
    ensures var s' := InterruptRx(s, timeout);
            && Passed(s') == Passed(s) + Filter(s.events, s.last, s.fifo[..ReadLen(s, timeout)]).bytes
            && Filter(s'.events, 0, s'.raw).last == s'.last
  {
    var more := s.fifo[..ReadLen(s, timeout)];
    hide Filter, InterruptRx;
    FilterSplit(s.events, 0, s.raw, more);
    InterruptReads(s, timeout);
    Regroup(s.kept, Filter(s.events, 0, s.raw).bytes, Filter(s.events, s.last, more).bytes);
  }

  lemma ConservedInterrupt(s: Rx, timeout: bool)
    requires Conserved(s) && Steady(s) && Possible(s, Interrupt(timeout))
    ensures Conserved(InterruptRx(s, timeout))
  {
    StreamGrows(s, timeout);
    hide Stream, Filter;
    if s.full {
      Regroup(Stream(s), [], []);
    } else {
      PassedGrows(s, timeout);
      hide InterruptRx, Passed;
    }
  }

  lemma ConservedRead(s: Rx, chunk: nat)
    requires Steady(s) && CanStep(s, chunk) && !Flushing(s.task)
    ensures Stream(StepRead(s, chunk)) == Stream(s)
  {
    if s.task.Receive? {
      assert s.ring == s.ring[..chunk] + s.ring[chunk..];
      if chunk > 0 {
        assert StepRead(s, chunk) == s.(ring := s.ring[chunk..], held := chunk, task := Account(s.ring[..chunk], s.task.left));
      }
      hide StepRead;
      Regroup(s.gone, s.ring[..chunk], s.ring[chunk..]);
      Regroup(s.gone, [], s.ring);
    }
  }

  lemma ConservedFlush(s: Rx, chunk: nat)
    requires Steady(s) && CanStep(s, chunk) && Flushing(s.task)
    ensures Stream(StepFlush(s, chunk)) == Stream(s)
  {
    Regroup(s.gone, [], s.ring);
    if s.task.FlushReceive? {
      if chunk > 0 {
        Regroup(s.gone, s.ring[..chunk], s.ring[chunk..]);
        assert s.ring == s.ring[..chunk] + s.ring[chunk..];
      }
    } else if s.task.FlushAccount? {
      Regroup(s.gone + s.task.data, [], []);
    } else if s.task.FlushResend? {
      Regroup(s.gone, s.ring, s.stash);
      Regroup(s.gone, s.ring + s.stash, []);
    } else if s.task.FlushReset? {
      Regroup(s.gone, HeldBack(s), []);
    }
  }

  lemma TaskKeepsFilter(s: Rx, chunk: nat)
    requires CanStep(s, chunk)
    ensures var s' := StepTask(s, chunk);
            s'.kept == s.kept && s'.raw == s.raw && s'.events == s.events && s'.last == s.last
  {
  }

  lemma ConservedRegister(s: Rx)
    requires Conserved(s)
    ensures Conserved(Register(s))
  {
    assert Filter(true, 0, []) == Output([], [], 0);
    assert Passed(s) + [] == Passed(s);
  }

  lemma ConservedStep(s: Rx, a: Action)
    requires Conserved(s) && Steady(s) && Possible(s, a)
    ensures Conserved(Apply(s, a))
  {
    hide Filter, InterruptRx, StepRead, StepFlush;
    if a.Interrupt? {
      ConservedInterrupt(s, a.timeout);
    } else if a.TaskStep? {
      if Flushing(s.task) {
        ConservedFlush(s, a.chunk);
      } else {
        ConservedRead(s, a.chunk);
      }
      TaskKeepsFilter(s, a.chunk);
    } else if a.RegisterPin? {
      ConservedRegister(s);
    }
  }

  // ---- Over all interleavings -------------------------------------------------------------------------------

  /** Nothing is lost, doubled or reordered: over every interleaving of interrupts, reader steps,
      flush steps and user calls. */
  lemma {:induction false} AllConserved(s: Rx, actions: seq<Action>)
    requires Conserved(s) && Steady(s) && CanRun(s, actions) && Orderly(s, actions)
    ensures Conserved(Run(s, actions)) && Steady(Run(s, actions))
    decreases |actions|
  {
    hide Apply, Conserved, Steady;
    if actions != [] {
      ConservedStep(s, actions[0]);
      SteadyStep(s, actions[0]);
      AllConserved(Apply(s, actions[0]), actions[1..]);
    }
  }

  lemma {:induction false} AllAccounted(s: Rx, actions: seq<Action>)
    requires Accounted(s) && Steady(s) && CanRun(s, actions) && Orderly(s, actions)
    ensures Accounted(Run(s, actions)) && Steady(Run(s, actions))
    decreases |actions|
  {
    hide Apply, Accounted, Steady;
    if actions != [] {
      AccountedStep(s, actions[0]);
      SteadyStep(s, actions[0]);
      AllAccounted(Apply(s, actions[0]), actions[1..]);
    }
  }

  /** The interrupt masks, over every run whatsoever. */
  lemma {:induction false} AllMasked(s: Rx, actions: seq<Action>)
    requires Masked(s) && Sized(s) && CanRun(s, actions)
    ensures Masked(Run(s, actions)) && Sized(Run(s, actions))
    decreases |actions|
  {
    hide Apply, Masked, Sized;
    if actions != [] {
      MaskedStep(s, actions[0]);
      SizedStep(s, actions[0]);
      AllMasked(Apply(s, actions[0]), actions[1..]);
    }
  }

  lemma ReadersGetStep(s: Rx, a: Action)
    requires s.delivered == s.gone && !Flushing(s.task) && Possible(s, a) && !a.StartFlush?
    ensures Apply(s, a).delivered == Apply(s, a).gone && !Flushing(Apply(s, a).task)
  {
    hide Filter, StepFlush;
    if a.Interrupt? {
      assert Apply(s, a).delivered == s.delivered && Apply(s, a).gone == s.gone && Apply(s, a).task == s.task;
    } else {
      hide InterruptRx;
    }
  }

  // Readers get everything that leaves the driver, unless it is flushed.
  lemma {:induction false} ReadersGetAll(s: Rx, actions: seq<Action>)
    requires s.delivered == s.gone && !Flushing(s.task) && CanRun(s, actions)
    requires forall i :: 0 <= i < |actions| ==> !actions[i].StartFlush?
    ensures Orderly(s, actions)
    ensures Run(s, actions).delivered == Run(s, actions).gone && !Flushing(Run(s, actions).task)
    decreases |actions|
  {
    hide Apply, Possible;
    if actions != [] {
      ReadersGetStep(s, actions[0]);
      ReadersGetAll(Apply(s, actions[0]), actions[1..]);
    }
  }

  /** The installed driver, run without a flush: the bytes delivered to readers, then those a reader
      holds, then the ring, then the stash if it is held back, are the filtered bytes of the FIFO in
      order. No restriction is put on what users enable and disable, nor on when pins are registered. */
  lemma DeliveredInOrder(init: Rx, actions: seq<Action>)
    requires Initial(init) && CanRun(init, actions)
    requires forall i :: 0 <= i < |actions| ==> !actions[i].StartFlush?
    ensures var s := Run(init, actions);
            Passed(s) == s.delivered + InHand(s) + s.ring + HeldBack(s)
  {
    ReadersGetAll(init, actions);
    AllConserved(init, actions);
  }

  /** The installed driver over every orderly run, flushes included. */
  lemma DriverInvariants(init: Rx, actions: seq<Action>)
    requires Initial(init) && CanRun(init, actions) && Orderly(init, actions)
    ensures var s := Run(init, actions); Conserved(s) && Accounted(s) && Masked(s) && Sized(s) && Steady(s)
  {
    AllConserved(init, actions);
    AllAccounted(init, actions);
    AllMasked(init, actions);
  }

  // ---- Everything that arrives is read -----------------------------------------------------------------------

  /** With the full flag down an activation of the handler empties the FIFO, into the bytes read; but if the
      driver is set up so, and it was no timeout, the last byte stays behind. */
  lemma InterruptEmpties(s: Rx, timeout: bool)
    requires !s.full && Possible(s, Interrupt(timeout))
    ensures var s' := Apply(s, Interrupt(timeout));
            && (if s.alwaysTimeout && !timeout then s.fifo != [] && s'.fifo == [s.fifo[|s.fifo| - 1]] else s'.fifo == [])
            && s'.read + s'.fifo == s.read + s.fifo
  {
    hide Filter;
    assert forall n: nat | n <= |s.fifo| :: s.read + s.fifo[..n] + s.fifo[n..] == s.read + s.fifo;
  }

  /** What it has read goes to the ring as far as the filter lets it through, if it fits in there; if not the
      ring stays, the flag goes up and both interrupts go off. */
  lemma InterruptSendsOrHolds(s: Rx, timeout: bool)
    requires !s.full && Possible(s, Interrupt(timeout))
    ensures var s' := Apply(s, Interrupt(timeout));
            var bytes := Filter(s.events, s.last, s.fifo[..|s.fifo| - |s'.fifo|]).bytes;
            if bytes == [] || |s.ring| + s.held + |bytes| <= s.size
            then s'.ring == s.ring + bytes && !s'.full && s'.buffered == s.buffered + |bytes| && s'.enabled == s.enabled
            else s'.ring == s.ring && s'.full && s'.stash == bytes && s'.buffered == s.buffered && s'.enabled == NO_BITS
  {
    hide Filter;
    assert s.ring + [] == s.ring;
    assert |s.fifo| - |Apply(s, Interrupt(timeout)).fifo| == ReadLen(s, timeout);
  }

  // The bytes that have arrived and were not flushed, after one more action: a flush throws away those that
  // are still in the FIFO.
  function Surviving1(s: Rx, a: Action, bytes: seq<Byte>): seq<Byte> {
    if a.Arrive? then bytes + [a.byte]
    else if a.TaskStep? && s.task.FlushFifo? && |s.fifo| <= |bytes| then bytes[..|bytes| - |s.fifo|]
    else bytes
  }

  function Surviving(s: Rx, actions: seq<Action>, bytes: seq<Byte>): seq<Byte>
    requires CanRun(s, actions)
    decreases |actions|
  {
    if actions == [] then bytes else Surviving(Apply(s, actions[0]), actions[1..], Surviving1(s, actions[0], bytes))
  }

  lemma ArrivalStep(s: Rx, a: Action)
    requires Possible(s, a)
    ensures var s' := Apply(s, a); s'.read + s'.fifo == Surviving1(s, a, s.read + s.fifo)
  {
    hide Filter;
    if a.Interrupt? {
      if !s.full {
        InterruptEmpties(s, a.timeout);
      }
    } else if a.TaskStep? {
      assert s.read + [] == s.read;
      if s.task.FlushFifo? {
        assert (s.read + s.fifo)[..|s.read|] == s.read;
      } else {
        TaskReadsNothing(s, a.chunk);
      }
    } else if a.Arrive? {
      assert s.read + (s.fifo + [a.byte]) == s.read + s.fifo + [a.byte];
    }
  }

  lemma TaskReadsNothing(s: Rx, chunk: nat)
    requires CanStep(s, chunk) && !s.task.FlushFifo?
    ensures var s' := StepTask(s, chunk); s'.read == s.read && s'.fifo == s.fifo
  {
  }

  /** Over every run: the bytes read, and then those in the FIFO, are the bytes that arrived and were not
      flushed, in order. */
  lemma {:induction false} AllArrivals(s: Rx, actions: seq<Action>)
    requires CanRun(s, actions)
    ensures Run(s, actions).read + Run(s, actions).fifo == Surviving(s, actions, s.read + s.fifo)
    decreases |actions|
  {
    hide Apply, Possible, Surviving1;
    if actions != [] {
      ArrivalStep(s, actions[0]);
      AllArrivals(Apply(s, actions[0]), actions[1..]);
    }
  }

  /** So after a timeout with the flag down all of them have been read. */
  lemma TimeoutReadsAll(init: Rx, actions: seq<Action>)
    requires Initial(init) && CanRun(init, actions) && !Run(init, actions).full
    requires Possible(Run(init, actions), Interrupt(true))
    ensures Apply(Run(init, actions), Interrupt(true)).read == Surviving(init, actions, [])
  {
    AllArrivals(init, actions);
    var s := Run(init, actions);
    assert init.read + init.fifo == [];
    hide Run, CanRun, Surviving, Apply;
    InterruptEmpties(s, true);
    var s' := Apply(s, Interrupt(true));
    assert s'.read + [] == s'.read;
  }

  function Arrived(actions: seq<Action>): seq<Byte>
    decreases |actions|
  {
    if actions == [] then [] else (if actions[0].Arrive? then [actions[0].byte] else []) + Arrived(actions[1..])
  }

  lemma {:induction false} NothingFlushed(s: Rx, actions: seq<Action>, bytes: seq<Byte>)
    requires CanRun(s, actions) && !Flushing(s.task)
    requires forall i :: 0 <= i < |actions| ==> !actions[i].StartFlush? && !actions[i].RegisterPin?
    ensures Surviving(s, actions, bytes) == bytes + Arrived(actions)
    ensures var t := Run(s, actions); t.events == s.events && t.kept == s.kept && (s.raw == s.read ==> t.raw == t.read)
    decreases |actions|
  {
    if actions != [] {
      var a := actions[0];
      StaysUnflushed(s, a);
      hide Apply, Possible, Flushing;
      var came := if a.Arrive? then [a.byte] else [];
      NothingFlushed(Apply(s, a), actions[1..], Surviving1(s, a, bytes));
      assert bytes + came + Arrived(actions[1..]) == bytes + (came + Arrived(actions[1..]));
      assert bytes + [] == bytes;
    } else {
      assert bytes + [] == bytes;
    }
  }

  lemma StaysUnflushed(s: Rx, a: Action)
    requires Possible(s, a) && !Flushing(s.task) && !a.StartFlush? && !a.RegisterPin?
    ensures var s' := Apply(s, a);
            !Flushing(s'.task) && s'.events == s.events && s'.kept == s.kept && (s.raw == s.read ==> s'.raw == s'.read)
    ensures !s.task.FlushFifo?
  {
    hide Filter, StepFlush;
    if a.Interrupt? {
      if !s.full {
        InterruptReads(s, a.timeout);
        assert InterruptRx(s, a.timeout).task == s.task;
      }
      hide StepRead;
    } else {
      hide InterruptRx;
    }
  }

  /** From end to end, without a flush: what has arrived, but for what is still in the FIFO, is by way of the
      filter what readers have got, what one holds, the ring and the stash held back, in order. */
  lemma ArrivalsAreDelivered(init: Rx, actions: seq<Action>)
    requires Initial(init) && CanRun(init, actions)
    requires forall i :: 0 <= i < |actions| ==> !actions[i].StartFlush? && !actions[i].RegisterPin?
    ensures var s := Run(init, actions);
            && Arrived(actions) == s.read + s.fifo
            && Filter(init.events, 0, s.read).bytes == s.delivered + InHand(s) + s.ring + HeldBack(s)
            && (!init.events ==> s.delivered + InHand(s) + s.ring + HeldBack(s) + s.fifo == Arrived(actions))
  {
    AllArrivals(init, actions);
    NothingFlushed(init, actions, []);
    DeliveredInOrder(init, actions);
    var s := Run(init, actions);
    hide Run, CanRun, Filter, Surviving;
    assert [] + Arrived(actions) == Arrived(actions) && init.read + init.fifo == [];
    assert [] + Filter(s.events, 0, s.raw).bytes == Filter(s.events, 0, s.raw).bytes;
    if !init.events {
      DisabledKeepsAll(s.read);
    }
  }

  // ---- The receiver cannot stall ------------------------------------------------------------------------------

  function TaskSteps(n: nat): seq<Action> {
    if n == 0 then [] else [TaskStep(0)] + TaskSteps(n - 1)
  }

  /** A reader that finds the ring empty while the flag is up puts the stash into the ring, takes the
      flag down and switches the user's interrupts on again, in five steps of its own. */
  lemma ReaderRestarts(s: Rx)
    requires Sized(s) && Masked(s) && Steady(s) && s.task.Receive? && s.full && s.ring == []
    ensures CanRun(s, TaskSteps(5))
    ensures var s' := Run(s, TaskSteps(5));
            s'.ring == s.stash && !s'.full && s'.enabled == s'.usr == s.usr && s'.task == s.task && s'.gone == s.gone
  {
    hide StepFlush, InterruptRx, EnableIntr, DisableIntr, Filter;
    var left := s.task.left;
    var s1 := s.(task := Check(left, true));
    var s2 := s.(task := Resend(left, true));
    var s3 := s.(ring := s.stash, task := ClearFull(left, true));
    var s4 := CountStash(s3).(task := Reenable(left, true));
    var s5 := ReenableIntr(s4, RX_BITS).(task := Receive(left));
    assert s.ring + s.stash == s.stash;
    RunCons(s4, TaskStep(0), [], s5, s5);
    RunCons(s3, TaskStep(0), TaskSteps(1), s4, s5);
    RunCons(s2, TaskStep(0), TaskSteps(2), s3, s5);
    RunCons(s1, TaskStep(0), TaskSteps(3), s2, s5);
    RunCons(s, TaskStep(0), TaskSteps(4), s1, s5);
  }

  // ---- Why a flush needs the handler kept out ------------------------------------------------------------------

  // The full flag stays up while its stash is on the way, on any run whatsoever.
  predicate Flagged(s: Rx) {
    s.task.Resend? || s.task.ClearFull? || s.task.FlushResend? || s.task.FlushClear? ==> s.full
  }

  // The step with which a flush that has found the ring empty zeroes the counter.
  predicate Zeroes(s: Rx, a: Action) {
    a.TaskStep? && s.task.FlushReset?
  }

  lemma AccountedInterruptExact(s: Rx, timeout: bool)
    requires Flagged(s) && Possible(s, Interrupt(timeout))
    ensures Flagged(InterruptRx(s, timeout)) && (Accounted(InterruptRx(s, timeout)) <==> Accounted(s))
  {
    hide Filter;
  }

  lemma AccountedReadExact(s: Rx, chunk: nat)
    requires Flagged(s) && CanStep(s, chunk) && !Flushing(s.task)
    ensures Flagged(StepRead(s, chunk)) && (Accounted(StepRead(s, chunk)) <==> Accounted(s))
  {
  }

  lemma AccountedFlushExact(s: Rx, chunk: nat)
    requires Flagged(s) && CanStep(s, chunk) && Flushing(s.task)
    ensures Flagged(StepFlush(s, chunk))
    ensures Accounted(StepFlush(s, chunk)) <==> if s.task.FlushReset? then s.ring == [] else Accounted(s)
  {
  }

  lemma AccountedExactStep(s: Rx, a: Action)
    requires Flagged(s) && Possible(s, a)
    ensures Flagged(Apply(s, a)) && (Accounted(Apply(s, a)) <==> if Zeroes(s, a) then s.ring == [] else Accounted(s))
  {
    hide InterruptRx, StepRead, StepFlush;
    if a.Interrupt? {
      AccountedInterruptExact(s, a.timeout);
    } else if a.TaskStep? {
      if Flushing(s.task) {
        AccountedFlushExact(s, a.chunk);
      } else {
        AccountedReadExact(s, a.chunk);
      }
    }
  }

  // Whether the last zeroing step of a run finds the ring still empty; `right` if there is none.
  predicate LastZeroEmpty(s: Rx, actions: seq<Action>, right: bool)
    requires CanRun(s, actions)
    decreases |actions|
  {
    if actions == [] then right
    else LastZeroEmpty(Apply(s, actions[0]), actions[1..], if Zeroes(s, actions[0]) then s.ring == [] else right)
  }

  predicate AlwaysAccounted(s: Rx, actions: seq<Action>)
    requires CanRun(s, actions)
    decreases |actions|
  {
    Accounted(s) && (actions == [] || AlwaysAccounted(Apply(s, actions[0]), actions[1..]))
  }

  predicate ZeroesEmpty(s: Rx, actions: seq<Action>)
    requires CanRun(s, actions)
    decreases |actions|
  {
    actions == [] || ((Zeroes(s, actions[0]) ==> s.ring == []) && ZeroesEmpty(Apply(s, actions[0]), actions[1..]))
  }

  lemma {:induction false} AccountedRunExact(s: Rx, actions: seq<Action>)
    requires Flagged(s) && CanRun(s, actions)
    ensures Accounted(Run(s, actions)) <==> LastZeroEmpty(s, actions, Accounted(s))
    ensures Accounted(s) ==> (AlwaysAccounted(s, actions) <==> ZeroesEmpty(s, actions))
    decreases |actions|
  {
    hide Apply, Accounted, Flagged, Possible, Zeroes;
    if actions != [] {
      AccountedExactStep(s, actions[0]);
      AccountedRunExact(Apply(s, actions[0]), actions[1..]);
    }
  }

  /** The counter over every run of the installed driver, orderly or not: it is right all the way if and
      only if every flush still finds the ring empty when it zeroes the counter, and right at the end if
      and only if the last flush to get so far does. An orderly run always keeps it right. */
  lemma AccountedExact(init: Rx, actions: seq<Action>)
    requires Initial(init) && CanRun(init, actions)
    ensures AlwaysAccounted(init, actions) <==> ZeroesEmpty(init, actions)
    ensures Accounted(Run(init, actions)) <==> LastZeroEmpty(init, actions, true)
    ensures Orderly(init, actions) ==> ZeroesEmpty(init, actions)
  {
    AccountedRunExact(init, actions);
    if Orderly(init, actions) {
      OrderlyZeroesEmpty(init, actions);
    }
  }

  lemma {:induction false} OrderlyZeroesEmpty(s: Rx, actions: seq<Action>)
    requires Steady(s) && CanRun(s, actions) && Orderly(s, actions)
    ensures ZeroesEmpty(s, actions)
    decreases |actions|
  {
    hide Apply, Possible;
    if actions != [] {
      assert Zeroes(s, actions[0]) ==> s.ring == [];
      SteadyStep(s, actions[0]);
      hide Steady, Zeroes;
      OrderlyZeroesEmpty(Apply(s, actions[0]), actions[1..]);
    }
  }

  lemma RunCons(s: Rx, a: Action, rest: seq<Action>, s': Rx, end: Rx)
    requires Possible(s, a) && s' == Apply(s, a) && CanRun(s', rest) && Run(s', rest) == end
    ensures CanRun(s, [a] + rest) && Run(s, [a] + rest) == end
  {
    hide Possible, Apply;
    assert ([a] + rest)[1..] == rest;
  }

  // A flush into which a task switches receive interrupts on just before the counter is zeroed, and a
  // byte comes in.
  function DisturbedFlush(b: Byte): seq<Action> {
    [StartFlush] + ([TaskStep(0)] + ([UserEnable(RX_BITS)] + ([Arrive(b)] + ([Interrupt(true)] + TaskSteps(3)))))
  }

  // A read of one byte.
  function ReadOne(): seq<Action> {
    [StartRead(1)] + ([TaskStep(1)] + TaskSteps(3))
  }

  lemma FilterPlain(enabled: bool, b: Byte)
    requires b != PIN_INACTIVE && b != PIN_ACTIVE
    ensures Filter(enabled, 0, [b]).bytes == [b]
  {
    assert [b][..0] == [];
    assert Filter(enabled, 0, []) == Output([], [], 0);
  }

  /** From the installed driver on: when the disturbed flush is over the byte waits in the ring and the
      counter is 0, and when the byte has been read the ring is empty and the counter is -1. */
  lemma EnableDuringFlushMiscounts(init: Rx, b: Byte)
    requires Initial(init) && b != PIN_INACTIVE && b != PIN_ACTIVE
    ensures CanRun(init, DisturbedFlush(b))
    ensures var s := Run(init, DisturbedFlush(b));
            s.task == Idle && s.ring == [b] && s.buffered == 0 && !Accounted(s)
            && CanRun(s, ReadOne())
            && var t := Run(s, ReadOne()); t.task == Idle && t.ring == [] && t.buffered == -1
  {
    hide Filter, InterruptRx, StepRead;
    var s1 := init.(enabled := NO_BITS, task := FlushReceive);
    var s2 := s1.(task := FlushReset);
    var s3 := s2.(usr := RX_BITS, enabled := RX_BITS);
    var s4 := s3.(fifo := [b]);
    var end := MiscountsFrom(s4, b);
    var last := [Interrupt(true)] + TaskSteps(3);
    RunCons(s3, Arrive(b), last, s4, end);
    RunCons(s2, UserEnable(RX_BITS), [Arrive(b)] + last, s3, end);
    RunCons(s1, TaskStep(0), [UserEnable(RX_BITS)] + ([Arrive(b)] + last), s2, end);
    RunCons(init, StartFlush, [TaskStep(0)] + ([UserEnable(RX_BITS)] + ([Arrive(b)] + last)), s1, end);
    ReadOneMiscounts(end, b);
  }

  lemma MiscountsFrom(s: Rx, b: Byte) returns (end: Rx)
    requires s.task.FlushReset? && s.enabled == RX_BITS && !s.full && s.fifo == [b] && s.ring == [] && s.last == 0
    requires s.held == 0 && s.size > FIFO_LEN && b != PIN_INACTIVE && b != PIN_ACTIVE
    ensures CanRun(s, [Interrupt(true)] + TaskSteps(3)) && end == Run(s, [Interrupt(true)] + TaskSteps(3))
    ensures end.task == Idle && !end.full && end.ring == [b] && end.buffered == 0 && !Accounted(end)
  {
    hide Filter, StepRead, Run, CanRun, InterruptRx;
    OneByteIn(s, b);
    var s1 := InterruptRx(s, true);
    var s2 := s1.(buffered := 0, gone := s.gone + [], task := FlushFifo);
    var s3 := s2.(fifo := [], task := FlushReenable);
    end := ReenableIntr(s3, RX_BITS).(task := Idle);
    RunThree(s1, s2, s3, end);
    RunCons(s, Interrupt(true), TaskSteps(3), s1, end);
  }

  lemma OneByteIn(s: Rx, b: Byte)
    requires !s.full && s.fifo == [b] && s.ring == [] && s.last == 0 && s.held == 0
    requires s.size > FIFO_LEN && b != PIN_INACTIVE && b != PIN_ACTIVE
    ensures InterruptRx(s, true) ==
            s.(fifo := [], raw := s.raw + [b], read := s.read + [b], last := Filter(s.events, 0, [b]).last, stash := [b],
               ring := [b], buffered := s.buffered + 1)
  {
    hide Filter;
    FilterPlain(s.events, b);
    assert s.fifo[..1] == [b] && s.fifo[1..] == [] && [] + [b] == [b];
  }

  lemma RunThree(s0: Rx, s1: Rx, s2: Rx, s3: Rx)
    requires Possible(s0, TaskStep(0)) && s1 == Apply(s0, TaskStep(0))
    requires Possible(s1, TaskStep(0)) && s2 == Apply(s1, TaskStep(0))
    requires Possible(s2, TaskStep(0)) && s3 == Apply(s2, TaskStep(0))
    ensures CanRun(s0, TaskSteps(3)) && Run(s0, TaskSteps(3)) == s3
  {
    hide Possible, Apply;
    RunCons(s2, TaskStep(0), [], s3, s3);
    RunCons(s1, TaskStep(0), TaskSteps(1), s2, s3);
    RunCons(s0, TaskStep(0), TaskSteps(2), s1, s3);
  }

  // Whoever reads the one byte in the ring takes one off the counter.
  lemma ReadOneMiscounts(s: Rx, b: Byte)
    requires s.task == Idle && s.ring == [b] && !s.full
    ensures CanRun(s, ReadOne())
    ensures var t := Run(s, ReadOne()); t.task == Idle && t.ring == [] && t.buffered == s.buffered - 1
  {
    hide InterruptRx, StepFlush, StepRead, Filter, Run, CanRun;
    var s1 := s.(task := Receive(1));
    var s2 := s1.(ring := [], held := 1, task := Account([b], 1));
    var s5 := ReadOneSteps(s1, s2, b);
    RunCons(s1, TaskStep(1), TaskSteps(3), s2, s5);
    RunCons(s, StartRead(1), [TaskStep(1)] + TaskSteps(3), s1, s5);
  }

  lemma ReadOneSteps(s1: Rx, s2: Rx, b: Byte) returns (s5: Rx)
    requires s1.task == Receive(1) && s1.ring == [b] && !s1.full && s2 == s1.(ring := [], held := 1, task := Account([b], 1))
    ensures Possible(s1, TaskStep(1)) && s2 == Apply(s1, TaskStep(1))
    ensures CanRun(s2, TaskSteps(3)) && s5 == Run(s2, TaskSteps(3))
    ensures s5.task == Idle && s5.ring == [] && s5.buffered == s1.buffered - 1
  {
    hide InterruptRx, StepFlush, Filter, Run, CanRun;
    TakesOne(s1, s2, b);
    var s3 := s2.(buffered := s2.buffered - 1, delivered := s2.delivered + [b], gone := s2.gone + [b], task := Return(0));
    var s4 := s3.(held := 0, task := Check(0, false));
    s5 := s4.(task := Idle);
    RunThree(s2, s3, s4, s5);
  }

  lemma TakesOne(s1: Rx, s2: Rx, b: Byte)
    requires s1.task == Receive(1) && s1.ring == [b] && !s1.full && s2 == s1.(ring := [], held := 1, task := Account([b], 1))
    ensures Possible(s1, TaskStep(1)) && s2 == Apply(s1, TaskStep(1))
  {
    hide InterruptRx, StepFlush, Filter;
    assert s1.ring[..1] == [b] && s1.ring[1..] == [];
  }

  // ---- The driver object ---------------------------------------------------------------------------------------

  class UartObj {
    const size: nat
    const rxDataBuf: array<Byte>
    const port: Port
    var rxStashLen: nat
    var full: bool
    var buffered: int
    var usr: Mask
    var enabled: Mask
    var fifo: seq<Byte>
    var ring: seq<Byte>
    var held: nat
    var alwaysTimeout: bool
    ghost var kept: seq<Byte>
    ghost var raw: seq<Byte>
    ghost var read: seq<Byte>
    ghost var delivered: seq<Byte>
    ghost var gone: seq<Byte>

    ghost predicate Valid()
      reads this
    {
      rxDataBuf.Length == FIFO_LEN && rxStashLen <= FIFO_LEN && |fifo| <= FIFO_LEN
    }

    // The state of the protocol while the task is at `t`.
    ghost function State(t: Task): Rx
      requires Valid()
      reads this, rxDataBuf, port
    {
      Rx(fifo, rxDataBuf[..rxStashLen], full, buffered, usr, enabled, ring, held, size, alwaysTimeout,
         port.eventsEnabled, port.last, t, kept, raw, read, delivered, gone)
    }

    // fnc_uart_driver_install, as far as receiving goes.
    constructor (size: nat)
      requires size > FIFO_LEN
      ensures Valid() && fresh(rxDataBuf) && fresh(port) && Initial(State(Idle))
    {
      this.size := size;
      rxDataBuf := new Byte[FIFO_LEN](_ => 0);
      port := new Port();
      rxStashLen, full, buffered, usr, enabled := 0, false, 0, RX_BITS, RX_BITS;
      fifo, ring, held, alwaysTimeout := [], [], 0, false;
      kept, raw, read, delivered, gone := [], [], [], [], [];
    }

    method EnableIntrMask(mask: Mask, ghost t: Task)
      requires Valid()
      modifies this`usr, this`enabled
      ensures Valid() && State(t) == EnableIntr(old(State(t)), mask)
    {
      usr := Or(usr, mask);
      enabled := Or(enabled, mask);
    }

    method ReenableIntrMask(mask: Mask, ghost t: Task)
      requires Valid()
      modifies this`enabled
      ensures Valid() && State(t) == ReenableIntr(old(State(t)), mask)
    {
      enabled := Or(enabled, And(usr, mask));
    }

    method DisableIntrMask(mask: Mask, ghost t: Task)
      requires Valid()
      modifies this`usr, this`enabled
      ensures Valid() && State(t) == DisableIntr(old(State(t)), mask)
    {
      usr := Minus(usr, mask);
      enabled := Minus(enabled, mask);
    }

    // xRingbufferSend of the stash.
    method SendStash() returns (sent: bool)
      requires Valid()
      modifies this`ring
      ensures Valid() && sent == (|old(ring)| + held + rxStashLen <= size)
      ensures ring == if sent then old(ring) + rxDataBuf[..rxStashLen] else old(ring)
    {
      sent := |ring| + held + rxStashLen <= size;
      if sent {
        ring := ring + rxDataBuf[..rxStashLen];
      }
    }

    // xRingbufferReceiveUpTo: the first bytes of the ring, as many as the ring chooses to hand out.
    method Take(atMost: nat) returns (part: seq<Byte>)
      requires ring != [] && atMost > 0 && held == 0
      modifies this`ring, this`held
      ensures 1 <= |part| <= atMost && old(ring) == part + ring && held == |part|
    {
      var chunk: nat :| 1 <= chunk <= |ring| && chunk <= atMost;
      part := ring[..chunk];
      ring, held := ring[chunk..], chunk;
    }

    // uart_hal_read_rxfifo.
    method ReadFifo(n: nat)
      requires Valid() && n <= |fifo|
      modifies this`fifo, this`raw, this`read, rxDataBuf
      ensures rxDataBuf[..n] == old(fifo[..n]) && fifo == old(fifo[n..])
      ensures raw == old(raw + fifo[..n]) && read == old(read + fifo[..n])
    {
      forall i | 0 <= i < n {
        rxDataBuf[i] := fifo[i];
      }
      assert rxDataBuf[..n] == fifo[..n];
      raw, read, fifo := raw + fifo[..n], read + fifo[..n], fifo[n..];
    }

    // uart_register_input_pin
    method RegisterInputPin(ghost t: Task)
      requires Valid()
      modifies this`kept, this`raw, port
      ensures Valid() && State(t) == Register(old(State(t)))
    {
      kept, raw := kept + Filter(port.eventsEnabled, 0, raw).bytes, [];
      port.RegisterInputPin();
    }

    // The handler's part after the FIFO is read and filtered.
    method OfferStash(ghost t: Task)
      requires Valid()
      modifies this`ring, this`buffered, this`full, this`enabled
      ensures Valid() && State(t) == Offer(old(State(t)))
    {
      if rxStashLen > 0 {
        var sent := SendStash();
        if sent {
          buffered := buffered + rxStashLen;
        } else {
          full := true;
          enabled := Minus(enabled, RX_BITS);
        }
      }
    }

    /** The receive branch of the interrupt handler. */
    method RxInterrupt(timeout: bool, ghost t: Task)
      requires Valid() && 0 <= |fifo| - if alwaysTimeout && !timeout then 1 else 0
      modifies this, rxDataBuf, port
      ensures Valid() && State(t) == InterruptRx(old(State(t)), timeout)
    {
      hide Filter, Offer;
      ghost var s := State(t);
      if full {
        enabled := Minus(enabled, RX_BITS);
        return;
      }
      var n := |fifo|;
      if alwaysTimeout && !timeout {
        n := n - 1;
      }
      assert n == ReadLen(s, timeout);
      ReadFifo(n);
      rxStashLen := port.DataCallback(rxDataBuf, n);
      OfferStash(t);
    }

    ghost function Pending(): seq<Byte>
      requires Valid()
      reads this, rxDataBuf
    {
      ring + if full then rxDataBuf[..rxStashLen] else []
    }

    /** fnc_uart_check_buf_full with nothing in between. */
    method CheckBufFull() returns (sent: bool)
      requires Valid()
      modifies this`ring, this`buffered, this`full, this`enabled
      ensures Valid() && sent == (old(full) && |old(ring)| + held + rxStashLen <= size)
      ensures sent ==> ring == old(ring) + rxDataBuf[..rxStashLen] && buffered == old(buffered) + rxStashLen
                       && !full && enabled == Or(old(enabled), And(usr, RX_BITS))
      ensures !sent ==> ring == old(ring) && buffered == old(buffered) && full == old(full) && enabled == old(enabled)
      ensures Pending() == old(Pending())
    {
      sent := false;
      if full {
        sent := SendStash();
        if sent {
          buffered := buffered + rxStashLen;
          full := false;
          ReenableIntrMask(RX_BITS, Idle);
        }
      }
    }

    /** fnc_uart_read_bytes with nothing in between: it returns as many of the pending bytes as asked
        for, taking the stash in as soon as it fits, and leaves the rest in order. */
    method ReadBytes(length: nat) returns (data: seq<Byte>)
      requires Valid() && held == 0 && size > FIFO_LEN && buffered == |ring|
      modifies this`ring, this`held, this`buffered, this`full, this`enabled, this`delivered, this`gone
      ensures Valid() && held == 0 && buffered == |ring|
      ensures data + Pending() == old(Pending())
      ensures |data| == if length <= |old(Pending())| then length else |old(Pending())|
      ensures delivered == old(delivered) + data && gone == old(gone) + data
      ensures full ==> old(full) && enabled == old(enabled)
    {
      data := [];
      var left: nat := length;
      assert delivered + data == delivered && gone + data == gone && data + Pending() == Pending();
      while left > 0
        invariant Valid() && held == 0 && buffered == |ring| && |data| + left == length
        invariant data + Pending() == old(Pending())
        invariant delivered == old(delivered) + data && gone == old(gone) + data
        invariant full ==> old(full) && enabled == old(enabled)
        decreases left, full
      {
        ghost var before := Pending();
        if ring == [] {
          var sent := CheckBufFull();
          if !sent {
            assert !full && Pending() == [];
            break;
          }
        } else {
          var part := Take(left);
          assert before == part + Pending();
          Regroup(data, part, Pending());
          delivered, gone := delivered + part, gone + part;
          data := data + part;
          buffered := buffered - |part|;
          left := left - |part|;
          held := 0;
          var _ := CheckBufFull();
        }
      }
      assert |data| + |Pending()| == |data + Pending()| == |old(Pending())|;
      assert left == 0 || Pending() == [];
    }

    // The flush brings the stash back, too, as soon as it fits.
    method FlushStash()
      requires Valid() && held == 0 && buffered == |ring|
      modifies this`ring, this`buffered, this`full
      ensures Valid() && buffered == |ring| && Pending() == old(Pending()) && (full ==> old(full) && ring == old(ring))
    {
      if full {
        var sent := SendStash();
        if sent {
          buffered := buffered + rxStashLen;
          full := false;
        }
      }
    }

    /** fnc_uart_flush_input with nothing in between. */
    method FlushInput()
      requires Valid() && held == 0 && buffered == |ring|
      modifies this`ring, this`held, this`buffered, this`full, this`enabled, this`gone, this`fifo
      ensures Valid() && held == 0 && ring == [] && fifo == [] && buffered == 0 && !full
      ensures enabled == Or(Minus(old(enabled), RX_BITS), And(usr, RX_BITS))
      ensures gone == old(gone) + old(Pending())
    {
      enabled := Minus(enabled, RX_BITS);
      EmptyRing();
      assert [] + (if full then rxDataBuf[..rxStashLen] else []) == if full then rxDataBuf[..rxStashLen] else [];
      gone := gone + if full then rxDataBuf[..rxStashLen] else [];
      buffered := 0;
      full := false;
      fifo := [];
      ReenableIntrMask(RX_BITS, Idle);
    }

    // The loop of the flush: the ring is read until it is empty.
    method EmptyRing()
      requires Valid() && held == 0 && buffered == |ring|
      modifies this`ring, this`held, this`buffered, this`full, this`gone
      ensures Valid() && held == 0 && ring == [] && buffered == 0 && gone + Pending() == old(gone) + old(Pending())
    {
      while ring != []
        invariant Valid() && held == 0 && buffered == |ring|
        invariant gone + Pending() == old(gone) + old(Pending())
        decreases |Pending()|, full
      {
        ghost var before := Pending();
        var part := Take(|ring|);
        assert before == part + Pending();
        Regroup(gone, part, Pending());
        gone := gone + part;
        buffered := buffered - |part|;
        held := 0;
        FlushStash();
      }
    }
  }
}
