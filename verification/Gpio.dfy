/** GPIO event polling of FluidNC/esp32/gpio.cpp. A mask is the set of the pins whose bits are set;
    the tick counter is 32 bits wide and wraps. */
module Gpio {
  const PINS := 64
  type Pin = p: nat | p < PINS

  // gpio_set_event asks for 5 ms, at one tick a millisecond.
  const RATE_LIMIT := 5
  const WORD := 0x1_0000_0000
  const HALF_WORD := 0x8000_0000

  function Int32(x: int): int {
    (x + HALF_WORD) % WORD - HALF_WORD
  }

  // ---- One pin -----------------------------------------------------------------------------------------

  // Whether the tick count has passed the end of the quiet time; 0 stands for no event yet.
  predicate Due(endTicks: int, now: nat) {
    endTicks == 0 || Int32(Int32(now) - endTicks) > 0
  }

  function EndTicks(now: nat): int {
    var end := Int32(Int32(now) + RATE_LIMIT);
    if end == 0 then 1 else end
  }

  // The first tick count at which nothing may be sent any more, not wrapped.
  function QuietUntil(sent: nat): nat {
    if (sent + RATE_LIMIT) % WORD == 0 then sent + RATE_LIMIT + 1 else sent + RATE_LIMIT
  }

  lemma Int32Cong(x: int, y: int)
    requires (x - y) % WORD == 0
    ensures Int32(x) == Int32(y)
  {
    var k := (x - y) / WORD;
    assert x + HALF_WORD == (y + HALF_WORD) + k * WORD;
    ModShift(y + HALF_WORD, k);
  }

  lemma ModShift(a: int, k: int)
    ensures (a + k * WORD) % WORD == a % WORD
  {
  }

  lemma Int32Near(x: int)
    ensures (x - Int32(x)) % WORD == 0 && -HALF_WORD <= Int32(x) < HALF_WORD
  {
    var q := (x + HALF_WORD) / WORD;
    assert x - Int32(x) == q * WORD;
    ModShift(0, q);
  }

  lemma Int32Zero(x: int)
    ensures Int32(x) == 0 <==> x % WORD == 0
  {
  }

  /** An event is due again, by the wrapping comparison, exactly when the ticks since the end of the
      quiet time are 1 to 2^31 - 1 modulo 2^32. */
  lemma DueExact(sent: nat, now: nat)
    ensures Due(EndTicks(sent), now) <==> 0 < (now - QuietUntil(sent)) % WORD < HALF_WORD
  {
    var e, q := EndTicks(sent), QuietUntil(sent);
    EndIsQuiet(sent);
    Int32Near(now);
    CongSum(Int32(now), now, e, q);
    Int32Cong(Int32(now) - e, now - q);
    Int32Positive(now - q);
    hide Int32, EndTicks, QuietUntil;
  }

  lemma Int32Positive(x: int)
    ensures Int32(x) > 0 <==> 0 < x % WORD < HALF_WORD
  {
  }

  lemma CongSum(a: int, b: int, c: int, d: int)
    requires (b - a) % WORD == 0 && (d - c) % WORD == 0
    ensures ((a - c) - (b - d)) % WORD == 0
  {
    var j, k := (b - a) / WORD, (d - c) / WORD;
    assert (a - c) - (b - d) == (k - j) * WORD;
    ModShift(0, k - j);
  }

  lemma EndIsQuiet(sent: nat)
    ensures EndTicks(sent) != 0 && (QuietUntil(sent) - EndTicks(sent)) % WORD == 0
  {
    Int32Near(sent);
    var k := (sent - Int32(sent)) / WORD;
    assert sent + RATE_LIMIT == Int32(sent) + RATE_LIMIT + k * WORD;
    Int32Cong(Int32(sent) + RATE_LIMIT, sent + RATE_LIMIT) by {
      ModShift(0, -k);
    }
    Int32Zero(sent + RATE_LIMIT);
    Int32Near(sent + RATE_LIMIT);
    if (sent + RATE_LIMIT) % WORD == 0 {
      var m := (sent + RATE_LIMIT) / WORD;
      assert QuietUntil(sent) - 1 == m * WORD;
      ModShift(0, m);
    }
  }

  // Two events are more than the limit apart, however the counter wraps.
  lemma DueIsLater(sent: nat, now: nat)
    requires sent <= now && Due(EndTicks(sent), now)
    ensures now > sent + RATE_LIMIT
  {
    DueExact(sent, now);
    hide Due, EndTicks;
  }

  // The limit is over for 2^31 - 1 ticks.
  lemma DueInTime(sent: nat, now: nat)
    requires QuietUntil(sent) < now < QuietUntil(sent) + HALF_WORD
    ensures Due(EndTicks(sent), now)
  {
    DueExact(sent, now);
  }

  // After that it seems to have come back: nothing is sent for the next 2^31 ticks.
  lemma NotDueAfterHalfWrap(sent: nat, now: nat)
    requires QuietUntil(sent) + HALF_WORD <= now <= QuietUntil(sent) + WORD
    ensures !Due(EndTicks(sent), now)
  {
    DueExact(sent, now);
  }

  // ---- All pins ----------------------------------------------------------------------------------------

  datatype Decision = Decision(pin: Pin, active: bool, time: nat)

  datatype State = State(
    interest: set<Pin>,     // gpios_interest
    inverted: set<Pin>,     // gpios_inverted
    current: set<Pin>,      // gpios_current
    args: set<Pin>,         // pins whose gpioArgs is not null
    next: seq<int>,         // gpio_next_event_ticks
    log: seq<Decision>,     // history: every time the state of a pin was settled
    events: seq<Decision>)  // history: the protocol events sent

  predicate Valid(s: State) {
    |s.next| == PINS
  }

  function SymDiff(a: set<Pin>, b: set<Pin>): set<Pin> {
    (a - b) + (b - a)
  }

  function Update(gpios: set<Pin>, pin: Pin, active: bool): set<Pin> {
    if active then gpios + {pin} else gpios - {pin}
  }

  // gpio_send_event
  function Send(s: State, pin: Pin, active: bool, now: nat): (r: State)
    requires Valid(s)
    ensures Valid(r)
  {
    if Due(s.next[pin], now) then
      var d := Decision(pin, active, now);
      s.(next := s.next[pin := EndTicks(now)], current := Update(s.current, pin, active), log := s.log + [d],
         events := s.events + if pin in s.args then [d] else [])
    else s
  }

  function Process(s: State, pins: seq<Pin>, active: set<Pin>, now: nat): (r: State)
    requires Valid(s)
    ensures Valid(r)
    decreases |pins|
  {
    if pins == [] then s else Process(Send(s, pins[0], pins[0] in active, now), pins[1..], active, now)
  }

  // The pins of a mask from the highest bit down.
  function Descending(pins: set<Pin>, below: nat): seq<Pin>
    requires below <= PINS
    decreases below
  {
    if below == 0 then []
    else (if below - 1 in pins then [(below - 1) as Pin] else []) + Descending(pins, below - 1)
  }

  function Changed(s: State, active: set<Pin>): set<Pin> {
    SymDiff(active, s.current) * s.interest
  }

  // poll_gpios, with the levels already turned active high.
  function Poll(s: State, active: set<Pin>, now: nat): State
    requires Valid(s)
  {
    Process(s, Descending(Changed(s, active), PINS), active, now)
  }

  /** Each changed pin of interest is visited exactly once, from the highest down. */
  lemma {:induction false} VisitedOnce(pins: set<Pin>, below: nat)
    requires below <= PINS
    ensures var v := Descending(pins, below);
            (forall i, j :: 0 <= i < j < |v| ==> v[i] > v[j]) && (forall p: Pin :: p in v <==> p in pins && p < below)
    decreases below
  {
    if below > 0 {
      VisitedOnce(pins, below - 1);
      var v := Descending(pins, below - 1);
      assert forall i :: 0 <= i < |v| ==> v[i] in v;
    }
  }

  function Of(log: seq<Decision>, pin: Pin): (r: seq<Decision>)
    decreases |log|
  {
    if log == [] then []
    else Of(log[..|log| - 1], pin) + if log[|log| - 1].pin == pin then [log[|log| - 1]] else []
  }

  lemma OfAppend(log: seq<Decision>, d: Decision, pin: Pin)
    ensures Of(log + [d], pin) == Of(log, pin) + if d.pin == pin then [d] else []
  {
    assert (log + [d])[..|log|] == log;
  }

  // What one send means for one pin.
  predicate PinKept(s: State, r: State, p: Pin)
    requires Valid(s) && Valid(r)
  {
    (p in r.current <==> p in s.current) && r.next[p] == s.next[p] && Of(r.log, p) == Of(s.log, p)
  }

  predicate PinSettled(s: State, r: State, p: Pin, active: bool, now: nat)
    requires Valid(s) && Valid(r)
  {
    (p in r.current <==> active) && r.next[p] == EndTicks(now) && Of(r.log, p) == Of(s.log, p) + [Decision(p, active, now)]
  }

  lemma SendOne(s: State, pin: Pin, active: bool, now: nat, p: Pin)
    requires Valid(s)
    ensures var r := Send(s, pin, active, now);
            && r.interest == s.interest
            && (if p == pin && Due(s.next[p], now) then PinSettled(s, r, p, active, now) else PinKept(s, r, p))
  {
    hide Due, EndTicks;
    OfAppend(s.log, Decision(pin, active, now), p);
  }

  predicate Distinct(pins: seq<Pin>) {
    forall i, j :: 0 <= i < j < |pins| ==> pins[i] != pins[j]
  }

  lemma {:induction false} ProcessOne(s: State, pins: seq<Pin>, active: set<Pin>, now: nat, p: Pin)
    requires Valid(s) && Distinct(pins)
    ensures var r := Process(s, pins, active, now);
            && r.interest == s.interest
            && (if p in pins && Due(s.next[p], now) then PinSettled(s, r, p, p in active, now) else PinKept(s, r, p))
    decreases |pins|
  {
    hide Send, Due, EndTicks, Of;
    if pins != [] {
      var pin := pins[0];
      SendOne(s, pin, pin in active, now, p);
      ProcessOne(Send(s, pin, pin in active, now), pins[1..], active, now, p);
      assert p == pin ==> p !in pins[1..];
    }
  }

  // A poll settles a pin if and only if it is of interest, changed, and due.
  lemma PollOne(s: State, active: set<Pin>, now: nat, p: Pin)
    requires Valid(s)
    ensures var r := Poll(s, active, now);
            && Valid(r) && r.interest == s.interest
            && (if p in s.interest && (p in active) != (p in s.current) && Due(s.next[p], now)
                then PinSettled(s, r, p, p in active, now) else PinKept(s, r, p))
  {
    hide Due, Send, EndTicks, Of, Process, PinSettled, PinKept;
    assert Changed(s, active) == SymDiff(active, s.current) * s.interest;
    VisitedOnce(Changed(s, active), PINS);
    ProcessOne(s, Descending(Changed(s, active), PINS), active, now, p);
  }

  // ---- Runs of polls -----------------------------------------------------------------------------------

  datatype Sample = Sample(active: set<Pin>, now: nat)

  function EndOf(samples: seq<Sample>, from: nat): nat {
    if samples == [] then from else samples[|samples| - 1].now
  }

  predicate Ordered(samples: seq<Sample>, from: nat)
    decreases |samples|
  {
    samples == [] ||
    (Ordered(samples[..|samples| - 1], from) && EndOf(samples[..|samples| - 1], from) <= samples[|samples| - 1].now)
  }

  function Run(s: State, samples: seq<Sample>): (r: State)
    requires Valid(s)
    ensures Valid(r)
    decreases |samples|
  {
    if samples == [] then s
    else
      var last := |samples| - 1;
      Poll(Run(s, samples[..last]), samples[last].active, samples[last].now)
  }

  // The decisions for a pin alternate and keep their distance, and its state is that of the last one.
  predicate Tracked(s: State, p: Pin, now: nat)
    requires Valid(s)
  {
    var ds := Of(s.log, p);
    && (forall i :: 0 < i < |ds| ==> ds[i].active != ds[i - 1].active && ds[i].time > ds[i - 1].time + RATE_LIMIT)
    && (ds != [] ==> var d := ds[|ds| - 1];
                     (p in s.current <==> d.active) && s.next[p] == EndTicks(d.time) && d.time <= now)
  }

  lemma TrackedPoll(s: State, p: Pin, was: nat, sample: Sample)
    requires Valid(s) && Tracked(s, p, was) && was <= sample.now
    ensures Tracked(Poll(s, sample.active, sample.now), p, sample.now)
  {
    hide Poll, Due, EndTicks, Of;
    PollOne(s, sample.active, sample.now, p);
    var ds := Of(s.log, p);
    if ds != [] && Due(s.next[p], sample.now) {
      DueIsLater(ds[|ds| - 1].time, sample.now);
    }
  }

  /** Over any run of polls between registrations, the decisions sent for one pin alternate between
      active and inactive and any two are more than the rate limit apart, whatever the counter does. */
  lemma {:induction false} DecisionsAlternate(s: State, samples: seq<Sample>, from: nat, p: Pin)
    requires Valid(s) && s.log == [] && Ordered(samples, from)
    ensures Tracked(Run(s, samples), p, EndOf(samples, from)) && Run(s, samples).interest == s.interest
    ensures Of(Run(s, samples).log, p) == [] ==>
            Run(s, samples).next[p] == s.next[p] && (p in Run(s, samples).current <==> p in s.current)
    decreases |samples|
  {
    hide Poll;
    if samples != [] {
      var last := |samples| - 1;
      DecisionsAlternate(s, samples[..last], from, p);
      TrackedPoll(Run(s, samples[..last]), p, EndOf(samples[..last], from), samples[last]);
      PollOne(Run(s, samples[..last]), samples[last].active, samples[last].now, p);
    }
  }

  /** A level that differs from the one last sent is reported by the next poll, if and only if the ticks
      since the end of the pin's quiet time are below 2^31 modulo 2^32 and not 0. Before the first decision
      that is the quiet time a former registration has left, if any. */
  lemma HeldLevelReported(s: State, samples: seq<Sample>, from: nat, p: Pin, sample: Sample)
    requires Valid(s) && s.log == [] && p in s.interest && Ordered(samples, from)
    requires (p in sample.active) != (p in Run(s, samples).current)
    ensures var r := Run(s, samples);
            var ds := Of(r.log, p);
            var more := Of(Poll(r, sample.active, sample.now).log, p);
            more == (if (ds == [] && Due(s.next[p], sample.now))
                        || (ds != [] && 0 < (sample.now - QuietUntil(ds[|ds| - 1].time)) % WORD < HALF_WORD)
                     then ds + [Decision(p, p in sample.active, sample.now)] else ds)
  {
    hide Poll, Run, Of;
    DecisionsAlternate(s, samples, from, p);
    var r := Run(s, samples);
    var ds := Of(r.log, p);
    PollOne(r, sample.active, sample.now, p);
    if ds != [] {
      DueExact(ds[|ds| - 1].time, sample.now);
    }
  }

  // The event of a pin is sent with every decision, if the pin has an argument to send it with.
  predicate EventsMatch(s: State, p: Pin) {
    Of(s.events, p) == if p in s.args then Of(s.log, p) else []
  }

  lemma EventsOfSend(s: State, pin: Pin, active: bool, now: nat, p: Pin)
    requires Valid(s) && EventsMatch(s, p)
    ensures EventsMatch(Send(s, pin, active, now), p) && Send(s, pin, active, now).args == s.args
  {
    hide Due, EndTicks, Of, Update;
    var d := Decision(pin, active, now);
    OfAppend(s.log, d, p);
    OfAppend(s.events, d, p);
    assert s.events + [] == s.events;
  }

  lemma {:induction false} EventsOfProcess(s: State, pins: seq<Pin>, active: set<Pin>, now: nat, p: Pin)
    requires Valid(s) && EventsMatch(s, p)
    ensures EventsMatch(Process(s, pins, active, now), p) && Process(s, pins, active, now).args == s.args
    decreases |pins|
  {
    hide Send, EventsMatch;
    if pins != [] {
      EventsOfSend(s, pins[0], pins[0] in active, now, p);
      EventsOfProcess(Send(s, pins[0], pins[0] in active, now), pins[1..], active, now, p);
    }
  }

  /** The events sent for a pin over any run of polls: none if it has no argument to send them with, else
      they alternate between active and inactive and any two are more than 5 ticks apart, the last one is
      the state the pin is known in, and each is one of the decisions. */
  lemma {:induction false} EventsAlternate(s: State, samples: seq<Sample>, from: nat, p: Pin)
    requires Valid(s) && s.log == [] && s.events == [] && Ordered(samples, from)
    ensures var r := Run(s, samples);
            var sent := Of(r.events, p);
            && r.args == s.args && (if p in s.args then sent == Of(r.log, p) else sent == [])
            && (forall i :: 0 < i < |sent| ==> sent[i].active == !sent[i - 1].active && sent[i].time > sent[i - 1].time + 5)
            && (sent != [] ==> (p in r.current <==> sent[|sent| - 1].active))
  {
    DecisionsAlternate(s, samples, from, p);
    EventsOfRun(s, samples, p);
    hide Run, Of, Due, EndTicks;
  }

  lemma {:induction false} EventsOfRun(s: State, samples: seq<Sample>, p: Pin)
    requires Valid(s) && s.log == [] && s.events == []
    ensures EventsMatch(Run(s, samples), p) && Run(s, samples).args == s.args
    decreases |samples|
  {
    if samples != [] {
      hide EventsMatch, Process, Of, Descending, Changed;
      var last := |samples| - 1;
      EventsOfRun(s, samples[..last], p);
      var r, sample := Run(s, samples[..last]), samples[last];
      EventsOfProcess(r, Descending(Changed(r, sample.active), PINS), sample.active, sample.now, p);
    }
  }

  /** A poll of the raw levels: a pin of interest whose level, turned over if it is inverted, differs from
      the state it is known in gets the event of its new state, if one is due and it has an argument. */
  lemma PollSends(s: State, raw: set<Pin>, now: nat, p: Pin)
    requires Valid(s) && EventsMatch(s, p) && p in s.interest && p in s.args && Due(s.next[p], now)
    ensures var high, turned, known := p in raw, p in s.inverted, p in s.current;
            Of(Poll(s, SymDiff(raw, s.inverted), now).events, p) ==
            Of(s.events, p) + if (high != turned) != known then [Decision(p, high != turned, now)] else []
  {
    var active := SymDiff(raw, s.inverted);
    PollOne(s, active, now, p);
    assert p in active <==> (p in raw) != (p in s.inverted);
    EventsOfProcess(s, Descending(Changed(s, active), PINS), active, now, p);
    hide Process, Of, Due, EndTicks, Descending, Changed, SymDiff;
  }

  // ---- The program -------------------------------------------------------------------------------------

  class Gpios {
    var interest: set<Pin>
    var inverted: set<Pin>
    var current: set<Pin>
    var args: set<Pin>
    const next: array<int>
    ghost var log: seq<Decision>
    ghost var events: seq<Decision>

    ghost predicate Ready()
      reads this
    {
      next.Length == PINS
    }

    ghost function Contents(): (s: State)
      requires Ready()
      reads this, next
      ensures Valid(s)
    {
      State(interest, inverted, current, args, next[..], log, events)
    }

    constructor ()
      ensures Ready() && fresh(next)
      ensures Contents() == State({}, {}, {}, {}, seq(PINS, _ => 0), [], [])
    {
      interest, inverted, current, args := {}, {}, {}, {};
      next := new int[PINS](_ => 0);
      log, events := [], [];
      new;
      assert next[..] == seq(PINS, _ => 0);
    }

    // gpio_set_event, with the raw levels read at the time: the next poll finds the pin changed.
    method SetEvent(pin: Pin, hasArg: bool, invert: bool, raw: set<Pin>)
      requires Ready()
      modifies this`args, this`interest, this`inverted, this`current
      ensures Ready() && pin in interest && (pin in args <==> hasArg) && (pin in inverted <==> invert)
      ensures pin in Changed(Contents(), SymDiff(raw, inverted))
      ensures interest - {pin} == old(interest) - {pin} && args - {pin} == old(args) - {pin}
      ensures inverted - {pin} == old(inverted) - {pin} && current - {pin} == old(current) - {pin}
    {
      args := Update(args, pin, hasArg);
      interest := Update(interest, pin, true);
      inverted := Update(inverted, pin, invert);
      var active := pin in SymDiff(raw, inverted);
      current := Update(current, pin, !active);
    }

    // gpio_clear_event
    method ClearEvent(pin: Pin)
      requires Ready()
      modifies this`args, this`interest
      ensures Ready() && Contents() == old(Contents()).(args := old(args) - {pin}, interest := old(interest) - {pin})
    {
      args := Update(args, pin, false);
      interest := Update(interest, pin, false);
    }

    method SendEvent(pin: Pin, active: bool, now: nat)
      requires Ready()
      modifies this`current, this`log, this`events, next
      ensures Ready() && Contents() == Send(old(Contents()), pin, active, now)
    {
      hide Int32;
      var endTicks := next[pin];
      var thisTicks := Int32(now);
      if endTicks == 0 || Int32(thisTicks - endTicks) > 0 {
        endTicks := Int32(thisTicks + RATE_LIMIT);
        if endTicks == 0 {
          endTicks := 1;
        }
        next[pin] := endTicks;
        if pin in args {
          events := events + [Decision(pin, active, now)];
        }
        current := Update(current, pin, active);
        log := log + [Decision(pin, active, now)];
      }
    }

    // 63 - clz of the mask.
    method Highest(pins: set<Pin>, ghost below: nat) returns (pin: Pin)
      requires pins != {} && below <= PINS && forall p :: p in pins ==> p < below
      ensures pin in pins && Descending(pins, below) == [pin] + Descending(pins, pin)
      ensures forall p :: p in pins ==> p <= pin
    {
      var k := PINS;
      while k - 1 !in pins
        invariant 0 < k <= PINS && forall p :: p in pins ==> p < k
        decreases k
      {
        assert exists p :: p in pins;
        k := k - 1;
      }
      pin := k - 1;
      SkipEmpty(pins, below, k);
    }

    /** poll_gpios */
    method PollGpios(raw: set<Pin>, now: nat)
      requires Ready()
      modifies this`current, this`log, this`events, next
      ensures Ready() && Contents() == Poll(old(Contents()), SymDiff(raw, inverted), now)
    {
      hide Send;
      var active := SymDiff(raw, inverted);
      var changed := SymDiff(active, current) * interest;
      ghost var below: nat := PINS;
      while changed != {}
        invariant Ready() && below <= PINS && forall p :: p in changed ==> p < below
        invariant Process(Contents(), Descending(changed, below), active, now) == Poll(old(Contents()), active, now)
        decreases changed
      {
        var pin := Highest(changed, below);
        SendEvent(pin, pin in active, now);
        Untouched(changed, pin);
        changed := changed - {pin};
        below := pin;
      }
      EmptyDescends(below);
    }
  }

  lemma {:induction false} SkipEmpty(pins: set<Pin>, below: nat, k: nat)
    requires k <= PINS && below <= PINS && k <= below && k > 0 && k - 1 in pins && forall p :: p in pins ==> p < k
    ensures Descending(pins, below) == [(k - 1) as Pin] + Descending(pins, k - 1)
    decreases below
  {
    if below > k {
      SkipEmpty(pins, below - 1, k);
    }
  }

  lemma {:induction false} UntouchedBelow(pins: set<Pin>, pin: Pin, below: nat)
    requires below <= pin
    ensures Descending(pins, below) == Descending(pins - {pin}, below)
    decreases below
  {
    if below > 0 {
      UntouchedBelow(pins, pin, below - 1);
    }
  }

  lemma Untouched(pins: set<Pin>, pin: Pin)
    ensures Descending(pins, pin) == Descending(pins - {pin}, pin)
  {
    UntouchedBelow(pins, pin, pin);
  }

  lemma {:induction false} EmptyDescends(below: nat)
    requires below <= PINS
    ensures Descending({}, below) == []
    decreases below
  {
    if below > 0 {
      EmptyDescends(below - 1);
    }
  }
}
