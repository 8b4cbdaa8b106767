/** The queue of pattern positions of FluidNC/esp32/fnc_idf_uart_idfbuild.c: a circular array with
    one slot kept free, holding positions relative to the first byte not yet consumed. */
module PatternQueue {

  // ---- What the queue is for ---------------------------------------------------------------------------

  function Shift(q: seq<int>, n: int): (r: seq<int>)
    ensures |r| == |q| && forall i :: 0 <= i < |q| ==> r[i] == q[i] - n
    decreases |q|
  {
    if q == [] then [] else [q[0] - n] + Shift(q[1..], n)
  }

  function NonNegative(q: seq<int>): (r: seq<int>)
    decreases |q|
  {
    if q == [] then [] else (if q[0] < 0 then [] else [q[0]]) + NonNegative(q[1..])
  }

  // What update leaves: everything after the last negative position.
  function AfterLastNegative(q: seq<int>): seq<int>
    decreases |q|
  {
    if forall i :: 0 <= i < |q| ==> q[i] >= 0 then q else AfterLastNegative(q[1..])
  }

  lemma {:induction false} AfterLastNegativeAt(q: seq<int>, m: nat)
    requires m <= |q| && (m == 0 || q[m - 1] < 0) && forall i :: m <= i < |q| ==> q[i] >= 0
    ensures AfterLastNegative(q) == q[m..]
    decreases |q|
  {
    if m > 0 {
      assert forall i :: 0 <= i < |q[1..]| ==> q[1..][i] == q[i + 1];
      AfterLastNegativeAt(q[1..], m - 1);
      assert q[1..][m - 1..] == q[m..];
    }
  }

  // No position that stays is in front of one that is dropped.
  ghost predicate NegativesFirst(q: seq<int>) {
    forall i, j :: 0 <= i < j < |q| && q[j] < 0 ==> q[i] < 0
  }

  predicate Ascending(q: seq<int>) {
    forall i, j :: 0 <= i < j < |q| ==> q[i] <= q[j]
  }

  lemma {:induction false} NonNegativeAll(q: seq<int>)
    requires forall i :: 0 <= i < |q| ==> q[i] >= 0
    ensures NonNegative(q) == q
    decreases |q|
  {
    if q != [] {
      NonNegativeAll(q[1..]);
    }
  }

  lemma {:induction false} AfterIsSuffix(q: seq<int>)
    ensures |AfterLastNegative(q)| <= |q| && AfterLastNegative(q) == q[|q| - |AfterLastNegative(q)|..]
    ensures forall x :: x in AfterLastNegative(q) ==> x >= 0
    decreases |q|
  {
    if exists i :: 0 <= i < |q| && q[i] < 0 {
      AfterIsSuffix(q[1..]);
    }
  }

  lemma {:induction false} CountNonNegative(q: seq<int>)
    ensures |AfterLastNegative(q)| <= |NonNegative(q)|
    decreases |q|
  {
    if exists i :: 0 <= i < |q| && q[i] < 0 {
      CountNonNegative(q[1..]);
    } else {
      NonNegativeAll(q);
    }
  }

  /** Update drops the consumed positions and no others, if and only if no later position is in front
      of a consumed one. */
  lemma {:induction false} UpdateDropsNegatives(q: seq<int>)
    ensures AfterLastNegative(q) == NonNegative(q) <==> NegativesFirst(q)
    decreases |q|
  {
    if forall i :: 0 <= i < |q| ==> q[i] >= 0 {
      NonNegativeAll(q);
    } else {
      var t := q[1..];
      UpdateDropsNegatives(t);
      assert forall i :: 0 <= i < |t| ==> t[i] == q[i + 1];
      if q[0] < 0 {
        assert NonNegative(q) == NonNegative(t);
        if NegativesFirst(t) {
          forall i, j | 0 <= i < j < |q| && q[j] < 0 ensures q[i] < 0 {
            if i > 0 {
              assert t[j - 1] < 0;
              assert t[i - 1] < 0;
            }
          }
        } else {
          var i, j :| 0 <= i < j < |t| && t[j] < 0 && t[i] >= 0;
          assert q[j + 1] < 0 && q[i + 1] >= 0;
        }
      } else {
        var j :| 0 <= j < |q| && q[j] < 0;
        assert !NegativesFirst(q);
        CountNonNegative(t);
        assert |NonNegative(q)| == 1 + |NonNegative(t)|;
      }
    }
  }

  // ---- Runs --------------------------------------------------------------------------------------------

  // Positions counted from the start of the stream: a pattern is found, the first one is popped, bytes
  // are consumed.
  datatype Event = Found(pos: int) | Pop | Consume(bytes: nat)

  datatype Stream = Stream(consumed: int, positions: seq<int>)

  // A plain list of stream positions.
  function Reference(s: Stream, room: nat, e: Event): Stream {
    match e
    case Found(p) => if |s.positions| < room then s.(positions := s.positions + [p]) else s
    case Pop => if s.positions == [] then s else s.(positions := s.positions[1..])
    case Consume(n) => Stream(s.consumed + n, AtLeast(s.positions, s.consumed + n))
  }

  function AtLeast(q: seq<int>, bound: int): (r: seq<int>)
    ensures |r| <= |q| && forall x :: x in r ==> x >= bound && x in q
    decreases |q|
  {
    if q == [] then [] else (if q[0] < bound then [] else [q[0]]) + AtLeast(q[1..], bound)
  }

  // The driver's list: positions relative to the first byte not yet consumed.
  function Driver(d: Stream, room: nat, e: Event): Stream {
    match e
    case Found(p) => if |d.positions| < room then d.(positions := d.positions + [p - d.consumed]) else d
    case Pop => if d.positions == [] then d else d.(positions := d.positions[1..])
    case Consume(n) => Stream(d.consumed + n, AfterLastNegative(Shift(d.positions, n)))
  }

  function Relative(s: Stream): Stream {
    s.(positions := Shift(s.positions, s.consumed))
  }

  // Each pattern is found behind those still queued.
  predicate InOrder(s: Stream, room: nat, events: seq<Event>)
    decreases |events|
  {
    events == [] ||
    ((events[0].Found? ==> forall p :: p in s.positions ==> p <= events[0].pos)
     && InOrder(Reference(s, room, events[0]), room, events[1..]))
  }

  function RunReference(s: Stream, room: nat, events: seq<Event>): Stream
    decreases |events|
  {
    if events == [] then s else RunReference(Reference(s, room, events[0]), room, events[1..])
  }

  function RunDriver(d: Stream, room: nat, events: seq<Event>): Stream
    decreases |events|
  {
    if events == [] then d else RunDriver(Driver(d, room, events[0]), room, events[1..])
  }

  lemma {:induction false} AtLeastAscending(q: seq<int>, bound: int)
    requires Ascending(q)
    ensures Ascending(AtLeast(q, bound))
    decreases |q|
  {
    if q != [] {
      AtLeastAscending(q[1..], bound);
      var r := AtLeast(q[1..], bound);
      forall j | 0 <= j < |r| ensures q[0] <= r[j] {
        assert r[j] in r;
      }
    }
  }

  lemma {:induction false} ShiftAtLeast(q: seq<int>, bound: int)
    ensures NonNegative(Shift(q, bound)) == Shift(AtLeast(q, bound), bound)
    decreases |q|
  {
    if q != [] {
      ShiftAtLeast(q[1..], bound);
      assert Shift(q, bound)[1..] == Shift(q[1..], bound);
    }
  }

  lemma ShiftTwice(q: seq<int>, a: int, b: int)
    ensures Shift(Shift(q, a), b) == Shift(q, a + b)
  {
    hide Shift;
  }

  lemma ConsumeRefines(s: Stream, n: nat)
    requires Ascending(s.positions)
    ensures AfterLastNegative(Shift(Shift(s.positions, s.consumed), n)) ==
            Shift(AtLeast(s.positions, s.consumed + n), s.consumed + n)
  {
    hide Shift, AtLeast, AfterLastNegative, NonNegative;
    var bound := s.consumed + n;
    ShiftTwice(s.positions, s.consumed, n);
    UpdateDropsNegatives(Shift(s.positions, bound));
    ShiftAtLeast(s.positions, bound);
  }

  lemma StepRefines(s: Stream, room: nat, e: Event)
    requires Ascending(s.positions) && (e.Found? ==> forall p :: p in s.positions ==> p <= e.pos)
    ensures Driver(Relative(s), room, e) == Relative(Reference(s, room, e))
    ensures Ascending(Reference(s, room, e).positions)
  {
    hide Shift, AtLeast, AfterLastNegative, NonNegative;
    if e.Consume? {
      ConsumeRefines(s, e.bytes);
      AtLeastAscending(s.positions, s.consumed + e.bytes);
    } else if e.Found? {
      assert forall i :: 0 <= i < |s.positions| ==> s.positions[i] in s.positions;
    }
  }

  /** Over any mix of found patterns, pops and consumed bytes, the driver's queue is the plain list of
      stream positions, seen from the first byte not yet consumed. */
  lemma {:induction false} QueueTracksStream(s: Stream, room: nat, events: seq<Event>)
    requires Ascending(s.positions) && InOrder(s, room, events)
    ensures RunDriver(Relative(s), room, events) == Relative(RunReference(s, room, events))
    ensures Ascending(RunReference(s, room, events).positions)
    decreases |events|
  {
    hide Reference, Driver, Relative, Ascending;
    if events != [] {
      StepRefines(s, room, events[0]);
      QueueTracksStream(Reference(s, room, events[0]), room, events[1..]);
    }
  }

  // ---- The circular array ------------------------------------------------------------------------------

  class PatternRing {
    var data: array<int>
    var rd: nat
    var wr: nat

    ghost predicate Valid()
      reads this, data
    {
      0 < data.Length && rd < data.Length && wr < data.Length
    }

    // Slot of the k-th queued position.
    ghost function Slot(k: nat): nat
      reads this
    {
      SlotFrom(rd, k)
    }

    ghost function SlotFrom(start: nat, k: nat): nat
      reads this`data
    {
      if start + k < data.Length then start + k else start + k - data.Length
    }

    ghost function Count(): nat
      requires Valid()
      reads this, data
    {
      if rd <= wr then wr - rd else data.Length - rd + wr
    }

    ghost function Contents(): (q: seq<int>)
      requires Valid()
      reads this, data
      ensures |q| == Count() < data.Length
      ensures forall k :: 0 <= k < |q| ==> q[k] == data[Slot(k)]
    {
      if rd <= wr then data[rd..wr] else data[rd..] + data[..wr]
    }

    // fnc_uart_pattern_queue_reset
    method Reset(length: nat)
      requires length > 0
      modifies this
      ensures Valid() && fresh(data) && data.Length == length && Contents() == []
    {
      data := new int[length];
      rd, wr := 0, 0;
    }

    constructor (length: nat)
      requires length > 0
      ensures Valid() && fresh(data) && data.Length == length && Contents() == []
    {
      data := new int[length];
      rd, wr := 0, 0;
    }

    method Enqueue(pos: int) returns (ok: bool)
      requires Valid()
      modifies this`wr, data
      ensures Valid() && data == old(data) && ok == (old(|Contents()|) < data.Length - 1)
      ensures Contents() == if ok then old(Contents()) + [pos] else old(Contents())
    {
      var next := wr + 1;
      if next >= data.Length {
        next := 0;
      }
      if next == rd {
        ok := false;
      } else {
        data[wr] := pos;
        wr := next;
        ok := true;
      }
    }

    method Dequeue() returns (ok: bool)
      requires Valid()
      modifies this`rd
      ensures Valid() && ok == (old(Contents()) != [])
      ensures Contents() == if ok then old(Contents())[1..] else []
    {
      if rd == wr {
        ok := false;
      } else {
        rd := rd + 1;
        ok := true;
      }
      if rd >= data.Length {
        rd := 0;
      }
    }

    // fnc_uart_pattern_pop_pos
    method PopPos() returns (pos: int)
      requires Valid()
      modifies this`rd
      ensures Valid() && pos == if old(Contents()) == [] then -1 else old(Contents())[0]
      ensures Contents() == if old(Contents()) == [] then [] else old(Contents())[1..]
    {
      pos := -1;
      if rd != wr {
        pos := data[rd];
        var _ := Dequeue();
      }
    }

    // fnc_uart_pattern_get_pos
    method GetPos() returns (pos: int)
      requires Valid()
      ensures pos == if Contents() == [] then -1 else Contents()[0]
    {
      pos := -1;
      if rd != wr {
        pos := data[rd];
      }
    }

    // What the update loop knows after `k` of the positions `q`: those are shifted, the rest are not.
    ghost predicate Updated(start: nat, q: seq<int>, shifted: seq<int>, k: nat)
      requires |q| < data.Length && start < data.Length && |shifted| == |q| && k <= |q|
      reads this`data, data
    {
      && (forall j :: 0 <= j < k ==> data[SlotFrom(start, j)] == shifted[j])
      && (forall j :: k <= j < |q| ==> data[SlotFrom(start, j)] == q[j])
    }

    method ShiftSlot(ghost start: nat, ghost q: seq<int>, ghost k: nat, i: nat, diff: int)
      requires |q| < data.Length && start < data.Length && k < |q| && i == SlotFrom(start, k)
      requires Updated(start, q, Shift(q, diff), k)
      modifies data
      ensures Updated(start, q, Shift(q, diff), k + 1) && data[i] == Shift(q, diff)[k]
    {
      data[i] := data[i] - diff;
    }

    // At the end of the loop the positions from the `m`-th on are queued.
    lemma UpdatedContents(start: nat, q: seq<int>, shifted: seq<int>, m: nat)
      requires Valid() && |q| < data.Length && start < data.Length && |shifted| == |q| && m <= |q|
      requires Updated(start, q, shifted, |q|) && rd == SlotFrom(start, m) && wr == SlotFrom(start, |q|)
      ensures Contents() == shifted[m..]
    {
      assert Count() == |q| - m;
      assert forall j :: 0 <= j < |q| - m ==> Slot(j) == SlotFrom(start, m + j);
    }

    lemma NothingUpdated(q: seq<int>, shifted: seq<int>)
      requires Valid() && q == Contents() && |shifted| == |q|
      ensures Updated(rd, q, shifted, 0) && wr == SlotFrom(rd, |q|)
    {
    }

    /** fnc_uart_pattern_queue_update: one pass over the slots, moving the read index past each position
        that became negative. */
    method Update(diff: int)
      requires Valid()
      modifies this`rd, data
      ensures Valid() && data == old(data) && wr == old(wr)
      ensures Contents() == AfterLastNegative(Shift(old(Contents()), diff))
    {
      hide Shift, AfterLastNegative, Updated;
      ghost var q := Contents();
      ghost var shifted := Shift(q, diff);
      NothingUpdated(q, shifted);
      hide Contents;
      ghost var k: nat, m: nat := 0, 0;
      ghost var start := rd;
      var i := rd;
      while i != wr
        invariant Valid() && m <= k <= |q| && i == SlotFrom(start, k) && rd == SlotFrom(start, m)
        invariant Updated(start, q, shifted, k)
        invariant m == 0 || shifted[m - 1] < 0
        invariant forall j :: m <= j < k ==> shifted[j] >= 0
        decreases |q| - k
      {
        ShiftSlot(start, q, k, i, diff);
        var rec := i;
        i := i + 1;
        if i >= data.Length {
          i := 0;
        }
        k := k + 1;
        if data[rec] < 0 {
          rd := i;
          m := k;
        }
      }
      AfterLastNegativeAt(shifted, m);
      UpdatedContents(start, q, shifted, m);
    }
  }
}
