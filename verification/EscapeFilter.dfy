/** uart_data_callback() of FluidNC/esp32/fnc_uart.cpp: the two-byte pin events are taken out of the
    received bytes in place, with the first half of a split event kept from one call to the next. */
module EscapeFilter {
  import opened Bytes

  const PINNUM_MAX := 64
  const PIN_INACTIVE: Byte := 0xc4
  const PIN_ACTIVE: Byte := 0xc5

  datatype PinEvent = PinEvent(active: bool, pin: nat)

  // What a stretch of input gives: the bytes kept, the events sent, and the carried-over byte.
  datatype Output = Output(bytes: seq<Byte>, events: seq<PinEvent>, last: Byte)

  function FilterByte(enabled: bool, last: Byte, c: Byte): Output {
    if last != 0 then Output([], [PinEvent(last != PIN_INACTIVE, c % PINNUM_MAX)], 0)
    else if enabled && (c == PIN_INACTIVE || c == PIN_ACTIVE) then Output([], [], c)
    else Output([c], [], 0)
  }

  // The filter as a transducer over the whole input.
  function Filter(enabled: bool, last: Byte, input: seq<Byte>): (r: Output)
    ensures |r.bytes| <= |input|
    decreases |input|
  {
    if input == [] then Output([], [], last)
    else
      var n := |input| - 1;
      var a := Filter(enabled, last, input[..n]);
      var b := FilterByte(enabled, a.last, input[n]);
      Output(a.bytes + b.bytes, a.events + b.events, b.last)
  }

  function Then(a: Output, b: Output): Output {
    Output(a.bytes + b.bytes, a.events + b.events, b.last)
  }

  lemma FilterNone(enabled: bool, last: Byte)
    ensures Filter(enabled, last, []) == Output([], [], last)
  {
  }

  lemma FilterNext(enabled: bool, last: Byte, input: seq<Byte>, i: nat)
    requires i < |input|
    ensures var a := Filter(enabled, last, input[..i]);
            Filter(enabled, last, input[..i + 1]) == Then(a, FilterByte(enabled, a.last, input[i]))
  {
    assert input[..i + 1][..i] == input[..i];
  }

  /** Where the input is cut into two calls makes no difference. */
  lemma {:induction false} FilterSplit(enabled: bool, last: Byte, a: seq<Byte>, b: seq<Byte>)
    ensures Filter(enabled, last, a + b) == Then(Filter(enabled, last, a), Filter(enabled, Filter(enabled, last, a).last, b))
    decreases |b|
  {
    hide FilterByte;
    var fa := Filter(enabled, last, a);
    if b == [] {
      assert a + b == a;
    } else {
      var n := |b| - 1;
      assert (a + b)[..|a + b| - 1] == a + b[..n];
      FilterSplit(enabled, last, a, b[..n]);
      var fb := Filter(enabled, fa.last, b[..n]);
      var x := FilterByte(enabled, fb.last, b[n]);
      assert fa.bytes + fb.bytes + x.bytes == fa.bytes + (fb.bytes + x.bytes);
      assert fa.events + fb.events + x.events == fa.events + (fb.events + x.events);
    }
  }

  function Joined(chunks: seq<seq<Byte>>): seq<Byte> {
    if chunks == [] then [] else chunks[0] + Joined(chunks[1..])
  }

  // One call per chunk, the carried-over byte handed on.
  function FilterChunks(enabled: bool, last: Byte, chunks: seq<seq<Byte>>): Output
    decreases |chunks|
  {
    if chunks == [] then Output([], [], last)
    else
      var a := Filter(enabled, last, chunks[0]);
      Then(a, FilterChunks(enabled, a.last, chunks[1..]))
  }

  /** Any division of the input into calls gives the same bytes, the same events in the same order and
      the same carried-over byte. */
  lemma {:induction false} ChunksDoNotMatter(enabled: bool, last: Byte, chunks: seq<seq<Byte>>)
    ensures FilterChunks(enabled, last, chunks) == Filter(enabled, last, Joined(chunks))
    decreases |chunks|
  {
    if chunks != [] {
      ChunksDoNotMatter(enabled, Filter(enabled, last, chunks[0]).last, chunks[1..]);
      FilterSplit(enabled, last, chunks[0], Joined(chunks[1..]));
    }
  }

  // ---- What a sender puts on the line -----------------------------------------------------------------

  datatype Item = Data(byte: Byte) | Pin(active: bool, code: Byte)

  function Encode(items: seq<Item>): seq<Byte> {
    if items == [] then []
    else
      var i := items[|items| - 1];
      Encode(items[..|items| - 1]) +
      if i.Data? then [i.byte] else [if i.active then PIN_ACTIVE else PIN_INACTIVE, i.code]
  }

  function DataOf(items: seq<Item>): seq<Byte> {
    if items == [] then []
    else
      var i := items[|items| - 1];
      DataOf(items[..|items| - 1]) + if i.Data? then [i.byte] else []
  }

  function EventsOf(items: seq<Item>): seq<PinEvent> {
    if items == [] then []
    else
      var i := items[|items| - 1];
      EventsOf(items[..|items| - 1]) + if i.Data? then [] else [PinEvent(i.active, i.code % PINNUM_MAX)]
  }

  predicate Plain(i: Item) {
    i.Data? ==> i.byte != PIN_INACTIVE && i.byte != PIN_ACTIVE
  }

  /** Filtering undoes encoding: data bytes other than the two escapes come through unchanged, pin
      events come out as events whatever their second byte is, and nothing is carried over. */
  lemma {:induction false} FilterDecodes(items: seq<Item>)
    requires forall i :: i in items ==> Plain(i)
    ensures Filter(true, 0, Encode(items)) == Output(DataOf(items), EventsOf(items), 0)
    decreases |items|
  {
    if items != [] {
      var n := |items| - 1;
      FilterDecodes(items[..n]);
      var e := Encode(items[..n]);
      assert Plain(items[n]);
      if items[n].Data? {
        assert (e + [items[n].byte])[..|e|] == e;
      } else {
        var c: Byte := if items[n].active then PIN_ACTIVE else PIN_INACTIVE;
        var two := e + [c, items[n].code];
        assert two[..|e| + 1] == e + [c];
        assert (e + [c])[..|e|] == e;
      }
    }
  }

  // The bytes of the protocol: 0xc5 and 0xc4 announce that the pin in the low six bits of the next byte
  // went active or inactive.
  lemma EscapeBytes(code: Byte, b: Byte)
    requires b != 0xc4 && b != 0xc5
    ensures Filter(true, 0, [0xc5, code, b, 0xc4, code]) == Output([b], [PinEvent(true, code % 64), PinEvent(false, code % 64)], 0)
    ensures Filter(true, 0, [b, 0xc4]) == Output([b], [], 0xc4)
  {
    var items := [Pin(true, code), Data(b), Pin(false, code)];
    assert items[..2] == [Pin(true, code), Data(b)] && items[..2][..1] == [Pin(true, code)] && items[..2][..1][..0] == [];
    FilterDecodes(items);
    EncodeThree(code, b);
    assert [b, 0xc4][..1] == [b] && [b][..0] == [];
    FilterNone(true, 0);
    assert Filter(true, 0, [b]) == Output([b], [], 0);
  }

  lemma EncodeThree(code: Byte, b: Byte)
    ensures var items := [Pin(true, code), Data(b), Pin(false, code)];
            && Encode(items) == [0xc5, code, b, 0xc4, code] && DataOf(items) == [b]
            && EventsOf(items) == [PinEvent(true, code % 64), PinEvent(false, code % 64)]
  {
    var one := [Pin(true, code)];
    var two := one + [Data(b)];
    var items := [Pin(true, code), Data(b), Pin(false, code)];
    assert one[..0] == [] && two[..1] == one && items[..2] == two;
    assert Encode(one) == [0xc5, code] && DataOf(one) == [] && EventsOf(one) == [PinEvent(true, code % 64)];
    assert Encode(two) == [0xc5, code, b] && DataOf(two) == [b] && EventsOf(two) == [PinEvent(true, code % 64)];
  }

  /** Without a registered input pin the filter is the identity. */
  lemma {:induction false} DisabledKeepsAll(input: seq<Byte>)
    ensures Filter(false, 0, input) == Output(input, [], 0)
    decreases |input|
  {
    if input != [] {
      DisabledKeepsAll(input[..|input| - 1]);
      assert input[..|input| - 1] + [input[|input| - 1]] == input;
    }
  }

  class Port {
    var eventsEnabled: bool
    var last: Byte
    var events: seq<PinEvent>  // sent so far

    constructor ()
      ensures !eventsEnabled && last == 0 && events == []
    {
      eventsEnabled, last, events := false, 0, [];
    }

    method RegisterInputPin()
      modifies this
      ensures eventsEnabled && last == 0 && events == old(events)
    {
      eventsEnabled, last := true, 0;
    }

    /** Compacts buf[..len] in place; the write index is never ahead of the read index. */
    method DataCallback(buf: array<Byte>, len: nat) returns (out: nat)
      requires len <= buf.Length
      modifies this, buf
      ensures out <= len && eventsEnabled == old(eventsEnabled)
      ensures var f := Filter(eventsEnabled, old(last), old(buf[..len]));
              buf[..out] == f.bytes && events == old(events) + f.events && last == f.last
      ensures buf[len..] == old(buf[len..])
    {
      hide Filter;
      out := 0;
      var i := 0;
      ghost var input := buf[..len];
      FilterNone(eventsEnabled, last);
      assert events == old(events) + [];
      while i < len
        invariant 0 <= out <= i <= len && eventsEnabled == old(eventsEnabled)
        invariant buf[i..] == old(buf[i..])
        invariant buf[..out] == Filter(eventsEnabled, old(last), input[..i]).bytes
        invariant events == old(events) + Filter(eventsEnabled, old(last), input[..i]).events
        invariant last == Filter(eventsEnabled, old(last), input[..i]).last
      {
        var c := buf[i];
        assert c == old(buf[i..])[0] == input[i];
        FilterNext(eventsEnabled, old(last), input, i);
        ghost var kept := buf[..out];
        if out != i {
          buf[out] := c;
        }
        assert buf[..out] == kept && buf[out] == c;
        assert buf[..out + 1] == kept + [c];
        if last != 0 {
          events := events + [PinEvent(last != PIN_INACTIVE, c % PINNUM_MAX)];
          last := 0;
        } else if eventsEnabled && (c == PIN_INACTIVE || c == PIN_ACTIVE) {
          last := c;
        } else {
          out := out + 1;
        }
        i := i + 1;
        assert buf[i..] == old(buf[i - 1..])[1..] == old(buf[i..]);
      }
      assert input[..len] == input;
    }
  }
}
