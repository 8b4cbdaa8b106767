/** The Modbus RTU check of FluidNC/capture/HuanyangSimulator.cpp: the CRC loops, the frames made with
    them, and which changes to a frame the check sees. */
module Modbus {

  // The operations on the register, under names that proofs can keep closed.
  function Xor(a: bv16, b: bv16): bv16 { a ^ b }
  function Half(a: bv16): bv16 { a >> 1 }
  predicate Flag(a: bv16) { a & 1 != 0 }

  // One turn of the inner loop.
  function BitStep(crc: bv16): bv16 {
    if Flag(crc) then Xor(Half(crc), 0xA001) else Half(crc)
  }

  function BitSteps(crc: bv16, n: nat): bv16
    decreases n
  {
    if n == 0 then crc else BitSteps(BitStep(crc), n - 1)
  }

  function ByteStep(crc: bv16, byte: bv8): bv16 {
    BitSteps(Xor(crc, byte as bv16), 8)
  }

  function Run(crc: bv16, data: seq<bv8>): bv16
    decreases |data|
  {
    if data == [] then crc else Run(ByteStep(crc, data[0]), data[1..])
  }

  function Crc(data: seq<bv8>): bv16 {
    Run(0xFFFF, data)
  }

  // The check value as it stands at the end of a message, low byte first.
  function Stored(lo: bv8, hi: bv8): bv16 {
    (lo as bv16) | ((hi as bv16) << 8)
  }

  predicate ValidMessage(m: seq<bv8>) {
    |m| >= 4 && Crc(m[..|m| - 2]) == Stored(m[|m| - 2], m[|m| - 1])
  }

  // ---- The program -------------------------------------------------------------------------------------

  method CalculateModbusCRC(data: seq<bv8>) returns (crc: bv16)
    ensures crc == Crc(data)
  {
    hide BitStep;
    crc := 0xFFFF;
    var pos := 0;
    while pos < |data|
      invariant pos <= |data| && Run(crc, data[pos..]) == Crc(data)
    {
      assert data[pos..][1..] == data[pos + 1..];
      ghost var before := crc;
      crc := crc ^ (data[pos] as bv16);
      var i := 8;
      while i != 0
        invariant 0 <= i <= 8 && BitSteps(crc, i) == ByteStep(before, data[pos])
        decreases i
      {
        crc := TurnOnce(crc);
        i := i - 1;
      }
      pos := pos + 1;
    }
  }

  method TurnOnce(crc: bv16) returns (r: bv16)
    ensures r == BitStep(crc)
  {
    r := crc;
    if r & 0x0001 != 0 {
      r := r >> 1;
      r := r ^ 0xA001;
    } else {
      r := r >> 1;
    }
  }

  method ValidateModbusMessage(message: seq<bv8>) returns (ok: bool)
    ensures ok == ValidMessage(message)
  {
    if |message| < 4 {
      return false;
    }
    var calculated := CalculateModbusCRC(message[..|message| - 2]);
    var stored := (message[|message| - 2] as bv16) | ((message[|message| - 1] as bv16) << 8);
    return calculated == stored;
  }

  /** A response is the address, the function and the data, with a check that validates. */
  method CreateModbusResponse(addr: bv8, func: bv8, data: seq<bv8>) returns (response: seq<bv8>)
    ensures |response| == |data| + 4 && response[..|data| + 2] == [addr, func] + data
    ensures ValidMessage(response)
  {
    response := [addr];
    response := response + [func];
    response := response + data;
    ghost var body := response;
    var crc := CalculateModbusCRC(response);
    response := response + [(crc & 0xFF) as bv8];
    response := response + [((crc >> 8) & 0xFF) as bv8];
    StoredIsCrc(crc);
    assert response[..|data| + 2] == body == [addr, func] + data;
  }

  // The error reply sets the function's top bit.
  method CreateModbusError(addr: bv8, func: bv8, errorCode: bv8) returns (response: seq<bv8>)
    ensures |response| == 5 && response[..3] == [addr, func | 0x80, errorCode] && ValidMessage(response)
  {
    response := CreateModbusResponse(addr, func | 0x80, [errorCode]);
  }

  lemma StoredIsCrc(crc: bv16)
    ensures Stored((crc & 0xFF) as bv8, ((crc >> 8) & 0xFF) as bv8) == crc
  {
  }

  // ---- Bit by bit --------------------------------------------------------------------------------------

  function Lsb(bit: bool): bv16 { if bit then 1 else 0 }

  function BitFeed(crc: bv16, bit: bool): bv16 {
    BitStep(Xor(crc, Lsb(bit)))
  }

  function RunBits(crc: bv16, bits: seq<bool>): bv16
    decreases |bits|
  {
    if bits == [] then crc else RunBits(BitFeed(crc, bits[0]), bits[1..])
  }

  // The n lowest bits of v, lowest first, and that there are no others.
  function LowBits(v: bv16, n: nat): (r: seq<bool>)
    ensures |r| == n
    decreases n
  {
    if n == 0 then [] else [Flag(v)] + LowBits(Half(v), n - 1)
  }

  predicate Within(v: bv16, n: nat)
    decreases n
  {
    if n == 0 then v == 0 else Within(Half(v), n - 1)
  }

  // The bits of a byte in the order they are sent.
  function BitsOf(b: bv8): (r: seq<bool>)
    ensures |r| == 8
  {
    LowBits(b as bv16, 8)
  }

  function Bits(data: seq<bv8>): (r: seq<bool>)
    ensures |r| == 8 * |data|
    decreases |data|
  {
    if data == [] then [] else BitsOf(data[0]) + Bits(data[1..])
  }

  lemma {:induction false} RunBitsAppend(crc: bv16, a: seq<bool>, b: seq<bool>)
    ensures RunBits(crc, a + b) == RunBits(RunBits(crc, a), b)
    decreases |a|
  {
    hide BitFeed;
    if a == [] {
      assert a + b == b;
    } else {
      assert (a + b)[1..] == a[1..] + b;
      RunBitsAppend(BitFeed(crc, a[0]), a[1..], b);
    }
  }

  // ---- Facts about the operations ----------------------------------------------------------------------

  lemma XorSwap(a: bv16, b: bv16, p: bv16)
    ensures Xor(Xor(a, p), b) == Xor(Xor(a, b), p)
  {
  }

  lemma XorAssoc(a: bv16, b: bv16, p: bv16)
    ensures Xor(a, Xor(b, p)) == Xor(Xor(a, b), p)
  {
  }

  lemma XorUnit(a: bv16)
    ensures Xor(a, 0) == a && Xor(a, a) == 0
  {
  }

  lemma XorCancel(a: bv16, b: bv16, p: bv16)
    ensures Xor(Xor(a, p), Xor(b, p)) == Xor(a, b)
  {
    hide Xor;
    XorAssoc(Xor(a, p), b, p);
    XorSwap(a, b, p);
    XorAssoc(Xor(a, b), p, p);
    XorUnit(p);
    XorUnit(Xor(a, b));
  }

  lemma XorZero(a: bv16, b: bv16)
    ensures Xor(a, b) == 0 <==> a == b
  {
  }

  lemma HalfXor(a: bv16, b: bv16)
    ensures Half(Xor(a, b)) == Xor(Half(a), Half(b)) && Flag(Xor(a, b)) == (Flag(a) != Flag(b))
  {
    BitXor(a, b);
  }

  lemma BitXor(a: bv16, b: bv16)
    ensures (a ^ b) & 1 == (a & 1) ^ (b & 1) && (a & 1 == 0 || a & 1 == 1) && (b & 1 == 0 || b & 1 == 1)
  {
  }

  lemma LsbFacts(x: bool, y: bool)
    ensures Xor(Lsb(x), Lsb(y)) == Lsb(x != y) && Half(Lsb(x)) == 0 && Flag(Lsb(x)) == x
  {
  }

  // The step is linear.
  lemma BitStepXor(a: bv16, b: bv16)
    ensures BitStep(Xor(a, b)) == Xor(BitStep(a), BitStep(b))
  {
    hide Xor, Half, Flag;
    HalfXor(a, b);
    XorCancel(Half(a), Half(b), 0xA001);
    XorSwap(Half(a), Half(b), 0xA001);
    XorAssoc(Half(a), Half(b), 0xA001);
  }

  lemma FeedXor(a: bv16, b: bv16, x: bool, y: bool)
    ensures Xor(BitFeed(a, x), BitFeed(b, y)) == BitFeed(Xor(a, b), x != y)
  {
    hide Xor, BitStep, Lsb;
    BitStepXor(Xor(a, Lsb(x)), Xor(b, Lsb(y)));
    LsbFacts(x, y);
    XorAssoc(Xor(a, Lsb(x)), b, Lsb(y));
    XorSwap(a, b, Lsb(x));
    XorAssoc(Xor(a, b), Lsb(x), Lsb(y));
  }

  // Feeding the lowest bit first and the others after the step is the same as XORing them all first.
  lemma Peel(crc: bv16, v: bv16)
    ensures BitStep(Xor(crc, v)) == Xor(BitFeed(crc, Flag(v)), Half(v))
  {
    hide Xor, BitStep, Half, Flag, Lsb;
    var low := Lsb(Flag(v));
    XorCancel(crc, v, low);
    BitStepXor(Xor(crc, low), Xor(v, low));
    DropLow(v);
  }

  lemma DropLow(v: bv16)
    ensures BitStep(Xor(v, Lsb(Flag(v)))) == Half(v)
  {
    hide Xor, Half, Flag, Lsb;
    HalfXor(v, Lsb(Flag(v)));
    LsbFacts(Flag(v), false);
    XorUnit(Half(v));
  }

  // ---- Bytes as bits -----------------------------------------------------------------------------------

  lemma {:induction false} StepsAreFeeds(crc: bv16, v: bv16, n: nat)
    requires Within(v, n)
    ensures BitSteps(Xor(crc, v), n) == RunBits(crc, LowBits(v, n))
    decreases n
  {
    hide BitStep, BitFeed, Xor, Half, Flag;
    if n == 0 {
      XorUnit(crc);
    } else {
      Peel(crc, v);
      StepsAreFeeds(BitFeed(crc, Flag(v)), Half(v), n - 1);
      assert LowBits(v, n)[1..] == LowBits(Half(v), n - 1);
    }
  }

  lemma ByteHalves(b: bv8)
    ensures var v := b as bv16; Half(Half(Half(Half(Half(Half(Half(Half(v)))))))) == 0
  {
  }

  lemma ByteWithin(b: bv8)
    ensures Within(b as bv16, 8)
  {
    var v := b as bv16;
    ByteHalves(b);
    hide Half;
    assert Within(Half(Half(Half(Half(v)))), 4);
    assert Within(Half(Half(v)), 6);
  }

  lemma RunNothing(crc: bv16)
    ensures RunBits(crc, []) == crc
  {
  }

  /** The byte loop is the shift register fed with the bits in the order they are sent. */
  lemma {:induction false} RunIsRunBits(crc: bv16, data: seq<bv8>)
    ensures Run(crc, data) == RunBits(crc, Bits(data))
    decreases |data|
  {
    hide BitFeed, BitSteps, LowBits, RunBits, Within, Xor;
    if data == [] {
      RunNothing(crc);
    } else {
      ByteWithin(data[0]);
      StepsAreFeeds(crc, data[0] as bv16, 8);
      RunIsRunBits(ByteStep(crc, data[0]), data[1..]);
      RunBitsAppend(crc, BitsOf(data[0]), Bits(data[1..]));
    }
  }

  // ---- The residue -------------------------------------------------------------------------------------

  function Or(a: bv16, b: bv16): bv16 { a | b }
  function Double(a: bv16): bv16 { a << 1 }
  function Push(bit: bool, w: bv16): bv16 { Or(Lsb(bit), Double(w)) }
  predicate Room(w: bv16) { w < 0x8000 }

  // The value whose bits these are, lowest first.
  function Word(bits: seq<bool>): bv16
    decreases |bits|
  {
    if bits == [] then 0 else Push(bits[0], Word(bits[1..]))
  }

  lemma {:induction false} WithinMore(v: bv16, n: nat, m: nat)
    requires Within(v, n) && n <= m
    ensures Within(v, m)
    decreases m
  {
    if n > 0 {
      WithinMore(Half(v), n - 1, m - 1);
    } else if m > 0 {
      WithinMore(0, 0, m - 1);
    }
  }

  lemma WithinRoom(v: bv16)
    requires Within(v, 15)
    ensures Room(v)
  {
    var h5 := Half(Half(Half(Half(Half(v)))));
    var h10 := Half(Half(Half(Half(Half(h5)))));
    assert Within(h5, 10) by { hide Half; }
    assert Within(h10, 5) by { hide Half; }
    assert Half(Half(Half(Half(Half(h10))))) == 0 by { hide Half; }
  }

  lemma PushHalf(w: bv16, bit: bool)
    requires Room(w)
    ensures Half(Push(bit, w)) == w
  {
    if bit {
    } else {
    }
  }

  lemma PushZero(w: bv16, bit: bool)
    requires Room(w)
    ensures Push(bit, w) == 0 <==> !bit && w == 0
  {
    if bit {
      assert (1 | (w << 1)) & 1 == 1;
    } else {
    }
  }

  lemma {:induction false} WordWithin(bits: seq<bool>)
    requires |bits| <= 16
    ensures Within(Word(bits), |bits|)
    decreases |bits|, 0
  {
    hide Push, Half;
    if bits != [] {
      WordRoom(bits[1..]);
      PushHalf(Word(bits[1..]), bits[0]);
      WordWithin(bits[1..]);
    }
  }

  lemma WordRoom(bits: seq<bool>)
    requires |bits| <= 15
    ensures Room(Word(bits))
    decreases |bits|, 1
  {
    hide Room, Half, Word;
    WordWithin(bits);
    WithinMore(Word(bits), |bits|, 15);
    WithinRoom(Word(bits));
  }

  lemma OddStep(x: bv16)
    ensures (x >> 1) ^ 0xA001 >= 0x8000
  {
  }

  lemma EvenStep(x: bv16, w: bv16)
    requires x & 1 == 0 && w < 0x8000
    ensures x >> 1 == w <==> x == w << 1
  {
  }

  lemma DoubleIsEven(w: bv16)
    ensures (w << 1) & 1 == 0
  {
  }

  lemma OrIsXor(w: bv16)
    ensures Or(1, Double(w)) == Xor(Double(w), 1)
  {
  }

  lemma OrZero(w: bv16)
    ensures Or(0, w) == w && Or(w, 0) == w
  {
  }

  lemma PushXor(x: bv16, bit: bool, w: bv16)
    ensures Xor(x, Lsb(bit)) == Double(w) <==> x == Push(bit, w)
  {
    OrIsXor(w);
    OrZero(Double(w));
    hide Xor, Or, Double;
    XorAssoc(x, Lsb(bit), Lsb(bit));
    XorAssoc(Double(w), Lsb(bit), Lsb(bit));
    XorUnit(Lsb(bit));
    XorUnit(x);
    XorUnit(Double(w));
  }

  lemma StepBack(x: bv16, w: bv16)
    requires Room(w)
    ensures BitStep(x) == w <==> x == Double(w)
  {
    DoubleIsEven(w);
    if Flag(x) {
      OddStep(x);
    } else {
      EvenStep(x, w);
    }
  }

  lemma FeedBack(x: bv16, bit: bool, w: bv16)
    requires Room(w)
    ensures BitFeed(x, bit) == w <==> x == Push(bit, w)
  {
    hide BitStep, Xor, Push, Room, Lsb;
    StepBack(Xor(x, Lsb(bit)), w);
    PushXor(x, bit, w);
  }

  /** Up to sixteen bits bring the register to zero if and only if it holds just these bits. */
  lemma {:induction false} ZeroAfter(crc: bv16, bits: seq<bool>)
    requires |bits| <= 16
    ensures RunBits(crc, bits) == 0 <==> crc == Word(bits)
    decreases |bits|
  {
    hide BitFeed, Push, Room;
    if bits != [] {
      ZeroAfter(BitFeed(crc, bits[0]), bits[1..]);
      WordRoom(bits[1..]);
      FeedBack(crc, bits[0], Word(bits[1..]));
    }
  }

  lemma {:induction false} WordZero(bits: seq<bool>)
    requires |bits| <= 16
    ensures Word(bits) == 0 <==> true !in bits
    decreases |bits|
  {
    hide Push, Room;
    if bits != [] {
      WordZero(bits[1..]);
      WordRoom(bits[1..]);
      PushZero(Word(bits[1..]), bits[0]);
    }
  }

  function Up(w: bv16, n: nat): bv16
    decreases n
  {
    if n == 0 then w else Double(Up(w, n - 1))
  }

  lemma OrDouble(a: bv16, b: bv16)
    ensures Double(Or(a, b)) == Or(Double(a), Double(b))
  {
  }

  lemma OrAssoc(a: bv16, b: bv16, c: bv16)
    ensures Or(a, Or(b, c)) == Or(Or(a, b), c)
  {
  }

  lemma Rebuild(v: bv16)
    ensures Push(Flag(v), Half(v)) == v
  {
  }

  lemma PushOr(v: bv16, u: bv16)
    ensures Push(Flag(v), Or(Half(v), u)) == Or(v, Double(u))
  {
    hide Or, Double, Half, Flag, Lsb;
    OrDouble(Half(v), u);
    OrAssoc(Lsb(Flag(v)), Double(Half(v)), Double(u));
    Rebuild(v);
  }

  // Bits in front of other bits.
  lemma {:induction false} WordOfLow(v: bv16, n: nat, rest: seq<bool>)
    requires Within(v, n)
    ensures Word(LowBits(v, n) + rest) == Or(v, Up(Word(rest), n))
    decreases n
  {
    hide Push, Half, Flag, Or, Double;
    if n == 0 {
      assert LowBits(v, n) + rest == rest;
      OrZero(Word(rest));
    } else {
      WordOfLow(Half(v), n - 1, rest);
      assert (LowBits(v, n) + rest)[1..] == LowBits(Half(v), n - 1) + rest;
      PushOr(v, Up(Word(rest), n - 1));
    }
  }

  lemma DoubleFour(w: bv16)
    ensures Double(Double(Double(Double(w)))) == w << 4 && (w << 4) << 4 == w << 8
  {
  }

  lemma UpEight(w: bv16)
    ensures Up(w, 8) == w << 8
  {
    DoubleFour(w);
    DoubleFour(w << 4);
    hide Double;
    assert Up(w, 4) == w << 4;
  }

  lemma WordOfByte(b: bv8, rest: seq<bool>)
    ensures Word(BitsOf(b) + rest) == Or(b as bv16, Word(rest) << 8)
  {
    hide Word, LowBits, Or;
    ByteWithin(b);
    WordOfLow(b as bv16, 8, rest);
    UpEight(Word(rest));
    hide Up, Within;
  }

  lemma StoredOr(lo: bv8, hi: bv8)
    ensures Or(lo as bv16, Or(hi as bv16, 0 << 8) << 8) == Stored(lo, hi)
  {
  }

  lemma StoredWord(lo: bv8, hi: bv8)
    ensures Word(BitsOf(lo) + (BitsOf(hi) + [])) == Stored(lo, hi)
  {
    hide BitsOf;
    WordOfByte(lo, BitsOf(hi) + []);
    WordOfByte(hi, []);
    WordNone();
    StoredOr(lo, hi);
    hide Word, Or, Stored;
  }

  lemma {:induction false} BitsAppend(a: seq<bv8>, b: seq<bv8>)
    ensures Bits(a + b) == Bits(a) + Bits(b)
    decreases |a|
  {
    if a == [] {
      assert a + b == b;
    } else {
      assert (a + b)[1..] == a[1..] + b;
      BitsAppend(a[1..], b);
    }
  }

  lemma CheckBits(lo: bv8, hi: bv8)
    ensures Bits([lo, hi]) == BitsOf(lo) + (BitsOf(hi) + [])
  {
    hide BitsOf;
    assert [lo, hi][1..] == [hi] && [hi][1..] == [];
    assert Bits([hi]) == BitsOf(hi) + [];
  }

  /** A message is valid if and only if the register ends at zero after all of it, check included. */
  lemma ValidIsZero(m: seq<bv8>)
    ensures ValidMessage(m) <==> |m| >= 4 && RunBits(0xFFFF, Bits(m)) == 0
  {
    hide Run, RunBits, Stored, Word, Bits, BitsOf;
    if |m| >= 4 {
      var body, lo, hi := m[..|m| - 2], m[|m| - 2], m[|m| - 1];
      assert m == body + [lo, hi];
      RunIsRunBits(0xFFFF, body);
      BitsAppend(body, [lo, hi]);
      RunBitsAppend(0xFFFF, Bits(body), Bits([lo, hi]));
      CheckBits(lo, hi);
      StoredWord(lo, hi);
      ZeroAfter(Crc(body), Bits([lo, hi]));
    }
  }

  // ---- Changed frames ----------------------------------------------------------------------------------

  function XorBits(a: seq<bool>, b: seq<bool>): (r: seq<bool>)
    requires |a| == |b|
    ensures |r| == |a| && forall i :: 0 <= i < |a| ==> r[i] == (a[i] != b[i])
    decreases |a|
  {
    if a == [] then [] else [a[0] != b[0]] + XorBits(a[1..], b[1..])
  }

  /** The register is linear: two runs differ by the run over the difference. */
  lemma {:induction false} RunXor(a: bv16, b: bv16, x: seq<bool>, y: seq<bool>)
    requires |x| == |y|
    ensures Xor(RunBits(a, x), RunBits(b, y)) == RunBits(Xor(a, b), XorBits(x, y))
    decreases |x|
  {
    hide BitFeed, Xor;
    if x != [] {
      FeedXor(a, b, x[0], y[0]);
      RunXor(BitFeed(a, x[0]), BitFeed(b, y[0]), x[1..], y[1..]);
      assert XorBits(x, y)[1..] == XorBits(x[1..], y[1..]);
    }
  }

  /** Exactly which changes pass: a change of a valid frame that keeps its length is accepted if and only
      if the bits changed, run from zero, bring the register back to zero. */
  lemma AcceptedChanges(m: seq<bv8>, m': seq<bv8>)
    requires ValidMessage(m) && |m'| == |m|
    ensures ValidMessage(m') <==> RunBits(0, XorBits(Bits(m), Bits(m'))) == 0
  {
    ValidIsZero(m);
    ValidIsZero(m');
    RunXor(0xFFFF, 0xFFFF, Bits(m), Bits(m'));
    XorUnit(0xFFFF);
    XorZero(RunBits(0xFFFF, Bits(m)), RunBits(0xFFFF, Bits(m')));
    hide Xor;
  }

  lemma {:induction false} ZerosKeep(crc: bv16, bits: seq<bool>)
    requires true !in bits
    ensures RunBits(crc, bits) == 0 <==> crc == 0
    decreases |bits|
  {
    hide BitFeed;
    if bits != [] {
      ZerosKeep(BitFeed(crc, bits[0]), bits[1..]);
      FeedBack(crc, false, 0);
    }
  }

  lemma {:induction false} XorAppend(a: seq<bool>, b: seq<bool>, c: seq<bool>, d: seq<bool>)
    requires |a| == |c| && |b| == |d|
    ensures XorBits(a + b, c + d) == XorBits(a, c) + XorBits(b, d)
    decreases |a|
  {
  }

  /** Any change within sixteen consecutive bits, anywhere in a valid frame, is rejected. */
  lemma BurstRejected(m: seq<bv8>, m': seq<bv8>, p: seq<bool>, w: seq<bool>, w': seq<bool>, q: seq<bool>)
    requires ValidMessage(m) && |m'| == |m| && |w| == |w'| <= 16 && w != w'
    requires Bits(m) == p + w + q && Bits(m') == p + w' + q
    ensures !ValidMessage(m')
  {
    AcceptedChanges(m, m');
    var e := XorBits(w, w');
    var zp, zq := XorBits(p, p), XorBits(q, q);
    XorAppend(p + w, q, p + w', q);
    XorAppend(p, w, p, w');
    RunBitsAppend(0, zp + e, zq);
    RunBitsAppend(0, zp, e);
    ZerosKeep(0, zp);
    ZeroAfter(0, e);
    WordZero(e);
    assert true in e by {
      var i :| 0 <= i < |w| && w[i] != w'[i];
      assert e[i];
    }
    ZerosKeep(RunBits(0, e), zq);
  }

  lemma BitsOfByte(a: bv8, b: bv8)
    ensures BitsOf(a) == BitsOf(b) <==> a == b
  {
    hide Word, BitsOf, Or;
    WordOfByte(a, []);
    WordOfByte(b, []);
    WordNone();
    SameByte(a, b);
  }

  lemma WordNone()
    ensures Word([]) == 0
  {
  }

  lemma SameByte(a: bv8, b: bv8)
    ensures Or(a as bv16, 0 << 8) == Or(b as bv16, 0 << 8) <==> a == b
  {
  }

  /** Changing one byte, or two that follow each other, payload or check, makes a valid frame invalid. */
  lemma TwoBytesRejected(m: seq<bv8>, i: nat, x: bv8, y: bv8)
    requires ValidMessage(m) && i + 1 < |m| && (x != m[i] || y != m[i + 1])
    ensures !ValidMessage(m[i := x][i + 1 := y])
  {
    hide ValidMessage, BitsOf, Bits;
    var m' := m[i := x][i + 1 := y];
    var p, q := m[..i], m[i + 2..];
    assert m == p + [m[i], m[i + 1]] + q && m' == p + [x, y] + q;
    BitsOfPair(p, m[i], m[i + 1], q);
    BitsOfPair(p, x, y, q);
    BitsOfByte(x, m[i]);
    BitsOfByte(y, m[i + 1]);
    var w, w' := BitsOf(m[i]) + BitsOf(m[i + 1]), BitsOf(x) + BitsOf(y);
    assert w[..8] == BitsOf(m[i]) && w[8..] == BitsOf(m[i + 1]) && w'[..8] == BitsOf(x) && w'[8..] == BitsOf(y);
    BurstRejected(m, m', Bits(p), w, w', Bits(q));
  }

  lemma BitsOfPair(p: seq<bv8>, a: bv8, b: bv8, q: seq<bv8>)
    ensures Bits(p + [a, b] + q) == Bits(p) + (BitsOf(a) + BitsOf(b)) + Bits(q)
  {
    hide BitsOf;
    BitsAppend(p + [a, b], q);
    BitsAppend(p, [a, b]);
    CheckBits(a, b);
    assert BitsOf(b) + [] == BitsOf(b);
  }

  // ---- Parity ------------------------------------------------------------------------------------------

  // Whether an odd number of the n lowest bits is set.
  predicate ParityOf(x: bv16, n: nat)
    decreases n
  {
    n > 0 && Flag(x) != ParityOf(Half(x), n - 1)
  }

  predicate Parity(x: bv16) {
    ParityOf(x, 16)
  }

  // Whether an odd number of them is set.
  predicate Odd(bits: seq<bool>)
    decreases |bits|
  {
    bits != [] && bits[0] != Odd(bits[1..])
  }

  lemma {:induction false} ParityXor(a: bv16, b: bv16, n: nat)
    ensures ParityOf(Xor(a, b), n) == (ParityOf(a, n) != ParityOf(b, n))
    decreases n
  {
    hide Xor, Flag, Half;
    if n > 0 {
      HalfXor(a, b);
      ParityXor(Half(a), Half(b), n - 1);
    }
  }

  lemma EightHalves(x: bv16)
    ensures Half(Half(Half(Half(Half(Half(Half(Half(x)))))))) == x >> 8
  {
  }

  lemma AllWithin(x: bv16)
    ensures Within(x, 16)
  {
    var h4 := Half(Half(Half(Half(x))));
    var h8 := Half(Half(Half(Half(h4))));
    var h12 := Half(Half(Half(Half(h8))));
    EightHalves(x);
    EightHalves(x >> 8);
    assert (x >> 8) >> 8 == 0;
    hide Half;
    assert Within(h12, 4);
    assert Within(h8, 8);
    assert Within(h4, 12);
  }

  lemma {:induction false} ParityZero(n: nat)
    ensures !ParityOf(0, n)
    decreases n
  {
    if n > 0 {
      assert Half(0) == 0 && !Flag(0);
      ParityZero(n - 1);
    }
  }

  lemma {:induction false} ParityMore(x: bv16, n: nat)
    requires Within(x, n)
    ensures ParityOf(x, n + 1) == ParityOf(x, n)
    decreases n
  {
    if n == 0 {
      ParityZero(1);
    } else {
      ParityMore(Half(x), n - 1);
    }
  }

  lemma ParityHalf(x: bv16)
    ensures Parity(Half(x)) == (Parity(x) != Flag(x))
  {
    AllWithin(x);
    ParityMore(Half(x), 15);
  }

  lemma ParityLsb(bit: bool)
    ensures Parity(Lsb(bit)) == bit
  {
    LsbFacts(bit, bit);
    ParityZero(15);
    hide Half, Flag, Lsb;
  }

  // The polynomial has an odd number of bits.
  lemma ParityPoly()
    ensures Parity(0xA001)
  {
    assert Half(0xA001) == 0x5000 && Half(0x5000) == 0x2800 && Half(0x2800) == 0x1400 && Half(0x1400) == 0x0A00;
    assert Half(0x0A00) == 0x0500 && Half(0x0500) == 0x0280 && Half(0x0280) == 0x0140 && Half(0x0140) == 0x00A0;
    assert Half(0x00A0) == 0x0050 && Half(0x0050) == 0x0028 && Half(0x0028) == 0x0014 && Half(0x0014) == 0x000A;
    assert Half(0x000A) == 5 && Half(5) == 2 && Half(2) == 1;
    assert !ParityOf(5, 3);
    assert !ParityOf(0x000A, 4);
    assert !ParityOf(0x00A0, 8);
    assert !ParityOf(0x0A00, 12);
  }

  lemma StepParity(x: bv16)
    ensures Parity(BitStep(x)) == Parity(x)
  {
    hide ParityOf, Xor, Half, Flag;
    ParityHalf(x);
    if Flag(x) {
      ParityXor(Half(x), 0xA001, 16);
      ParityPoly();
    }
  }

  lemma FeedParity(crc: bv16, bit: bool)
    ensures Parity(BitFeed(crc, bit)) == (Parity(crc) != bit)
  {
    hide ParityOf, Xor, BitStep, Lsb;
    StepParity(Xor(crc, Lsb(bit)));
    ParityXor(crc, Lsb(bit), 16);
    ParityLsb(bit);
  }

  lemma {:induction false} RunParity(crc: bv16, bits: seq<bool>)
    ensures Parity(RunBits(crc, bits)) == (Parity(crc) != Odd(bits))
    decreases |bits|
  {
    hide BitFeed, Parity;
    if bits != [] {
      FeedParity(crc, bits[0]);
      RunParity(BitFeed(crc, bits[0]), bits[1..]);
    }
  }

  /** A change of an odd number of bits, wherever they are, is rejected. */
  lemma OddChangeRejected(m: seq<bv8>, m': seq<bv8>)
    requires ValidMessage(m) && |m'| == |m| && Odd(XorBits(Bits(m), Bits(m')))
    ensures !ValidMessage(m')
  {
    AcceptedChanges(m, m');
    RunParity(0, XorBits(Bits(m), Bits(m')));
    ParityZero(16);
    hide ParityOf;
  }

  // ---- A known frame -----------------------------------------------------------------------------------

  // The register over a request to read ten registers from address 0 of device 1.
  lemma KnownBytes()
    ensures ByteStep(0xFFFF, 1) == 0x807E && ByteStep(0x807E, 3) == 0x2140 && ByteStep(0x2140, 0) == 0xF020
    ensures ByteStep(0xF020, 0) == 0xD8F1 && ByteStep(0xD8F1, 0) == 0x8419 && ByteStep(0x8419, 10) == 0xCDC5
  {
  }

  /** Its check is CDC5, sent with the low byte first. */
  lemma KnownFrame()
    ensures Crc([1, 3, 0, 0, 0, 10]) == 0xCDC5
    ensures ValidMessage([1, 3, 0, 0, 0, 10, 0xC5, 0xCD]) && !ValidMessage([1, 3, 0, 0, 0, 10, 0xCD, 0xC5])
  {
    KnownBytes();
    hide ByteStep;
    var f: seq<bv8> := [1, 3, 0, 0, 0, 10];
    assert f[1..] == [3, 0, 0, 0, 10] && f[1..][1..] == [0, 0, 0, 10] && [0, 0, 0, 10][1..] == [0, 0, 10];
    assert [0, 0, 10][1..] == [0, 10] && [0, 10][1..] == [10];
    assert [1, 3, 0, 0, 0, 10, 0xC5, 0xCD][..6] == f == [1, 3, 0, 0, 0, 10, 0xCD, 0xC5][..6];
  }
}
