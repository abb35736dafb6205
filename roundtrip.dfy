/** The cross-component round trip: a capture frame built by the simulator's
    generation loop is classified as a data line by the interrupt decoder,
    decodes with the same capture mask to the values that went into it, and is
    delivered to every data observer. */
module RoundTrip {
  import opened Results
  import opened Numbers
  import opened Simulator
  import opened Interrupts

  /** Every value fits in 32 bits, so `f"{v:08X}"` prints exactly 8 digits. */
  predicate Fits(values: seq<nat>) {
    forall i :: 0 <= i < |values| ==> values[i] < Word
  }

  /** What the decoder should recover for capture bit `b`. */
  function Expected(bitCap: int, values: seq<nat>, b: nat): Option<int>
    requires b < |values|
  {
    if BitSet(bitCap, b) then Some(Interpret(b, values[b])) else None
  }

  // ---------------------------------------------------------------------------
  // The layout of the fields

  /** The fields for the bits below `n` are upper-case hex, 8 characters per set
      bit. */
  lemma {:induction false} FieldsTextShape(bitCap: int, values: seq<nat>, n: nat)
    requires n <= |values| && Fits(values)
    ensures |FieldsText(bitCap, values, n)| == FieldOffset(bitCap, n)
    ensures AllUpperHex(FieldsText(bitCap, values, n))
  {
    if n > 0 {
      FieldsTextShape(bitCap, values, n - 1);
      assert Pow16(8) == Word;
      FixedUpperHex(values[n - 1], 8);
    }
  }

  /** The fields for the bits below `m` begin the fields for the bits below `n`. */
  lemma {:induction false} FieldsTextPrefix(bitCap: int, values: seq<nat>, m: nat, n: nat)
    requires m <= n <= |values|
    ensures |FieldsText(bitCap, values, m)| <= |FieldsText(bitCap, values, n)|
    ensures FieldsText(bitCap, values, n)[..|FieldsText(bitCap, values, m)|] == FieldsText(bitCap, values, m)
    decreases n
  {
    if m < n {
      FieldsTextPrefix(bitCap, values, m, n - 1);
      var short, prefix := FieldsText(bitCap, values, m), FieldsText(bitCap, values, n - 1);
      assert FieldsText(bitCap, values, n)[..|prefix|] == prefix;
      assert FieldsText(bitCap, values, n)[..|short|] == prefix[..|short|];
    }
  }

  /** The field of set bit `b` is its value in 8 digits at the decoder's offset
      for `b`. */
  lemma FieldAt(bitCap: int, values: seq<nat>, b: nat, n: nat)
    requires b < n <= |values| && Fits(values) && BitSet(bitCap, b)
    ensures FieldOffset(bitCap, b) + 8 <= |FieldsText(bitCap, values, n)|
    ensures FieldsText(bitCap, values, n)[FieldOffset(bitCap, b)..FieldOffset(bitCap, b) + 8] == Fixed(values[b], 8)
  {
    FieldsTextShape(bitCap, values, b);
    FieldsTextShape(bitCap, values, b + 1);
    FieldsTextPrefix(bitCap, values, b + 1, n);
    var upTo := FieldsText(bitCap, values, b + 1);
    assert Pow16(8) == Word;
    assert upTo == FieldsText(bitCap, values, b) + Fixed(values[b], 8);
    assert upTo[FieldOffset(bitCap, b)..] == Fixed(values[b], 8);
  }

  /** Together: the fields tile their text in bit order. */
  lemma FieldsTextLayout(bitCap: int, values: seq<nat>, n: nat)
    requires n <= |values| && Fits(values)
    ensures var text := FieldsText(bitCap, values, n);
      && |text| == FieldOffset(bitCap, n)
      && AllUpperHex(text)
      && forall b :: 0 <= b < n && BitSet(bitCap, b) ==>
           FieldOffset(bitCap, b) + 8 <= |text| &&
           text[FieldOffset(bitCap, b)..FieldOffset(bitCap, b) + 8] == Fixed(values[b], 8)
  {
    FieldsTextShape(bitCap, values, n);
    forall b | 0 <= b < n && BitSet(bitCap, b)
      ensures FieldOffset(bitCap, b) + 8 <= |FieldsText(bitCap, values, n)|
      ensures FieldsText(bitCap, values, n)[FieldOffset(bitCap, b)..FieldOffset(bitCap, b) + 8] == Fixed(values[b], 8)
    {
      FieldAt(bitCap, values, b, n);
    }
  }

  // ---------------------------------------------------------------------------
  // Frame, then decoder

  /** A frame with a 32-bit timestamp is a data line carrying that timestamp and
      the fields. */
  lemma FrameClassifies(timestamp: nat, bitCap: int, values: seq<nat>)
    requires timestamp < Word && |values| == 10 && Fits(values)
    ensures Classify(Frame(timestamp, bitCap, values)) == DataLine(timestamp, FieldsText(bitCap, values, 10))
  {
    var fields := FieldsText(bitCap, values, 10);
    var frame := Frame(timestamp, bitCap, values);
    FieldsTextLayout(bitCap, values, 10);
    assert Pow16(8) == Word;
    HexValueFixed(timestamp, 8);
    var stamp := Fixed(timestamp, 8);
    assert frame == "P" + stamp + fields;
    assert frame[|frame| - 1] == if fields == [] then stamp[7] else fields[|fields| - 1];
    assert Chomp(frame) == frame;
    assert frame[1..9] == stamp && frame[9..] == fields;
  }

  /** With a mask below 1024 the fields decode, with the same mask, to the values
      that went in: the value of each set bit, interpreted for its bit, and
      nothing for the others. */
  lemma FieldsDecode(timestamp: nat, bitCap: int, values: seq<nat>)
    requires 0 <= bitCap < 1024 && |values| == 10 && Fits(values)
    ensures PlainText(FieldsText(bitCap, values, 10))
    ensures var r := DecodeFields(bitCap, FieldsText(bitCap, values, 10), timestamp);
      && r.Ok? && r.value.timestamp == timestamp
      && forall b :: 0 <= b < 10 ==> r.value.fields[b] == Expected(bitCap, values, b)
  {
    var data := FieldsText(bitCap, values, 10);
    FieldsTextLayout(bitCap, values, 10);
    UpperHexPlain(data);
    FieldsTile(bitCap);
    assert Pow16(8) == Word;
    forall b | 0 <= b < FieldCount && BitSet(bitCap, b)
      ensures ParseInt(FieldText(bitCap, data, b)) == Some(values[b])
    {
      var text := FieldText(bitCap, data, b);
      assert text == Fixed(values[b], 8);
      HexValueFixed(values[b], 8);
      UpperHexPlain(text);
      ParseIntHex(text);
    }
    DecodeFieldsLayout(bitCap, data, timestamp);
  }

  /** The handler configured with the simulator's mask hands a simulator frame to
      every data observer, in order, with the decoded point, and to no other. */
  lemma FrameDelivered(h: Handlers, timestamp: nat, values: seq<nat>, fails: Callback -> bool)
    requires 0 <= h.bitCap < 1024 && timestamp < Word && |values| == 10 && Fits(values)
    ensures DataPlain(Frame(timestamp, h.bitCap, values))
    ensures var (r, calls) := Handle(h, Frame(timestamp, h.bitCap, values), fails);
      && r == Ok(true)
      && |calls| == |h.onData|
      && forall i :: 0 <= i < |calls| ==>
           && calls[i].callback == h.onData[i]
           && calls[i].event.DataEvent?
           && calls[i].event.point.timestamp == timestamp
           && |calls[i].event.point.fields| == 10
           && forall b :: 0 <= b < 10 ==> calls[i].event.point.fields[b] == Expected(h.bitCap, values, b)
  {
    FrameClassifies(timestamp, h.bitCap, values);
    FieldsDecode(timestamp, h.bitCap, values);
    var point := DecodeFields(h.bitCap, FieldsText(h.bitCap, values, 10), timestamp).value;
    InvocationsInOrder(h.onData, DataEvent(point), fails);
  }

  /** One pass of the generation loop, armed and with a send callback, sends a
      frame stamped `counter * 50 mod 2^32` whose fields decode to the sampled
      values. */
  lemma GeneratedFrameDecodes(s: SimState, noise: seq<int>, bus: seq<nat>)
    requires s.armed && s.hasSendCallback && 0 <= BitCap(s) < 1024
    requires |noise| == 4 && |bus| == 2 && forall i :: 0 <= i < 2 ==> bus[i] < Word
    ensures PlainText(FieldsText(BitCap(s), Samples(s.counter, noise, bus), 10))
    ensures var sent := Generate(s, noise, bus).0;
      var values := Samples(s.counter, noise, bus);
      && sent.Some?
      && Classify(sent.value) == DataLine(Timestamp(s.counter), FieldsText(BitCap(s), values, 10))
      && var r := DecodeFields(BitCap(s), FieldsText(BitCap(s), values, 10), Timestamp(s.counter));
         && r.Ok? && r.value.timestamp == Timestamp(s.counter)
         && forall b :: 0 <= b < 10 ==> r.value.fields[b] == Expected(BitCap(s), values, b)
  {
    var values := Samples(s.counter, noise, bus);
    FrameClassifies(Timestamp(s.counter), BitCap(s), values);
    FieldsDecode(Timestamp(s.counter), BitCap(s), values);
  }

  // ---------------------------------------------------------------------------
  // Masks with bits above 9

  /** `x >> b`. */
  function Shift(x: nat, b: nat): nat {
    if b == 0 then x else Shift(x / 2, b - 1)
  }

  /** The population count is the set bits below `b` plus those of `x >> b`. */
  lemma {:induction false} PopcountSplit(x: nat, b: nat)
    ensures Popcount(x) == SetBitsBelow(x, b) + Popcount(Shift(x, b))
  {
    if b > 0 {
      PopcountSplit(x / 2, b - 1);
      SetBitsBelowShift(x, b - 1);
    }
  }

  /** A value of at least `2^b` keeps a bit after shifting right by `b`. */
  lemma {:induction false} ShiftPositive(x: nat, b: nat)
    requires x >= Pow2(b)
    ensures Shift(x, b) > 0
  {
    if b > 0 {
      ShiftPositive(x / 2, b - 1);
    }
  }

  /** A positive number has a set bit. */
  lemma {:induction false} PopcountPositive(x: nat)
    requires x > 0
    ensures Popcount(x) > 0
    decreases x
  {
    if x % 2 == 0 {
      PopcountPositive(x / 2);
    }
  }

  /** The simulator only emits fields for bits 0..9 while the decoder counts every
      set bit, so a mask with a bit above 9 makes every simulator frame fail the
      length check. */
  lemma HighMaskBitsMismatch(bitCap: nat, values: seq<nat>, timestamp: nat)
    requires bitCap >= 1024 && |values| == 10 && Fits(values)
    ensures PlainText(FieldsText(bitCap, values, 10))
    ensures var data := FieldsText(bitCap, values, 10);
      DecodeFields(bitCap, data, timestamp) == Err(DataLengthMismatch(ExpectedLength(bitCap), |data|))
      && |data| < ExpectedLength(bitCap)
  {
    FieldsTextLayout(bitCap, values, 10);
    UpperHexPlain(FieldsText(bitCap, values, 10));
    assert Pow2(10) == 1024;
    PopcountSplit(bitCap, 10);
    ShiftPositive(bitCap, 10);
    PopcountPositive(Shift(bitCap, 10));
  }

  // ---------------------------------------------------------------------------
  // The unmasked timestamp

  /** As written, frame number 85899346 is stamped `counter * 50 = 0x100000004`,
      printed in nine digits: with an empty mask the decoder reads the timestamp
      0x10000000 and a one-character rest, and rejects the frame, which the
      masked timestamp would have let through. */
  lemma TimestampOverflowAsWritten(noise: seq<int>, bus: seq<nat>)
    requires |noise| == 4 && |bus| == 2
    ensures Format(85899346 * 50, 8) == "100000004"
    ensures Classify(FrameAsWritten(85899346, 0, noise, bus)) == DataLine(0x1000_0000, "4")
    ensures DecodeFields(0, "4", 0x1000_0000) == Err(DataLengthMismatch(0, 1))
    ensures Timestamp(85899346) == 4
  {
    NineDigitStamp();
    OverflowFrame(noise, bus);
    assert Classify("P100000004") == DataLine(0x1000_0000, "4") by {
      assert Pow16(8) == Word;
      HexValueFixed(0x1000_0000, 8);
      assert "P100000004" == "P" + "10000000" + "4";
      StampedClassifies("10000000", "4");
    }
    ShortRestRejected();
  }

  /** As written, frame number 85899346 with an empty mask is `P100000004`. */
  lemma OverflowFrame(noise: seq<int>, bus: seq<nat>)
    requires |noise| == 4 && |bus| == 2
    ensures FrameAsWritten(85899346, 0, noise, bus) == "P100000004"
  {
    var vs := SamplesAsWritten(85899346, noise, bus);
    EmptyMaskFrame(85899346 * 50, vs);
    NineDigitStamp();
    assert "P" + "100000004" == "P100000004";
  }

  /** With an empty mask a frame is `P` and its timestamp. */
  lemma EmptyMaskFrame(timestamp: nat, values: seq<nat>)
    requires |values| == 10
    ensures Frame(timestamp, 0, values) == "P" + Format(timestamp, 8)
  {
    EmptyMaskFields(values, 10);
  }

  /** With an empty mask a one-character rest is a length mismatch. */
  lemma ShortRestRejected()
    ensures DecodeFields(0, "4", 0x1000_0000) == Err(DataLengthMismatch(0, 1))
  {
    assert Popcount(0) == 0;
  }

  /** `f"{0x100000004:08X}"` has nine digits, the first eight being
      `f"{0x10000000:08X}"`, a one and seven zeros. */
  lemma NineDigitStamp()
    ensures 85899346 * 50 == 0x1_0000_0004
    ensures Fixed(0x1000_0000, 8) == "10000000"
    ensures Format(0x1_0000_0004, 8) == "100000004"
  {
    var v := 0x1_0000_0004;
    assert Pow16(8) == Word;
    assert Digits(v) == 9 by {
      assert Digits(v) == 1 + Digits(0x1000_0000);
      assert Pow16(7) == 0x1000_0000;
    }
    assert Fixed(0x1, 1) == "1";
    assert Fixed(0x10, 2) == "10";
    assert Fixed(0x100, 3) == "100";
    assert Fixed(0x1000, 4) == "1000";
    assert Fixed(0x1_0000, 5) == "10000";
    assert Fixed(0x10_0000, 6) == "100000";
    assert Fixed(0x100_0000, 7) == "1000000";
    assert Fixed(v, 9) == Fixed(0x1000_0000, 8) + "4";
  }

  /** `P`, eight upper-case hex digits and a rest without line feeds is a data
      line carrying the digits' value and the rest. */
  lemma StampedClassifies(stamp: string, rest: string)
    requires |stamp| == 8 && AllUpperHex(stamp) && AllUpperHex(rest)
    ensures Classify("P" + stamp + rest) == DataLine(HexValue(stamp), rest)
  {
    var line := "P" + stamp + rest;
    assert line[|line| - 1] == if rest == [] then stamp[7] else rest[|rest| - 1];
    assert Chomp(line) == line;
    assert line[1..9] == stamp && line[9..] == rest;
  }

  /** With an empty mask there are no fields. */
  lemma {:induction false} EmptyMaskFields(values: seq<nat>, n: nat)
    requires n <= |values|
    ensures FieldsText(0, values, n) == []
  {
    if n > 0 {
      EmptyMaskFields(values, n - 1);
    }
  }
}
