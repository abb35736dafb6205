/** The decoder of the asynchronous `P...` interrupt lines of the Zebra position
    compare: `PR` (acquisition reset), `PX` (acquisition end) and data lines
    `P<TTTTTTTT><field>...`, whose 8-digit fields are present for the capture
    bits set in PC_BIT_CAP, and the handler that dispatches them to its three
    observer lists. */
module Interrupts {
  import opened Results
  import opened Numbers

  /** Capture bits 0..9: encoders 1-4, system bus words 1-2, dividers 1-4. */
  const FieldCount := 10

  /** One capture: the timestamp and, for capture bit `b`, `fields[b]` (None when
      the bit is not captured). `fields[0..4]` are `encoder1..4`, `fields[4..6]`
      `sysbus1..2` and `fields[6..10]` `div1..4`. */
  datatype PositionCompareData = PositionCompareData(timestamp: nat, fields: seq<Option<int>>)

  /** What a line is, by the patterns `^PR$`, `^PX$` and `^P([0-9A-F]{8})(.*)$`. */
  datatype Kind =
    | NotInterrupt
    | ResetLine
    | EndLine
    | DataLine(timestamp: nat, data: string)
    | Malformed

  /** Classifies a received line. A `$` also matches before one final line feed,
      and `.` never matches a line feed. */
  function Classify(message: string): (k: Kind)
    ensures k == NotInterrupt <==> message == [] || message[0] != 'P'
    ensures k == ResetLine <==> message == "PR" || message == "PR\n"
    ensures k == EndLine <==> message == "PX" || message == "PX\n"
    ensures k.DataLine? <==>
      && message != [] && message[0] == 'P' && |Chomp(message)| >= 9
      && AllUpperHex(Chomp(message)[1..9]) && '\n' !in Chomp(message)[9..]
    ensures k.DataLine? ==>
      && k.timestamp == HexValue(Chomp(message)[1..9]) && k.timestamp < Word
      && k.data == Chomp(message)[9..]
  {
    if message == [] || message[0] != 'P' then NotInterrupt
    else
      var c := Chomp(message);
      if c == "PR" then ResetLine
      else if c == "PX" then EndLine
      else if |c| >= 9 && AllUpperHex(c[1..9]) && '\n' !in c[9..] then
        assert Pow16(8) == Word;
        DataLine(HexValue(c[1..9]), c[9..])
      else Malformed
  }

  /** `bin(bit_cap).count("1") * 8`: every set bit counts, including those above
      bit 9. */
  function ExpectedLength(bitCap: int): nat {
    8 * Popcount(bitCap)
  }

  /** Offset of the field of capture bit `b`: 8 characters per set bit below it. */
  function FieldOffset(bitCap: int, b: nat): nat {
    8 * SetBitsBelow(bitCap, b)
  }

  /** `data_str[offset : offset + 8]` for capture bit `b`. */
  function FieldText(bitCap: int, data: string, b: nat): string {
    Slice(data, FieldOffset(bitCap, b), 8)
  }

  /** Encoder fields (bits 0-3) read as 32-bit two's complement; the others stay
      unsigned. */
  function Interpret(b: nat, u: nat): int {
    if b < 4 && u >= 0x8000_0000 then u - Word else u
  }

  /** The fields of capture bits `0..n-1`, or None when a captured field is not
      a hex number. */
  function DecodeUpTo(bitCap: int, data: string, n: nat): (r: Option<seq<Option<int>>>)
    ensures r.Some? ==> |r.value| == n
  {
    if n == 0 then Some([])
    else
      match DecodeUpTo(bitCap, data, n - 1)
      case None => None
      case Some(fs) =>
        if BitSet(bitCap, n - 1) then
          match ParseInt(FieldText(bitCap, data, n - 1))
          case None => None
          case Some(u) => Some(fs + [Some(Interpret(n - 1, u))])
        else Some(fs + [None])
  }

  /** `_parse_data_fields`: the length check, then the fields in bit order. */
  function DecodeFields(bitCap: int, data: string, timestamp: nat): (r: Result<PositionCompareData>)
    requires PlainText(data)
    ensures |data| != ExpectedLength(bitCap) <==> r == Err(DataLengthMismatch(ExpectedLength(bitCap), |data|))
    ensures r.Ok? ==> r.value.timestamp == timestamp && |r.value.fields| == FieldCount
    ensures r.Err? ==> r.error.DataLengthMismatch? || r.error == InvalidHexField
  {
    if |data| != ExpectedLength(bitCap) then Err(DataLengthMismatch(ExpectedLength(bitCap), |data|))
    else
      match DecodeUpTo(bitCap, data, FieldCount)
      case None => Err(InvalidHexField)
      case Some(fs) => Ok(PositionCompareData(timestamp, fs))
  }

  /** Lines whose data fields `int(_, 16)` decides by their hex digits alone. */
  predicate DataPlain(message: string) {
    Classify(message).DataLine? ==> PlainText(Classify(message).data)
  }

  // ---------------------------------------------------------------------------
  // Observers

  /** A registered observer, by identity. */
  datatype Callback = Callback(id: nat)

  datatype Event = ResetEvent | DataEvent(point: PositionCompareData) | EndEvent

  /** One awaited callback: which observer, with what, and whether it raised (an
      exception that the dispatcher logs and swallows). */
  datatype Call = Call(callback: Callback, event: Event, raised: bool)

  /** The calls a dispatch loop makes: every observer of the list, in
      registration order, whether or not earlier ones raised. `fails` says which
      observers raise. */
  function Invocations(callbacks: seq<Callback>, event: Event, fails: Callback -> bool): (cs: seq<Call>)
    ensures |cs| == |callbacks|
  {
    if callbacks == [] then []
    else
      var last := callbacks[|callbacks| - 1];
      Invocations(callbacks[..|callbacks| - 1], event, fails) + [Call(last, event, fails(last))]
  }

  /** The handler's configuration: the capture mask and the three observer lists. */
  datatype Handlers = Handlers(bitCap: int, onReset: seq<Callback>, onData: seq<Callback>, onEnd: seq<Callback>)

  /** `handle_message`: whether the line was an interrupt (or the ValueError it
      raises), and the callbacks it awaits. */
  function Handle(h: Handlers, message: string, fails: Callback -> bool): (r: (Result<bool>, seq<Call>))
    requires DataPlain(message)
    ensures r.0.Err? || r.0 == Ok(false) ==> r.1 == []
    ensures r.0 == Ok(false) <==> message == [] || message[0] != 'P'
  {
    match Classify(message)
    case NotInterrupt => (Ok(false), [])
    case ResetLine => (Ok(true), Invocations(h.onReset, ResetEvent, fails))
    case EndLine => (Ok(true), Invocations(h.onEnd, EndEvent, fails))
    case Malformed => (Err(InvalidInterruptFormat), [])
    case DataLine(timestamp, data) =>
      match DecodeFields(h.bitCap, data, timestamp)
      case Err(e) => (Err(e), [])
      case Ok(point) => (Ok(true), Invocations(h.onData, DataEvent(point), fails))
  }

  // ---------------------------------------------------------------------------
  // The handler object

  class InterruptHandler {
    var bitCap: int
    var resetCallbacks: seq<Callback>
    var dataCallbacks: seq<Callback>
    var endCallbacks: seq<Callback>
    /** Every callback awaited so far, in order. */
    var calls: seq<Call>

    function Config(): Handlers
      reads this
    {
      Handlers(bitCap, resetCallbacks, dataCallbacks, endCallbacks)
    }

    constructor(bitCap: int)
      ensures Config() == Handlers(bitCap, [], [], []) && calls == []
    {
      this.bitCap := bitCap;
      resetCallbacks, dataCallbacks, endCallbacks := [], [], [];
      calls := [];
    }

    /** `set_bit_cap` changes the capture mask and nothing else. */
    method SetBitCap(bitCap: int)
      modifies this
      ensures Config() == old(Config()).(bitCap := bitCap) && calls == old(calls)
    {
      this.bitCap := bitCap;
    }

    /** `clear_callbacks` empties the three lists. */
    method ClearCallbacks()
      modifies this
      ensures Config() == Handlers(old(bitCap), [], [], []) && calls == old(calls)
    {
      resetCallbacks, dataCallbacks, endCallbacks := [], [], [];
    }

    /** `on_reset` appends to the reset list only and hands the callback back. */
    method OnReset(callback: Callback) returns (r: Callback)
      modifies this
      ensures r == callback && calls == old(calls)
      ensures Config() == old(Config()).(onReset := old(resetCallbacks) + [callback])
    {
      resetCallbacks := resetCallbacks + [callback];
      r := callback;
    }

    /** `on_data` appends to the data list only and hands the callback back. */
    method OnData(callback: Callback) returns (r: Callback)
      modifies this
      ensures r == callback && calls == old(calls)
      ensures Config() == old(Config()).(onData := old(dataCallbacks) + [callback])
    {
      dataCallbacks := dataCallbacks + [callback];
      r := callback;
    }

    /** `on_end` appends to the end list only and hands the callback back. */
    method OnEnd(callback: Callback) returns (r: Callback)
      modifies this
      ensures r == callback && calls == old(calls)
      ensures Config() == old(Config()).(onEnd := old(endCallbacks) + [callback])
    {
      endCallbacks := endCallbacks + [callback];
      r := callback;
    }

    /** The loop shared by `_dispatch_reset`, `_dispatch_data` and `_dispatch_end`:
        await each observer in turn; one that raises is logged and the loop goes on. */
    method Dispatch(callbacks: seq<Callback>, event: Event, fails: Callback -> bool)
      modifies this
      ensures Config() == old(Config())
      ensures calls == old(calls) + Invocations(callbacks, event, fails)
    {
      for i := 0 to |callbacks|
        invariant Config() == old(Config())
        invariant calls == old(calls) + Invocations(callbacks[..i], event, fails)
      {
        assert callbacks[..i + 1][..i] == callbacks[..i];
        var raised := fails(callbacks[i]);
        calls := calls + [Call(callbacks[i], event, raised)];
      }
      assert callbacks[..|callbacks|] == callbacks;
    }

    /** `_parse_data_fields`: check the length against the capture mask, then walk
        the capture bits 0..9, taking 8 characters at an advancing offset for each
        set bit. */
    method ParseDataFields(timestamp: nat, data: string) returns (r: Result<PositionCompareData>)
      requires PlainText(data)
      ensures r == DecodeFields(bitCap, data, timestamp)
    {
      var expected := 8 * Popcount(bitCap);
      if |data| != expected {
        return Err(DataLengthMismatch(expected, |data|));
      }
      var fields: seq<Option<int>> := [];
      var offset := 0;
      for bit := 0 to FieldCount
        invariant offset == FieldOffset(bitCap, bit)
        invariant DecodeUpTo(bitCap, data, bit) == Some(fields)
      {
        if BitSet(bitCap, bit) {
          var text := Slice(data, offset, 8);
          offset := offset + 8;
          var unsigned := ParseInt(text);
          if unsigned.None? {
            DecodeUpToFails(bitCap, data, bit + 1, FieldCount);
            return Err(InvalidHexField);
          }
          var value := if bit < 4 && unsigned.value >= 0x8000_0000 then unsigned.value - Word else unsigned.value;
          assert text == FieldText(bitCap, data, bit) && value == Interpret(bit, unsigned.value);
          fields := fields + [Some(value)];
        } else {
          fields := fields + [None];
        }
      }
      return Ok(PositionCompareData(timestamp, fields));
    }

    /** `handle_message`. */
    method HandleMessage(message: string, fails: Callback -> bool) returns (r: Result<bool>)
      requires DataPlain(message)
      modifies this
      ensures Config() == old(Config())
      ensures r == Handle(old(Config()), message, fails).0
      ensures calls == old(calls) + Handle(old(Config()), message, fails).1
    {
      if message == [] || message[0] != 'P' {
        return Ok(false);
      }
      var c := Chomp(message);
      if c == "PR" {
        Dispatch(resetCallbacks, ResetEvent, fails);
        return Ok(true);
      }
      if c == "PX" {
        Dispatch(endCallbacks, EndEvent, fails);
        return Ok(true);
      }
      if !(|c| >= 9 && AllUpperHex(c[1..9]) && '\n' !in c[9..]) {
        return Err(InvalidInterruptFormat);
      }
      var timestamp := HexValue(c[1..9]);
      var point := ParseDataFields(timestamp, c[9..]);
      if point.Err? {
        return Err(point.error);
      }
      Dispatch(dataCallbacks, DataEvent(point.value), fails);
      return Ok(true);
    }
  }

  // ---------------------------------------------------------------------------
  // Properties

  /** Once a captured field fails to parse, decoding more bits fails too. */
  lemma {:induction false} DecodeUpToFails(bitCap: int, data: string, n: nat, m: nat)
    requires n <= m && DecodeUpTo(bitCap, data, n) == None
    ensures DecodeUpTo(bitCap, data, m) == None
    decreases m
  {
    if n < m {
      DecodeUpToFails(bitCap, data, n, m - 1);
    }
  }

  /** The decoded fields of bits below `n` lay out exactly as the mask says: a
      field is present iff its bit is set, and then it is its 8-character slice
      read as hex and interpreted for its bit. */
  lemma {:induction false} DecodeUpToFields(bitCap: int, data: string, n: nat)
    requires DecodeUpTo(bitCap, data, n).Some?
    ensures var fs := DecodeUpTo(bitCap, data, n).value;
      forall b :: 0 <= b < n ==>
        && (fs[b].Some? <==> BitSet(bitCap, b))
        && (fs[b].Some? ==>
              && ParseInt(FieldText(bitCap, data, b)).Some?
              && fs[b].value == Interpret(b, ParseInt(FieldText(bitCap, data, b)).value))
  {
    if n > 0 {
      DecodeUpToFields(bitCap, data, n - 1);
    }
  }

  /** Conversely, when every captured field below `n` is a hex number, decoding
      succeeds. */
  lemma {:induction false} DecodeUpToSucceeds(bitCap: int, data: string, n: nat)
    requires forall b :: 0 <= b < n && BitSet(bitCap, b) ==> ParseInt(FieldText(bitCap, data, b)).Some?
    ensures DecodeUpTo(bitCap, data, n).Some?
  {
    if n > 0 {
      DecodeUpToSucceeds(bitCap, data, n - 1);
    }
  }

  /** A data line of the right length decodes iff each captured field is a hex
      number; the decoded point has the line's timestamp and each field as laid
      out by the mask. */
  lemma DecodeFieldsLayout(bitCap: int, data: string, timestamp: nat)
    requires PlainText(data) && |data| == ExpectedLength(bitCap)
    ensures DecodeFields(bitCap, data, timestamp).Ok? <==>
      forall b :: 0 <= b < FieldCount && BitSet(bitCap, b) ==> ParseInt(FieldText(bitCap, data, b)).Some?
    ensures DecodeFields(bitCap, data, timestamp).Ok? ==>
      var fs := DecodeFields(bitCap, data, timestamp).value.fields;
      forall b :: 0 <= b < FieldCount ==>
        && (fs[b].Some? <==> BitSet(bitCap, b))
        && (fs[b].Some? ==> fs[b].value == Interpret(b, ParseInt(FieldText(bitCap, data, b)).value))
  {
    if forall b :: 0 <= b < FieldCount && BitSet(bitCap, b) ==> ParseInt(FieldText(bitCap, data, b)).Some? {
      DecodeUpToSucceeds(bitCap, data, FieldCount);
    }
    if DecodeUpTo(bitCap, data, FieldCount).Some? {
      DecodeUpToFields(bitCap, data, FieldCount);
    }
  }

  /** Encoder fields are signed 32-bit values and the other fields unsigned 32-bit
      values. */
  lemma DecodedRanges(bitCap: int, data: string, timestamp: nat)
    requires PlainText(data) && DecodeFields(bitCap, data, timestamp).Ok?
    ensures var fs := DecodeFields(bitCap, data, timestamp).value.fields;
      forall b :: 0 <= b < FieldCount && fs[b].Some? ==>
        if b < 4 then -0x8000_0000 <= fs[b].value < 0x8000_0000 else 0 <= fs[b].value < Word
  {
    DecodeUpToFields(bitCap, data, FieldCount);
    var fs := DecodeFields(bitCap, data, timestamp).value.fields;
    forall b | 0 <= b < FieldCount && fs[b].Some?
      ensures if b < 4 then -0x8000_0000 <= fs[b].value < 0x8000_0000 else 0 <= fs[b].value < Word
    {
      var text := FieldText(bitCap, data, b);
      Pow16Monotone(|text|, 8);
      assert Pow16(8) == Word;
    }
  }

  /** Fields of set bits sit at strictly increasing, non-overlapping offsets. */
  lemma {:induction false} FieldOffsetsIncrease(bitCap: int, b: nat, c: nat)
    requires b < c && BitSet(bitCap, b)
    ensures FieldOffset(bitCap, b) + 8 <= FieldOffset(bitCap, c)
    decreases c
  {
    if b + 1 < c {
      FieldOffsetsIncrease(bitCap, b, c - 1);
    }
  }

  /** For a mask below 1024 the captured fields tile the data exactly: the
      expected length is where the field after bit 9 would start. */
  lemma FieldsTile(bitCap: int)
    requires 0 <= bitCap < 1024
    ensures ExpectedLength(bitCap) == FieldOffset(bitCap, FieldCount)
  {
    assert Pow2(10) == 1024;
    PopcountBelow(bitCap, 10);
  }

  /** A dispatch calls exactly the observers of the list, in registration order,
      each with the event, and reports for each whether it raised. */
  lemma {:induction false} InvocationsInOrder(callbacks: seq<Callback>, event: Event, fails: Callback -> bool)
    ensures forall i :: 0 <= i < |callbacks| ==>
      Invocations(callbacks, event, fails)[i] == Call(callbacks[i], event, fails(callbacks[i]))
  {
    if callbacks != [] {
      InvocationsInOrder(callbacks[..|callbacks| - 1], event, fails);
    }
  }

  /** A line that is not an interrupt returns False and calls nobody. */
  lemma HandleNotInterrupt(h: Handlers, message: string, fails: Callback -> bool)
    requires message == [] || message[0] != 'P'
    ensures Handle(h, message, fails) == (Ok(false), [])
  {
  }

  /** `PR` calls exactly the reset observers and `PX` exactly the end observers. */
  lemma HandleResetEnd(h: Handlers, fails: Callback -> bool)
    ensures Handle(h, "PR", fails) == Handle(h, "PR\n", fails) == (Ok(true), Invocations(h.onReset, ResetEvent, fails))
    ensures Handle(h, "PX", fails) == Handle(h, "PX\n", fails) == (Ok(true), Invocations(h.onEnd, EndEvent, fails))
  {
    assert Classify("PR") == ResetLine && Classify("PR\n") == ResetLine;
    assert Classify("PX") == EndLine && Classify("PX\n") == EndLine;
  }

  /** A `P` line that is neither `PR`, `PX` nor `P` + 8 upper-case hex digits + a
      rest without line feeds raises ValueError before any callback. */
  lemma HandleMalformed(h: Handlers, message: string, fails: Callback -> bool)
    requires message != [] && message[0] == 'P'
    requires var c := Chomp(message);
      c != "PR" && c != "PX" && !(|c| >= 9 && AllUpperHex(c[1..9]) && '\n' !in c[9..])
    ensures Handle(h, message, fails) == (Err(InvalidInterruptFormat), [])
  {
  }

  /** A data line whose rest is not 8 characters per set mask bit raises
      ValueError before any data callback runs. */
  lemma HandleLengthMismatch(h: Handlers, message: string, fails: Callback -> bool)
    requires DataPlain(message) && Classify(message).DataLine?
    requires |Classify(message).data| != ExpectedLength(h.bitCap)
    ensures Handle(h, message, fails) ==
      (Err(DataLengthMismatch(ExpectedLength(h.bitCap), |Classify(message).data|)), [])
  {
  }
}
