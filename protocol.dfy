/** The Zebra register protocol over a transport: request frames `R<AA>`,
    `W<AA><VVVV>`, `S` and `L`; replies `R<AA><VVVV>`, `W<AA>OK`, `SOK`/`LOK`,
    and the error replies `E0` / `E1[RW]<AA>`; 32-bit values held in LO/HI
    register pairs. */
module Protocol {
  import opened Results
  import opened Numbers
  import opened Simulator
  import opened Transport

  // ---------------------------------------------------------------------------
  // Frames and reply grammars

  /** `f"R{address:02X}"`. */
  function ReadFrame(address: nat): string {
    "R" + Format(address, 2)
  }

  /** `f"W{address:02X}{value:04X}"`. */
  function WriteFrame(address: nat, value: nat): string {
    "W" + Format(address, 2) + Format(value, 4)
  }

  /** The groups of `^E([01])([RW])?([0-9A-F]{2})?$`: the code digit, the
      optional operation letter and the optional address digits. */
  datatype ErrorReport = ErrorReport(code: char, letter: Option<char>, address: Option<string>)

  /** Matches a reply against the error grammar. */
  function MatchError(response: string): (m: Option<ErrorReport>)
    ensures m.Some? ==> m.value.code in "01"
    ensures m.Some? && m.value.address.Some? ==> |m.value.address.value| == 2 && AllUpperHex(m.value.address.value)
  {
    var c := Chomp(response);
    if |c| < 2 || c[0] != 'E' || (c[1] != '0' && c[1] != '1') then None
    else
      var rest := c[2..];
      if rest == [] then Some(ErrorReport(c[1], None, None))
      else if |rest| == 1 && (rest[0] == 'R' || rest[0] == 'W') then Some(ErrorReport(c[1], Some(rest[0]), None))
      else if |rest| == 2 && AllUpperHex(rest) then Some(ErrorReport(c[1], None, Some(rest)))
      else if |rest| == 3 && (rest[0] == 'R' || rest[0] == 'W') && AllUpperHex(rest[1..]) then
        Some(ErrorReport(c[1], Some(rest[0]), Some(rest[1..])))
      else None
  }

  /** The operation an `E1` reply names: read iff the letter is `R`. */
  function ErrorOperation(m: ErrorReport): Operation {
    if m.letter == Some('R') then Read else Write
  }

  /** `_check_error_response` as written: an `E1` without address digits formats
      `None` with `#04x`, which raises TypeError. */
  function CheckErrorAsWritten(response: string): (e: Option<Error>)
  {
    match MatchError(response)
    case None => None
    case Some(m) =>
      if m.code == '0' then Some(MalformedResponse)
      else if m.address.None? then Some(NoneFormatError)
      else
        UpperHexPlain(m.address.value);
        Some(RegisterError(ErrorOperation(m), Some(HexValue(m.address.value))))
  }

  /** `_check_error_response` as intended: `E0` is a malformed-command report and
      every `E1` a register error, with the address when the reply gives one. */
  function CheckError(response: string): (e: Option<Error>)
    ensures e.Some? ==> e.value == MalformedResponse || e.value.RegisterError?
  {
    match MatchError(response)
    case None => None
    case Some(m) =>
      if m.code == '0' then Some(MalformedResponse)
      else if m.address.None? then Some(RegisterError(ErrorOperation(m), None))
      else
        UpperHexPlain(m.address.value);
        Some(RegisterError(ErrorOperation(m), Some(HexValue(m.address.value))))
  }

  /** `_parse_read_response`: errors first, then `^R([0-9A-F]{2})([0-9A-F]{4})$`
      with the echoed address equal to the requested one. */
  function ParseReadResponse(address: nat, response: string): (r: Result<nat>)
    ensures r.Ok? ==> r.value < 0x10000
    ensures r.Err? && CheckError(response).None? ==> r.error == MalformedResponse
  {
    match CheckError(response)
    case Some(e) => Err(e)
    case None =>
      var c := Chomp(response);
      if !(|c| == 7 && c[0] == 'R' && AllUpperHex(c[1..3]) && AllUpperHex(c[3..7])) then Err(MalformedResponse)
      else
        UpperHexPlain(c[1..3]);
        UpperHexPlain(c[3..7]);
        if HexValue(c[1..3]) != address then Err(MalformedResponse)
        else
          assert Pow16(4) == 0x10000;
          Ok(HexValue(c[3..7]))
  }

  /** `_parse_write_response`: errors first, then `^W([0-9A-F]{2})OK$` with the
      echoed address equal to the requested one. */
  function ParseWriteResponse(address: nat, response: string): (r: Result<()>)
    ensures r.Err? && CheckError(response).None? ==> r.error == MalformedResponse
  {
    match CheckError(response)
    case Some(e) => Err(e)
    case None =>
      var c := Chomp(response);
      if !(|c| == 5 && c[0] == 'W' && AllUpperHex(c[1..3]) && c[3..] == "OK") then Err(MalformedResponse)
      else
        UpperHexPlain(c[1..3]);
        if HexValue(c[1..3]) != address then Err(MalformedResponse)
        else Ok(())
  }

  // ---------------------------------------------------------------------------
  // The operations, as functions of the transport state

  /** One command: `write_line` and then `read_line`, the first error ending it. */
  function Exchange(t: TState, frame: string): (r: (Result<string>, TState))
    requires Sendable(t, frame)
  {
    var (w, t1) := Send(t, frame);
    if w.Err? then (Err(w.error), t1) else Receive(t1)
  }

  /** `read_register`: check the address, send `R<AA>`, read one line and parse it. */
  function Read16(t: TState, address: int): (r: (Result<nat>, TState))
    ensures !(0 <= address <= 0xFF) ==> r.0 == Err(AddressOutOfRange) && r.1 == t
    ensures r.0.Ok? ==> r.0.value < 0x10000
  {
    if !(0 <= address <= 0xFF) then (Err(AddressOutOfRange), t)
    else
      FramesPlain(address, 0);
      var (line, t2) := Exchange(t, ReadFrame(address));
      if line.Err? then (Err(line.error), t2)
      else (ParseReadResponse(address, line.value), t2)
  }

  /** `write_register`: check the address, then the value, send `W<AA><VVVV>`,
      read one line and parse it; with `verify` read the register back and return
      what was read, otherwise return the value written. */
  function Write16(t: TState, address: int, value: int, verify: bool): (r: (Result<nat>, TState))
    ensures !(0 <= address <= 0xFF) ==> r.0 == Err(AddressOutOfRange) && r.1 == t
    ensures 0 <= address <= 0xFF && !(0 <= value <= 0xFFFF) ==> r.0 == Err(ValueOutOfRange) && r.1 == t
  {
    if !(0 <= address <= 0xFF) then (Err(AddressOutOfRange), t)
    else if !(0 <= value <= 0xFFFF) then (Err(ValueOutOfRange), t)
    else
      FramesPlain(address, value);
      var (line, t2) := Exchange(t, WriteFrame(address, value));
      if line.Err? then (Err(line.error), t2)
      else
        var parsed := ParseWriteResponse(address, line.value);
        if parsed.Err? then (Err(parsed.error), t2)
        else if verify then Read16(t2, address)
        else (Ok(value), t2)
  }

  /** `read_register_32bit`: read LO, then HI, and return `(hi << 16) | lo`, which
      is `hi * 0x10000 + lo` because `lo` is below 0x10000. */
  function Read32(t: TState, addressLo: int, addressHi: int): (r: (Result<nat>, TState))
    ensures r.0.Ok? ==> r.0.value < Word
  {
    var (lo, t1) := Read16(t, addressLo);
    if lo.Err? then (Err(lo.error), t1)
    else
      var (hi, t2) := Read16(t1, addressHi);
      if hi.Err? then (Err(hi.error), t2)
      else (Ok(hi.value * 0x10000 + lo.value), t2)
  }

  /** `write_register_32bit`: check the value, write `value & 0xFFFF` to LO and then
      `(value >> 16) & 0xFFFF` to HI, both unverified; with `verify` read the pair
      back. */
  function Write32(t: TState, addressLo: int, addressHi: int, value: int, verify: bool): (r: (Result<nat>, TState))
    ensures !(0 <= value <= 0xFFFF_FFFF) ==> r.0 == Err(ValueOutOfRange) && r.1 == t
  {
    if !(0 <= value <= 0xFFFF_FFFF) then (Err(ValueOutOfRange), t)
    else
      var (lo, t1) := Write16(t, addressLo, value % 0x10000, false);
      if lo.Err? then (Err(lo.error), t1)
      else
        var (hi, t2) := Write16(t1, addressHi, (value / 0x10000) % 0x10000, false);
        if hi.Err? then (Err(hi.error), t2)
        else if verify then Read32(t2, addressLo, addressHi)
        else (Ok(value), t2)
  }

  /** `flash_command`: only `S` and `L`; succeeds iff the reply is the command
      followed by `OK`, else reports the error reply or a malformed reply. */
  function Flash(t: TState, command: string): (r: (Result<()>, TState))
    ensures command != "S" && command != "L" ==> r.0 == Err(InvalidFlashCommand) && r.1 == t
  {
    if command != "S" && command != "L" then (Err(InvalidFlashCommand), t)
    else
      FlashPlain(command);
      var (line, t2) := Exchange(t, command);
      if line.Err? then (Err(line.error), t2)
      else if line.value == command + "OK" then (Ok(()), t2)
      else match CheckError(line.value)
        case Some(e) => (Err(e), t2)
        case None => (Err(MalformedResponse), t2)
  }

  // ---------------------------------------------------------------------------
  // Frames

  /** Frames for an address and value in range are upper-case hex after their
      letter, so every transport can send them. */
  lemma FramesPlain(address: nat, value: nat)
    requires address < 0x100 && value < 0x10000
    ensures PlainText(ReadFrame(address)) && CommandPlain(ReadFrame(address))
    ensures PlainText(WriteFrame(address, value)) && CommandPlain(WriteFrame(address, value))
  {
    ReadFramePlain(address);
    WriteFramePlain(address, value);
  }

  /** A letter followed by plain text is plain. */
  lemma LetterPlain(c: char, d: string)
    requires IsPlainChar(c) && PlainText(d)
    ensures PlainText([c] + d)
  {
    var f := [c] + d;
    forall i | 0 <= i < |f| ensures IsPlainChar(f[i]) {
      if i > 0 {
        assert f[i] == d[i - 1];
      }
    }
  }

  lemma ReadFramePlain(address: nat)
    requires address < 0x100
    ensures PlainText(ReadFrame(address)) && CommandPlain(ReadFrame(address))
  {
    assert Pow16(2) == 0x100;
    var d := Format(address, 2);
    FixedUpperHex(address, 2);
    UpperHexPlain(d);
    assert ReadFrame(address) == ['R'] + d;
    LetterPlain('R', d);
    PlainCommand(ReadFrame(address));
  }

  lemma WriteFramePlain(address: nat, value: nat)
    requires address < 0x100 && value < 0x10000
    ensures PlainText(WriteFrame(address, value)) && CommandPlain(WriteFrame(address, value))
  {
    assert Pow16(2) == 0x100 && Pow16(4) == 0x10000;
    var d := Format(address, 2) + Format(value, 4);
    FixedUpperHex(address, 2);
    FixedUpperHex(value, 4);
    UpperHexPlain(Format(address, 2));
    UpperHexPlain(Format(value, 4));
    assert PlainText(d);
    assert WriteFrame(address, value) == ['W'] + d;
    LetterPlain('W', d);
    PlainCommand(WriteFrame(address, value));
  }

  /** The flash commands are plain. */
  lemma FlashPlain(command: string)
    requires command == "S" || command == "L"
    ensures PlainText(command) && CommandPlain(command)
    ensures |command| == 1 && (command == "S" <==> command[0] == 'S') && (command == "L" <==> command[0] == 'L')
  {
    assert PlainText(command);
    PlainCommand(command);
  }

  /** A read frame is `R` and two upper-case hex digits that read back as the
      address. */
  lemma ReadFrameFields(address: nat)
    requires address < 0x100
    ensures var f := ReadFrame(address);
      |f| == 3 && f[0] == 'R' && AllUpperHex(f[1..]) && HexValue(f[1..]) == address
  {
    assert Pow16(2) == 0x100;
    var f := ReadFrame(address);
    assert f[1..] == Fixed(address, 2);
    HexValueFixed(address, 2);
  }

  /** A write frame is `W`, two and then four upper-case hex digits that read back
      as the address and the value. */
  lemma WriteFrameFields(address: nat, value: nat)
    requires address < 0x100 && value < 0x10000
    ensures var f := WriteFrame(address, value);
      && |f| == 7 && f[0] == 'W' && AllUpperHex(f[1..3]) && AllUpperHex(f[3..])
      && HexValue(f[1..3]) == address && HexValue(f[3..]) == value
  {
    assert Pow16(2) == 0x100 && Pow16(4) == 0x10000;
    var f := WriteFrame(address, value);
    assert f[1..3] == Fixed(address, 2) && f[3..] == Fixed(value, 4);
    HexValueFixed(address, 2);
    HexValueFixed(value, 4);
  }

  // ---------------------------------------------------------------------------
  // Reply grammars

  /** Every `E0...` error reply is a malformed-command report. */
  lemma ErrorCodeZero(response: string)
    requires MatchError(response).Some? && MatchError(response).value.code == '0'
    ensures CheckError(response) == Some(MalformedResponse)
    ensures CheckErrorAsWritten(response) == Some(MalformedResponse)
  {
  }

  /** `E1` replies are register errors for a read iff the letter after `E1` is
      `R`, at the address the reply spells. */
  lemma RegisterErrorReplies(a: nat)
    requires a < 0x100
    ensures CheckError("E1R" + Fixed(a, 2)) == Some(RegisterError(Read, Some(a)))
    ensures CheckError("E1W" + Fixed(a, 2)) == Some(RegisterError(Write, Some(a)))
    ensures CheckError("E1" + Fixed(a, 2)) == Some(RegisterError(Write, Some(a)))
  {
    assert Pow16(2) == 0x100;
    HexValueFixed(a, 2);
    var h := Fixed(a, 2);
    assert ("E1R" + h)[2..] == "R" + h && ("E1R" + h)[3..] == h;
    assert ("E1W" + h)[2..] == "W" + h && ("E1W" + h)[3..] == h;
    assert ("E1" + h)[2..] == h;
  }

  /** The operation of a register error is read iff the letter is `R`. */
  lemma RegisterErrorOperation(response: string)
    requires CheckError(response).Some? && CheckError(response).value.RegisterError?
    ensures var c := Chomp(response);
      CheckError(response).value.op == Read <==> |c| > 2 && c[2] == 'R'
  {
  }

  /** A reply in the error grammar is reported as that error by both parsers,
      before the success grammar is tried. */
  lemma ErrorsFirst(address: nat, response: string)
    requires CheckError(response).Some?
    ensures ParseReadResponse(address, response) == Err(CheckError(response).value)
    ensures ParseWriteResponse(address, response) == Err(CheckError(response).value)
  {
  }

  /** A read reply is accepted iff it is `R`, the requested address and the value
      as two and four upper-case hex digits (one final line feed allowed). */
  lemma ReadResponseIff(address: nat, response: string, value: nat)
    requires address < 0x100
    ensures ParseReadResponse(address, response) == Ok(value) <==>
      value < 0x10000 && Chomp(response) == "R" + Fixed(address, 2) + Fixed(value, 4)
  {
    assert Pow16(2) == 0x100 && Pow16(4) == 0x10000;
    var c := Chomp(response);
    if ParseReadResponse(address, response) == Ok(value) {
      FixedHexValue(c[1..3]);
      FixedHexValue(c[3..7]);
      assert c == [c[0]] + c[1..3] + c[3..7];
    }
    if value < 0x10000 && c == "R" + Fixed(address, 2) + Fixed(value, 4) {
      HexValueFixed(address, 2);
      HexValueFixed(value, 4);
      assert c[1..3] == Fixed(address, 2) && c[3..7] == Fixed(value, 4);
    }
  }

  /** A write reply is accepted iff it is `W`, the requested address as two
      upper-case hex digits, and `OK`. */
  lemma WriteResponseIff(address: nat, response: string)
    requires address < 0x100
    ensures ParseWriteResponse(address, response).Ok? <==> Chomp(response) == "W" + Fixed(address, 2) + "OK"
  {
    assert Pow16(2) == 0x100;
    var c := Chomp(response);
    if ParseWriteResponse(address, response).Ok? {
      FixedHexValue(c[1..3]);
      assert c == [c[0]] + c[1..3] + c[3..];
    }
    if c == "W" + Fixed(address, 2) + "OK" {
      HexValueFixed(address, 2);
      assert c[1..3] == Fixed(address, 2);
    }
  }

  // ---------------------------------------------------------------------------
  // What goes out on the transport

  /** The lines sent so far: the simulator's command queue, or the serial output. */
  function Outgoing(t: TState): seq<string> {
    if t.simulation then t.tx.GetOr([]) else t.written
  }

  /** A frame as it goes out: the serial port adds a line feed. */
  function OnWire(t: TState, frame: string): string {
    if t.simulation then frame else frame + "\n"
  }

  /** On a connected transport a plain frame is sent, appended to the outgoing
      lines, and the transport stays connected. */
  lemma SendFrame(t: TState, frame: string)
    requires Inv(t) && Connected(t) && PlainText(frame)
    ensures var (w, t1) := Send(t, frame);
      && w == Ok(())
      && Outgoing(t1) == Outgoing(t) + [OnWire(t, frame)]
      && Inv(t1) && Connected(t1) && t1.simulation == t.simulation
  {
    PlainCommand(frame);
    WriteLineKeepsInv(t, frame);
    if !t.simulation {
      assert Ascii(frame + "\n");
    }
  }

  /** Reading sends nothing and keeps the transport connected. */
  lemma ReceiveSendsNothing(t: TState)
    requires Inv(t) && Connected(t)
    ensures var t1 := Receive(t).1;
      Outgoing(t1) == Outgoing(t) && Inv(t1) && Connected(t1) && t1.simulation == t.simulation
  {
  }

  // ---------------------------------------------------------------------------
  // The operations, step by step

  /** On a connected transport a plain frame goes out, appended to the lines
      sent, and the transport stays connected whatever the reply. */
  lemma ExchangeSends(t: TState, frame: string)
    requires Inv(t) && Connected(t) && PlainText(frame) && CommandPlain(frame)
    ensures var t2 := Exchange(t, frame).1;
      && Outgoing(t2) == Outgoing(t) + [OnWire(t, frame)]
      && Inv(t2) && Connected(t2) && t2.simulation == t.simulation
  {
    SendFrame(t, frame);
    ReceiveSendsNothing(Send(t, frame).1);
  }

  /** With nothing queued, the simulator's reply to a frame is the line read
      back, and the queue is empty again. */
  lemma SimulatorExchange(t: TState, frame: string)
    requires Inv(t) && t.simulation && Connected(t) && t.rx.value == [] && CommandPlain(frame)
    requires Process(t.sim.value, frame).1 != []
    ensures var (s', reply) := Process(t.sim.value, frame);
      Exchange(t, frame) == (Ok(reply), t.(tx := Some(t.tx.value + [frame]), sim := Some(s'), rx := Some([])))
  {
    SimulatedWrite(t, frame);
    var (s', reply) := Process(t.sim.value, frame);
    var t1 := Send(t, frame).1;
    assert Send(t, frame).0 == Ok(());
    assert t1.rx == Some(t.rx.value + [reply]);
    assert t.rx.value + [reply] == [reply];
    assert t1.rx == Some([reply]);
    assert Connected(t1);
    assert [reply][1..] == [];
    assert Receive(t1) == (Ok(reply), t1.(rx := Some([])));
  }

  /** A read in range sends exactly its read frame, whatever the reply. */
  lemma ReadSends(t: TState, address: int)
    requires Inv(t) && Connected(t) && 0 <= address <= 0xFF
    ensures var t' := Read16(t, address).1;
      && Outgoing(t') == Outgoing(t) + [OnWire(t, ReadFrame(address))]
      && Inv(t') && Connected(t') && t'.simulation == t.simulation
  {
    FramesPlain(address, 0);
    ExchangeSends(t, ReadFrame(address));
  }

  /** A write in range sends its write frame; once the reply is accepted it
      returns the value written, or with `verify` exactly what one further read
      of the register returns, even when that differs from the value. */
  lemma WriteSends(t: TState, address: int, value: int, verify: bool)
    requires Inv(t) && Connected(t) && 0 <= address <= 0xFF && 0 <= value <= 0xFFFF
    ensures CommandPlain(WriteFrame(address, value))
    ensures var (line, t2) := Exchange(t, WriteFrame(address, value));
      var accepted := line.Ok? && ParseWriteResponse(address, line.value).Ok?;
      var (r, t') := Write16(t, address, value, verify);
      && Outgoing(t2) == Outgoing(t) + [OnWire(t, WriteFrame(address, value))]
      && Inv(t2) && Connected(t2) && t2.simulation == t.simulation
      && (!accepted ==> r.Err? && t' == t2)
      && (accepted && !verify ==> r == Ok(value) && t' == t2)
      && (accepted && verify ==> (r, t') == Read16(t2, address))
  {
    FramesPlain(address, value);
    ExchangeSends(t, WriteFrame(address, value));
  }

  /** A verified write whose reply is accepted sends exactly one further frame:
      the read of the same register. */
  lemma VerifyReadsBack(t: TState, address: int, value: int)
    requires Inv(t) && Connected(t) && 0 <= address <= 0xFF && 0 <= value <= 0xFFFF
    requires CommandPlain(WriteFrame(address, value))
    requires var line := Exchange(t, WriteFrame(address, value)).0;
      line.Ok? && ParseWriteResponse(address, line.value).Ok?
    ensures Outgoing(Write16(t, address, value, true).1) ==
      Outgoing(t) + [OnWire(t, WriteFrame(address, value)), OnWire(t, ReadFrame(address))]
  {
    var t2 := Exchange(t, WriteFrame(address, value)).1;
    FramesPlain(address, value);
    ExchangeSends(t, WriteFrame(address, value));
    VerifiedWriteContinues(t, address, value);
    ThenReads(t, t2, address, OnWire(t, WriteFrame(address, value)));
  }

  /** A read after one frame `w` has gone out sends its read frame after `w`. */
  lemma ThenReads(t: TState, t2: TState, address: int, w: string)
    requires Inv(t2) && Connected(t2) && 0 <= address <= 0xFF
    requires t2.simulation == t.simulation && Outgoing(t2) == Outgoing(t) + [w]
    ensures Outgoing(Read16(t2, address).1) == Outgoing(t) + [w, OnWire(t, ReadFrame(address))]
  {
    ReadSends(t2, address);
    assert (Outgoing(t) + [w]) + [OnWire(t, ReadFrame(address))] == Outgoing(t) + [w, OnWire(t, ReadFrame(address))];
  }

  lemma VerifiedWriteContinues(t: TState, address: int, value: int)
    requires 0 <= address <= 0xFF && 0 <= value <= 0xFFFF
    requires CommandPlain(WriteFrame(address, value))
    requires var line := Exchange(t, WriteFrame(address, value)).0;
      line.Ok? && ParseWriteResponse(address, line.value).Ok?
    ensures Write16(t, address, value, true).1 == Read16(Exchange(t, WriteFrame(address, value)).1, address).1
  {
    FramesPlain(address, value);
    var (line, t2) := Exchange(t, WriteFrame(address, value));
    var parsed := ParseWriteResponse(address, line.value);
  }

  /** Two reads in range send their two read frames in order. */
  lemma TwoReadsSend(t: TState, addressLo: int, addressHi: int)
    requires Inv(t) && Connected(t) && 0 <= addressLo <= 0xFF && 0 <= addressHi <= 0xFF
    ensures Outgoing(Read16(Read16(t, addressLo).1, addressHi).1) ==
      Outgoing(t) + [OnWire(t, ReadFrame(addressLo)), OnWire(t, ReadFrame(addressHi))]
  {
    ReadSends(t, addressLo);
    ReadSends(Read16(t, addressLo).1, addressHi);
  }

  /** Once the LO read succeeds, a 32-bit read ends where the HI read ends. */
  lemma Read32Continues(t: TState, addressLo: int, addressHi: int)
    requires Read16(t, addressLo).0.Ok?
    ensures Read32(t, addressLo, addressHi).1 == Read16(Read16(t, addressLo).1, addressHi).1
  {
  }

  /** A 32-bit read sends the LO read frame and then the HI one. */
  lemma Read32Order(t: TState, addressLo: int, addressHi: int)
    requires Inv(t) && Connected(t) && 0 <= addressLo <= 0xFF && 0 <= addressHi <= 0xFF
    requires Read16(t, addressLo).0.Ok?
    ensures Outgoing(Read32(t, addressLo, addressHi).1) ==
      Outgoing(t) + [OnWire(t, ReadFrame(addressLo)), OnWire(t, ReadFrame(addressHi))]
  {
    TwoReadsSend(t, addressLo, addressHi);
    Read32Continues(t, addressLo, addressHi);
  }

  /** A 32-bit read succeeds iff both halves do, and then its value is
      `(hi << 16) | lo` with both halves below 0x10000 (so `JoinSplits` takes it
      back apart into the values read). */
  lemma Read32Combines(t: TState, addressLo: int, addressHi: int)
    ensures Read32(t, addressLo, addressHi).0.Ok? <==>
      Read16(t, addressLo).0.Ok? && Read16(Read16(t, addressLo).1, addressHi).0.Ok?
    ensures Read32(t, addressLo, addressHi).0.Ok? ==>
      && Read16(t, addressLo).0.value < 0x10000
      && Read16(Read16(t, addressLo).1, addressHi).0.value < 0x10000
      && Read32(t, addressLo, addressHi).0.value ==
           Read16(Read16(t, addressLo).1, addressHi).0.value * 0x10000 + Read16(t, addressLo).0.value
  {
    if Read16(t, addressLo).0.Err? {
      Read32LoFails(t, addressLo, addressHi);
    } else if Read16(Read16(t, addressLo).1, addressHi).0.Err? {
      Read32HiFails(t, addressLo, addressHi);
    } else {
      Read32Joins(t, addressLo, addressHi);
    }
  }

  lemma Read32LoFails(t: TState, addressLo: int, addressHi: int)
    requires Read16(t, addressLo).0.Err?
    ensures Read32(t, addressLo, addressHi) == (Err(Read16(t, addressLo).0.error), Read16(t, addressLo).1)
  {
  }

  lemma Read32HiFails(t: TState, addressLo: int, addressHi: int)
    requires Read16(t, addressLo).0.Ok? && Read16(Read16(t, addressLo).1, addressHi).0.Err?
    ensures var hi := Read16(Read16(t, addressLo).1, addressHi);
      Read32(t, addressLo, addressHi) == (Err(hi.0.error), hi.1)
  {
  }

  lemma Read32Joins(t: TState, addressLo: int, addressHi: int)
    requires Read16(t, addressLo).0.Ok? && Read16(Read16(t, addressLo).1, addressHi).0.Ok?
    ensures Read32(t, addressLo, addressHi).0.Ok?
    ensures Read32(t, addressLo, addressHi).0.value ==
      Read16(Read16(t, addressLo).1, addressHi).0.value * 0x10000 + Read16(t, addressLo).0.value
  {
  }

  /** `(hi << 16) | lo` splits back into `hi` and `lo`. */
  lemma JoinSplits(hi: nat, lo: nat)
    requires lo < 0x10000
    ensures (hi * 0x10000 + lo) % 0x10000 == lo && (hi * 0x10000 + lo) / 0x10000 == hi
  {
  }

  /** The halves written are below 0x10000 and recombine into the value. */
  lemma HalvesRecombine(value: int)
    requires 0 <= value <= 0xFFFF_FFFF
    ensures value % 0x10000 < 0x10000 && (value / 0x10000) % 0x10000 < 0x10000
    ensures ((value / 0x10000) % 0x10000) * 0x10000 + value % 0x10000 == value
  {
    SplitHalves(value);
  }

  /** A 32-bit write sends the LO half, then the HI half, each unverified;
      without `verify` it returns the value. */
  lemma Write32Order(t: TState, addressLo: int, addressHi: int, value: int)
    requires Inv(t) && Connected(t) && 0 <= addressLo <= 0xFF && 0 <= addressHi <= 0xFF && 0 <= value <= 0xFFFF_FFFF
    requires Write16(t, addressLo, value % 0x10000, false).0.Ok?
    requires Write16(Write16(t, addressLo, value % 0x10000, false).1, addressHi, (value / 0x10000) % 0x10000, false).0.Ok?
    ensures var (r, t') := Write32(t, addressLo, addressHi, value, false);
      && r == Ok(value)
      && Outgoing(t') == Outgoing(t) +
           [OnWire(t, WriteFrame(addressLo, value % 0x10000)), OnWire(t, WriteFrame(addressHi, (value / 0x10000) % 0x10000))]
  {
    HalvesRecombine(value);
    WriteTwoHalves(t, addressLo, addressHi, value % 0x10000, (value / 0x10000) % 0x10000);
    Write32Continues(t, addressLo, addressHi, value);
  }

  /** Two unverified writes that succeed send their two frames in order. */
  lemma WriteTwoHalves(t: TState, addressLo: int, addressHi: int, lo: int, hi: int)
    requires Inv(t) && Connected(t) && 0 <= addressLo <= 0xFF && 0 <= addressHi <= 0xFF
    requires 0 <= lo <= 0xFFFF && 0 <= hi <= 0xFFFF
    requires Write16(t, addressLo, lo, false).0.Ok?
    requires Write16(Write16(t, addressLo, lo, false).1, addressHi, hi, false).0.Ok?
    ensures Outgoing(Write16(Write16(t, addressLo, lo, false).1, addressHi, hi, false).1) ==
      Outgoing(t) + [OnWire(t, WriteFrame(addressLo, lo)), OnWire(t, WriteFrame(addressHi, hi))]
  {
    UnverifiedWriteSends(t, addressLo, lo);
    ThenWrites(t, Write16(t, addressLo, lo, false).1, addressHi, hi, OnWire(t, WriteFrame(addressLo, lo)));
  }

  /** An unverified write after one frame `w` has gone out sends its write frame
      after `w`. */
  lemma ThenWrites(t: TState, t1: TState, address: int, value: int, w: string)
    requires Inv(t1) && Connected(t1) && 0 <= address <= 0xFF && 0 <= value <= 0xFFFF
    requires t1.simulation == t.simulation && Outgoing(t1) == Outgoing(t) + [w]
    requires Write16(t1, address, value, false).0.Ok?
    ensures Outgoing(Write16(t1, address, value, false).1) == Outgoing(t) + [w, OnWire(t, WriteFrame(address, value))]
  {
    UnverifiedWriteSends(t1, address, value);
    assert (Outgoing(t) + [w]) + [OnWire(t, WriteFrame(address, value))] == Outgoing(t) + [w, OnWire(t, WriteFrame(address, value))];
  }

  /** An unverified write that succeeds sends its one frame and leaves the
      transport connected. */
  lemma UnverifiedWriteSends(t: TState, address: int, value: int)
    requires Inv(t) && Connected(t) && 0 <= address <= 0xFF && 0 <= value <= 0xFFFF
    requires Write16(t, address, value, false).0.Ok?
    ensures var t' := Write16(t, address, value, false).1;
      && Outgoing(t') == Outgoing(t) + [OnWire(t, WriteFrame(address, value))]
      && Inv(t') && Connected(t') && t'.simulation == t.simulation
  {
    FramesPlain(address, value);
    ExchangeSends(t, WriteFrame(address, value));
    UnverifiedWriteContinues(t, address, value);
  }

  /** An unverified write ends where its exchange ends. */
  lemma UnverifiedWriteContinues(t: TState, address: int, value: int)
    requires 0 <= address <= 0xFF && 0 <= value <= 0xFFFF
    ensures CommandPlain(WriteFrame(address, value))
    ensures Write16(t, address, value, false).1 == Exchange(t, WriteFrame(address, value)).1
  {
    FramesPlain(address, value);
    var (line, t2) := Exchange(t, WriteFrame(address, value));
    if line.Ok? {
      var parsed := ParseWriteResponse(address, line.value);
    }
  }

  /** Once both unverified halves succeed, a 32-bit write returns the value and
      ends where the HI write ends. */
  lemma Write32Continues(t: TState, addressLo: int, addressHi: int, value: int)
    requires 0 <= value <= 0xFFFF_FFFF
    requires Write16(t, addressLo, value % 0x10000, false).0.Ok?
    requires Write16(Write16(t, addressLo, value % 0x10000, false).1, addressHi, (value / 0x10000) % 0x10000, false).0.Ok?
    ensures Write32(t, addressLo, addressHi, value, false) ==
      (Ok(value), Write16(Write16(t, addressLo, value % 0x10000, false).1, addressHi, (value / 0x10000) % 0x10000, false).1)
  {
  }

  /** The HI address is checked only when the HI write starts: with a bad HI
      address the LO half has already gone out. */
  lemma Write32BadHi(t: TState, addressLo: int, addressHi: int, value: int, verify: bool)
    requires Inv(t) && Connected(t) && 0 <= addressLo <= 0xFF && !(0 <= addressHi <= 0xFF) && 0 <= value <= 0xFFFF_FFFF
    requires Write16(t, addressLo, value % 0x10000, false).0.Ok?
    ensures var (r, t') := Write32(t, addressLo, addressHi, value, verify);
      && r == Err(AddressOutOfRange)
      && Outgoing(t') == Outgoing(t) + [OnWire(t, WriteFrame(addressLo, value % 0x10000))]
  {
    HalvesRecombine(value);
    WriteSends(t, addressLo, value % 0x10000, false);
  }

  /** A flash command sends itself and succeeds iff the reply is exactly the
      command followed by `OK`; otherwise the error reply or a malformed reply
      is reported. */
  lemma FlashIff(t: TState, command: string)
    requires Inv(t) && Connected(t) && (command == "S" || command == "L")
    ensures CommandPlain(command)
    ensures var line := Exchange(t, command).0;
      var (r, t') := Flash(t, command);
      && Outgoing(t') == Outgoing(t) + [OnWire(t, command)]
      && (r == Ok(()) <==> line == Ok(command + "OK"))
      && (line.Ok? && line.value != command + "OK" ==> r == Err(CheckError(line.value).GetOr(MalformedResponse)))
  {
    FlashPlain(command);
    ExchangeSends(t, command);
    FlashContinues(t, command);
    FlashReply(t, command);
  }

  lemma FlashContinues(t: TState, command: string)
    requires command == "S" || command == "L"
    ensures Flash(t, command).1 == Exchange(t, command).1
  {
    FlashPlain(command);
    var (line, t2) := Exchange(t, command);
    if line.Ok? && line.value != command + "OK" {
      var e := CheckError(line.value);
    }
  }

  lemma FlashReply(t: TState, command: string)
    requires command == "S" || command == "L"
    ensures CommandPlain(command)
    ensures var line := Exchange(t, command).0;
      var r := Flash(t, command).0;
      && (r.Ok? <==> line.Ok? && line.value == command + "OK")
      && (line.Ok? && line.value != command + "OK" ==> r.Err? && r.error == CheckError(line.value).GetOr(MalformedResponse))
  {
    FlashPlain(command);
    FlashAccepts(t, command);
    var line := Exchange(t, command).0;
    if line.Ok? && line.value != command + "OK" {
      FlashRejects(t, command);
    }
  }

  lemma FlashAccepts(t: TState, command: string)
    requires command == "S" || command == "L"
    ensures Flash(t, command).0.Ok? <==> Exchange(t, command).0 == Ok(command + "OK")
  {
    FlashPlain(command);
    var (line, t2) := Exchange(t, command);
    if line.Ok? && line.value != command + "OK" {
      var e := CheckError(line.value);
    }
  }

  lemma FlashRejects(t: TState, command: string)
    requires command == "S" || command == "L"
    requires Exchange(t, command).0.Ok? && Exchange(t, command).0.value != command + "OK"
    ensures Flash(t, command).0 == Err(CheckError(Exchange(t, command).0.value).GetOr(MalformedResponse))
  {
    FlashPlain(command);
    var (line, t2) := Exchange(t, command);
    var e := CheckError(line.value);
  }

  // ---------------------------------------------------------------------------
  // Against the simulator

  /** The simulator's reply to a read is accepted with the register's value. */
  lemma ReadReplyAccepted(address: nat, value: nat)
    requires address < 0x100 && value < 0x10000
    ensures ParseReadResponse(address, "R" + Fixed(address, 2) + Fixed(value, 4)) == Ok(value)
  {
    var reply := "R" + Fixed(address, 2) + Fixed(value, 4);
    FixedUpperHex(value, 4);
    assert reply[|reply| - 1] == Fixed(value, 4)[3];
    ReadResponseIff(address, reply, value);
  }

  /** The simulator's plain reply to a write is accepted. */
  lemma WriteReplyAccepted(address: nat)
    requires address < 0x100
    ensures ParseWriteResponse(address, "W" + Fixed(address, 2) + "OK").Ok?
  {
    var reply := "W" + Fixed(address, 2) + "OK";
    assert reply[|reply| - 1] == 'K';
    WriteResponseIff(address, reply);
  }

  /** With nothing queued, a read from the simulator returns the register and
      leaves the simulator and the receive queue as they were. */
  lemma ReadFromSimulator(t: TState, address: int)
    requires Inv(t) && t.simulation && Connected(t) && t.rx.value == [] && 0 <= address <= 0xFF
    ensures var (r, t') := Read16(t, address);
      r == Ok(t.sim.value.memory[address]) && t'.sim == t.sim && t'.rx == Some([])
  {
    var s := t.sim.value;
    var frame := ReadFrame(address);
    ReadFrameFields(address);
    UpperHexPlain(frame[1..]);
    assert frame[1..3] == frame[1..];
    ReadReply(s, frame);
    SimulatorExchange(t, frame);
    ReadReplyAccepted(address, s.memory[address]);
  }

  /** A write frame is one the simulator parses. */
  lemma WriteFrameParses(address: nat, value: nat)
    requires address < 0x100 && value < 0x10000
    ensures var f := WriteFrame(address, value);
      && PlainText(f) && |f| == 7 && f[0] == 'W'
      && ParseInt(f[1..3]) == Some(address) && ParseInt(f[3..7]) == Some(value)
  {
    var f := WriteFrame(address, value);
    WriteFrameFields(address, value);
    WriteFramePlain(address, value);
    var a, v := f[1..3], f[3..];
    assert f[3..7] == v;
    UpperHexPlain(a);
    UpperHexPlain(v);
    ParseIntHex(a);
    ParseIntHex(v);
  }

  /** With nothing queued, a write to the simulator (other than an arm or disarm
      command) stores the value, is accepted, and returns the value, also when
      verified by reading it back. */
  lemma WriteToSimulator(t: TState, address: int, value: int, verify: bool)
    requires Inv(t) && t.simulation && Connected(t) && t.rx.value == []
    requires 0 <= address <= 0xFF && 0 <= value <= 0xFFFF
    requires !(address == ArmAddress && value == 1) && !(address == DisarmAddress && value == 1)
    ensures var (r, t') := Write16(t, address, value, verify);
      && r == Ok(value)
      && t'.sim.Some? && t'.sim.value.memory == t.sim.value.memory[address := value]
      && t'.rx == Some([])
  {
    var s := t.sim.value;
    var frame := WriteFrame(address, value);
    WriteFrameParses(address, value);
    WriteReply(s, frame);
    SimulatorExchange(t, frame);
    WriteReplyAccepted(address);
    WriteSends(t, address, value, verify);
    if verify {
      ReadFromSimulator(Exchange(t, frame).1, address);
    }
  }

  /** Arming the simulator's position compare by writing 1 to PC_ARM arms it, but
      its reply is the single line `PR\nW8BOK`, which the write parser rejects as
      malformed. */
  lemma ArmWriteMalformed(t: TState, verify: bool)
    requires Inv(t) && t.simulation && Connected(t) && t.rx.value == []
    ensures var (r, t') := Write16(t, ArmAddress, 1, verify);
      r == Err(MalformedResponse) && t'.sim.Some? && t'.sim.value.armed
  {
    var s := t.sim.value;
    var frame := WriteFrame(ArmAddress, 1);
    WriteFrameParses(ArmAddress, 1);
    WriteReply(s, frame);
    SimulatorExchange(t, frame);
    ArmReplyMalformed();
    WriteRejected(t, ArmAddress, 1, verify);
  }

  /** A write whose reply does not parse fails with the parser's error and ends
      where its exchange ends. */
  lemma WriteRejected(t: TState, address: int, value: int, verify: bool)
    requires 0 <= address <= 0xFF && 0 <= value <= 0xFFFF
    requires CommandPlain(WriteFrame(address, value))
    requires var line := Exchange(t, WriteFrame(address, value)).0;
      line.Ok? && ParseWriteResponse(address, line.value).Err?
    ensures var (line, t2) := Exchange(t, WriteFrame(address, value));
      Write16(t, address, value, verify) == (Err(ParseWriteResponse(address, line.value).error), t2)
  {
    FramesPlain(address, value);
    var (line, t2) := Exchange(t, WriteFrame(address, value));
    var parsed := ParseWriteResponse(address, line.value);
  }

  /** The arm reply `PR\nW8BOK` is not in the write grammar. */
  lemma ArmReplyMalformed()
    ensures ParseWriteResponse(ArmAddress, "PR\nW" + Fixed(ArmAddress, 2) + "OK") == Err(MalformedResponse)
  {
    var reply := "PR\nW" + Fixed(ArmAddress, 2) + "OK";
    assert reply[0] == 'P' && reply[|reply| - 1] == 'K';
  }

  // ---------------------------------------------------------------------------
  // A bare E1 reply

  /** As written, `E1`, `E1R` and `E1W` without address digits raise TypeError
      instead of a register error; as intended they are register errors with no
      address. */
  lemma BareRegisterErrorAsWritten()
    ensures CheckErrorAsWritten("E1") == Some(NoneFormatError)
    ensures CheckErrorAsWritten("E1R") == Some(NoneFormatError)
    ensures CheckErrorAsWritten("E1W") == Some(NoneFormatError)
    ensures CheckError("E1") == Some(RegisterError(Write, None))
    ensures CheckError("E1R") == Some(RegisterError(Read, None))
    ensures CheckError("E1W") == Some(RegisterError(Write, None))
  {
    assert Chomp("E1") == "E1" && Chomp("E1R") == "E1R" && Chomp("E1W") == "E1W";
    assert "E1R"[2..] == "R" && "E1W"[2..] == "W";
  }

  /** The two agree on every reply that gives an address, and on every `E0`. */
  lemma CheckErrorAgrees(response: string)
    requires MatchError(response).None? || MatchError(response).value.code == '0' || MatchError(response).value.address.Some?
    ensures CheckErrorAsWritten(response) == CheckError(response)
  {
  }

  // ---------------------------------------------------------------------------
  // The protocol object

  class ZebraProtocol {
    const transport: ZebraTransport

    constructor(transport: ZebraTransport)
      ensures this.transport == transport
    {
      this.transport := transport;
    }

    /** `read_register`. */
    method ReadRegister(address: int) returns (r: Result<nat>)
      modifies transport, transport.simulator
      ensures transport.simulator == old(transport.simulator)
      ensures (r, transport.State()) == Read16(old(transport.State()), address)
    {
      if !(0 <= address <= 0xFF) {
        return Err(AddressOutOfRange);
      }
      var command := "R" + Format(address, 2);
      FramesPlain(address, 0);
      var sent := transport.WriteLine(command);
      if sent.Err? {
        return Err(sent.error);
      }
      var response := transport.ReadLine();
      if response.Err? {
        return Err(response.error);
      }
      r := ParseReadResponse(address, response.value);
    }

    /** `write_register`. */
    method WriteRegister(address: int, value: int, verify: bool) returns (r: Result<nat>)
      modifies transport, transport.simulator
      ensures transport.simulator == old(transport.simulator)
      ensures (r, transport.State()) == Write16(old(transport.State()), address, value, verify)
    {
      if !(0 <= address <= 0xFF) {
        return Err(AddressOutOfRange);
      }
      if !(0 <= value <= 0xFFFF) {
        return Err(ValueOutOfRange);
      }
      var command := "W" + Format(address, 2) + Format(value, 4);
      FramesPlain(address, value);
      var sent := transport.WriteLine(command);
      if sent.Err? {
        return Err(sent.error);
      }
      var response := transport.ReadLine();
      if response.Err? {
        return Err(response.error);
      }
      var parsed := ParseWriteResponse(address, response.value);
      if parsed.Err? {
        return Err(parsed.error);
      }
      if verify {
        r := ReadRegister(address);
        return;
      }
      return Ok(value);
    }

    /** `read_register_32bit`. */
    method ReadRegister32(addressLo: int, addressHi: int) returns (r: Result<nat>)
      modifies transport, transport.simulator
      ensures transport.simulator == old(transport.simulator)
      ensures (r, transport.State()) == Read32(old(transport.State()), addressLo, addressHi)
    {
      ghost var before := transport.State();
      var lo := ReadRegister(addressLo);
      if lo.Err? {
        Read32LoFails(before, addressLo, addressHi);
        return Err(lo.error);
      }
      ghost var between := transport.State();
      var hi := ReadRegister(addressHi);
      assert (hi, transport.State()) == Read16(between, addressHi);
      assert between == Read16(before, addressLo).1;
      if hi.Err? {
        Read32HiFails(before, addressLo, addressHi);
        return Err(hi.error);
      }
      Read32Joins(before, addressLo, addressHi);
      Read32Continues(before, addressLo, addressHi);
      assert lo == Read16(before, addressLo).0;
      // (hi << 16) | lo, with lo below 0x10000
      var value := hi.value * 0x10000 + lo.value;
      assert Read32(before, addressLo, addressHi).0.value == value;
      return Ok(value);
    }

    /** `write_register_32bit`. */
    method WriteRegister32(addressLo: int, addressHi: int, value: int, verify: bool) returns (r: Result<nat>)
      modifies transport, transport.simulator
      ensures transport.simulator == old(transport.simulator)
      ensures (r, transport.State()) == Write32(old(transport.State()), addressLo, addressHi, value, verify)
    {
      if !(0 <= value <= 0xFFFF_FFFF) {
        return Err(ValueOutOfRange);
      }
      var lo := value % 0x10000;             // value & 0xFFFF
      var hi := (value / 0x10000) % 0x10000; // (value >> 16) & 0xFFFF
      var wroteLo := WriteRegister(addressLo, lo, false);
      if wroteLo.Err? {
        return Err(wroteLo.error);
      }
      var wroteHi := WriteRegister(addressHi, hi, false);
      if wroteHi.Err? {
        return Err(wroteHi.error);
      }
      if verify {
        r := ReadRegister32(addressLo, addressHi);
        return;
      }
      return Ok(value);
    }

    /** `flash_command`. */
    method FlashCommand(command: string) returns (r: Result<()>)
      modifies transport, transport.simulator
      ensures transport.simulator == old(transport.simulator)
      ensures (r, transport.State()) == Flash(old(transport.State()), command)
    {
      if command != "S" && command != "L" {
        return Err(InvalidFlashCommand);
      }
      FlashPlain(command);
      var sent := transport.WriteLine(command);
      if sent.Err? {
        return Err(sent.error);
      }
      var response := transport.ReadLine();
      if response.Err? {
        return Err(response.error);
      }
      if response.value != command + "OK" {
        var error := CheckError(response.value);
        if error.Some? {
          return Err(error.value);
        }
        return Err(MalformedResponse);
      }
      return Ok(());
    }
  }
}
