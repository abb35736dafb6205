/** The software Zebra behind a `sim://` port: a 256-entry memory of 16-bit
    registers, the position-compare arm state, and the builder of the `P...`
    capture frames it emits while armed. */
module Simulator {
  import opened Results
  import opened Numbers

  const ArmAddress := 0x8B        // PC_ARM
  const DisarmAddress := 0x8C     // PC_DISARM
  const BitCapAddress := 0x9F     // PC_BIT_CAP
  const NumCapLoAddress := 0xF6   // PC_NUM_CAPLO
  const NumCapHiAddress := 0xF7   // PC_NUM_CAPHI

  /** Memory after power-up or reset: every address 0..255 holds 0 except the
      firmware version (0xF0 = 0x0020) and the timestamp prescaler (0x89 = 5). */
  function InitialMemory(): map<int, nat> {
    Zeroes(256)[0xF0 := 0x0020][0xF1 := 0][0x89 := 5]
  }

  /** Addresses `0..n-1`, each holding 0. */
  function Zeroes(n: nat): (m: map<int, nat>)
    ensures forall a :: a in m <==> 0 <= a < n
    ensures forall a :: a in m ==> m[a] == 0
  {
    if n == 0 then map[] else Zeroes(n - 1)[n - 1 := 0]
  }

  /** The simulator's state as a value. */
  datatype SimState = SimState(memory: map<int, nat>, armed: bool, counter: nat, hasSendCallback: bool)

  /** What every reachable state satisfies: exactly the addresses 0..255, each
      holding a 16-bit value. */
  ghost predicate Valid(s: SimState) {
    (forall a :: a in s.memory <==> 0 <= a < 256) &&
    (forall a :: a in s.memory ==> s.memory[a] < 0x10000)
  }

  /** Commands on which Python's `int(_, 16)` is decided by hex digits and an optional
      `0x` prefix alone: the address and value fields of a read or write are plain. */
  predicate CommandPlain(command: string) {
    var c := Strip(command);
    (|c| == 3 && c[0] == 'R' ==> PlainText(c[1..3])) &&
    (|c| == 7 && c[0] == 'W' ==> PlainText(c[1..3]) && PlainText(c[3..7]))
  }

  // ---------------------------------------------------------------------------
  // Command processing, as a function of the state

  /** `process_command`: the new state and the reply to one command line. */
  function Process(s: SimState, command: string): (SimState, string)
    requires CommandPlain(command)
  {
    Dispatch(s, Strip(command))
  }

  /** The reply to a stripped command. */
  function Dispatch(s: SimState, c: string): (SimState, string)
    requires |c| == 3 && c[0] == 'R' ==> PlainText(c[1..3])
    requires |c| == 7 && c[0] == 'W' ==> PlainText(c[1..3]) && PlainText(c[3..7])
  {
    if c == "S" then (s, "SOK")
    else if c == "L" then (s, "LOK")
    else if |c| == 3 && c[0] == 'R' then (s, ReadReg(s, c))
    else if |c| == 7 && c[0] == 'W' then WriteReg(s, c)
    else (s, "E0")
  }

  /** `R<AA>`: the reply to a read of the address spelled `AA`. */
  function ReadReg(s: SimState, c: string): string
    requires |c| == 3 && c[0] == 'R' && PlainText(c[1..3])
  {
    match ParseInt(c[1..3])
    case None => "E0"
    case Some(a) =>
      if a in s.memory then "R" + Format(a, 2) + Format(s.memory[a], 4)
      else "E1R" + Format(a, 2)
  }

  /** `W<AA><VVVV>`: the new state and the reply to a write. */
  function WriteReg(s: SimState, c: string): (SimState, string)
    requires |c| == 7 && c[0] == 'W' && PlainText(c[1..3]) && PlainText(c[3..7])
  {
    var addr, value := ParseInt(c[1..3]), ParseInt(c[3..7]);
    if addr.None? || value.None? then (s, "E0")
    else if addr.value !in s.memory then (s, "E1W" + Format(addr.value, 2))
    else Store(s, addr.value, value.value)
  }

  /** A write that found its address: store the value, then arm or disarm. */
  function Store(s: SimState, a: nat, v: nat): (SimState, string) {
    var s' := s.(memory := s.memory[a := v]);
    var ack := "W" + Format(a, 2) + "OK";
    if a == ArmAddress && v == 1 then (s'.(armed := true, counter := 0), "PR\n" + ack)
    else if a == DisarmAddress && v == 1 then (s'.(armed := false), "PX\n" + ack)
    else (s', ack)
  }

  // ---------------------------------------------------------------------------
  // Capture frames

  /** The value reported for capture bit `bit` on frame number `counter`: encoders
      count up by 100 per frame plus `noise`, masked to 32 bits; the system bus
      words are the random draws `bus`; dividers count up by 10 per frame. */
  function Sample(counter: nat, bit: nat, noise: seq<int>, bus: seq<nat>): (v: nat)
    requires bit < 10 && |noise| == 4 && |bus| == 2
    requires forall i :: 0 <= i < 2 ==> bus[i] < Word
    ensures v < Word
  {
    if bit < 4 then (counter * 100 + noise[bit]) % Word
    else if bit < 6 then bus[bit - 4]
    else (counter * 10) % Word
  }

  /** The same value as the simulator computes it: divider counts are not masked. */
  function SampleAsWritten(counter: nat, bit: nat, noise: seq<int>, bus: seq<nat>): nat
    requires bit < 10 && |noise| == 4 && |bus| == 2
  {
    if bit < 4 then (counter * 100 + noise[bit]) % Word
    else if bit < 6 then bus[bit - 4]
    else counter * 10
  }

  function Samples(counter: nat, noise: seq<int>, bus: seq<nat>): (vs: seq<nat>)
    requires |noise| == 4 && |bus| == 2
    requires forall i :: 0 <= i < 2 ==> bus[i] < Word
    ensures |vs| == 10 && forall b :: 0 <= b < 10 ==> vs[b] < Word
  {
    seq(10, b requires 0 <= b < 10 => Sample(counter, b, noise, bus))
  }

  function SamplesAsWritten(counter: nat, noise: seq<int>, bus: seq<nat>): (vs: seq<nat>)
    requires |noise| == 4 && |bus| == 2
    ensures |vs| == 10
  {
    seq(10, b requires 0 <= b < 10 => SampleAsWritten(counter, b, noise, bus))
  }

  /** The 8-digit fields for the capture bits below `n` that are set in `bitCap`,
      in bit order. */
  function FieldsText(bitCap: int, values: seq<nat>, n: nat): string
    requires n <= |values|
  {
    if n == 0 then []
    else FieldsText(bitCap, values, n - 1) + (if BitSet(bitCap, n - 1) then Format(values[n - 1], 8) else [])
  }

  /** The timestamp field of frame number `counter`, kept to 32 bits. */
  function Timestamp(counter: nat): (t: nat)
    ensures t < Word
  {
    (counter * 50) % Word
  }

  /** A capture frame: `P`, the 8-digit timestamp, then the fields. */
  function Frame(timestamp: nat, bitCap: int, values: seq<nat>): string
    requires |values| == 10
  {
    "P" + Format(timestamp, 8) + FieldsText(bitCap, values, 10)
  }

  /** The frame the simulator builds for frame number `counter`, with its unmasked
      timestamp and divider counts. */
  function FrameAsWritten(counter: nat, bitCap: int, noise: seq<int>, bus: seq<nat>): string
    requires |noise| == 4 && |bus| == 2
  {
    Frame(counter * 50, bitCap, SamplesAsWritten(counter, noise, bus))
  }

  /** `memory.get(0x9F, 0)`. */
  function BitCap(s: SimState): int {
    if BitCapAddress in s.memory then s.memory[BitCapAddress] else 0
  }

  /** One pass of the generation loop while armed: the frame it sends (if a send
      callback is set) and the state after the counter update. */
  function Generate(s: SimState, noise: seq<int>, bus: seq<nat>): (Option<string>, SimState)
    requires |noise| == 4 && |bus| == 2
    requires forall i :: 0 <= i < 2 ==> bus[i] < Word
  {
    if !s.armed then (None, s)
    else
      var frame := Frame(Timestamp(s.counter), BitCap(s), Samples(s.counter, noise, bus));
      var c := s.counter + 1;
      var s' := s.(counter := c,
                   memory := s.memory[NumCapLoAddress := c % 0x10000][NumCapHiAddress := (c / 0x10000) % 0x10000]);
      (if s.hasSendCallback then Some(frame) else None, s')
  }

  /** The frame-building loop of `_generate_position_compare`: the timestamp, then
      one 8-digit field for each capture bit 0..9 set in `bitCap`, taking the value
      of bit `b` from `values[b]`. */
  method BuildFrame(timestamp: nat, bitCap: int, values: seq<nat>) returns (message: string)
    requires |values| == 10
    ensures message == Frame(timestamp, bitCap, values)
  {
    var header := "P" + Format(timestamp, 8);
    message := header;
    for bit := 0 to 10
      invariant message == header + FieldsText(bitCap, values, bit)
    {
      ghost var done := FieldsText(bitCap, values, bit);
      if BitSet(bitCap, bit) {
        var field := Format(values[bit], 8);
        assert FieldsText(bitCap, values, bit + 1) == done + field;
        assert header + done + field == header + (done + field);
        message := message + field;
      } else {
        assert FieldsText(bitCap, values, bit + 1) == done + [];
      }
    }
  }

  /** Updating a merged map is updating its right-hand part. */
  lemma MergeUpdate(m: map<int, nat>, n: map<int, nat>, k: int, v: nat)
    ensures (m + n)[k := v] == m + n[k := v]
  {
  }

  // ---------------------------------------------------------------------------
  // Properties of the command processor

  /** After power-up every address 0..255 holds 0 except 0xF0 = 0x0020, 0xF1 = 0 and
      0x89 = 5, and the state is valid. */
  lemma InitialMemoryValues()
    ensures forall a :: a in InitialMemory() <==> 0 <= a < 256
    ensures forall a :: 0 <= a < 256 ==>
      InitialMemory()[a] == (if a == 0xF0 then 0x20 else if a == 0x89 then 5 else 0)
    ensures Valid(SimState(InitialMemory(), false, 0, false))
  {
  }

  /** On a valid state `reset` restores exactly the power-up memory. */
  lemma ResetMemory(s: SimState)
    requires Valid(s)
    ensures s.memory + InitialMemory() == InitialMemory()
  {
    InitialMemoryValues();
  }

  /** A command with no whitespace and no sign is processed as it stands. */
  lemma PlainCommand(command: string)
    requires PlainText(command)
    ensures Strip(command) == command && CommandPlain(command)
  {
  }

  /** ... and is therefore dispatched as it stands. */
  lemma ProcessPlain(s: SimState, command: string)
    requires PlainText(command)
    ensures CommandPlain(command) && Process(s, command) == Dispatch(s, command)
  {
    PlainCommand(command);
  }

  /** Every command keeps the state valid. */
  lemma ProcessKeepsValid(s: SimState, command: string)
    requires Valid(s) && CommandPlain(command)
    ensures Valid(Process(s, command).0)
  {
    DispatchKeepsValid(s, Strip(command));
  }

  lemma DispatchKeepsValid(s: SimState, c: string)
    requires Valid(s)
    requires |c| == 3 && c[0] == 'R' ==> PlainText(c[1..3])
    requires |c| == 7 && c[0] == 'W' ==> PlainText(c[1..3]) && PlainText(c[3..7])
    ensures Valid(Dispatch(s, c).0)
  {
    if |c| == 7 && c[0] == 'W' {
      var value := ParseInt(c[3..7]);
      if value.Some? {
        assert value.value < Pow16(4);
      }
    }
  }

  /** `S` and `L` are acknowledged with `SOK` and `LOK` and change nothing. */
  lemma FlashReplies(s: SimState)
    ensures Process(s, "S") == (s, "SOK") && Process(s, "L") == (s, "LOK")
  {
    ProcessPlain(s, "S");
    ProcessPlain(s, "L");
  }

  /** A valid simulator never reports a register error: every address a two-digit
      field can name is in memory. */
  lemma NoRegisterErrors(s: SimState, command: string)
    requires Valid(s) && CommandPlain(command)
    ensures var r := Process(s, command).1; !(|r| >= 2 && r[0] == 'E' && r[1] == '1')
  {
    var c := Strip(command);
    if |c| == 3 && c[0] == 'R' {
      ReadRegNoError(s, c);
    } else if |c| == 7 && c[0] == 'W' {
      WriteRegNoError(s, c);
    }
  }

  lemma ReadRegNoError(s: SimState, c: string)
    requires Valid(s) && |c| == 3 && c[0] == 'R' && PlainText(c[1..3])
    ensures var r := ReadReg(s, c); !(|r| >= 2 && r[0] == 'E' && r[1] == '1')
  {
    var a := ParseInt(c[1..3]);
    if a.Some? {
      assert a.value < Pow16(2) == 256;
    }
  }

  lemma WriteRegNoError(s: SimState, c: string)
    requires Valid(s) && |c| == 7 && c[0] == 'W' && PlainText(c[1..3]) && PlainText(c[3..7])
    ensures var r := WriteReg(s, c).1; !(|r| >= 2 && r[0] == 'E' && r[1] == '1')
  {
    var a := ParseInt(c[1..3]);
    if a.Some? {
      assert a.value < Pow16(2) == 256;
    }
  }

  /** `R<AA>` (either case) is answered with the address and the register value in
      upper-case hex, and changes nothing. */
  lemma ReadReply(s: SimState, command: string)
    requires Valid(s) && |command| == 3 && command[0] == 'R' && AllHex(command[1..3])
    ensures CommandPlain(command)
    ensures var a := HexValue(command[1..3]);
      a < 256 && Process(s, command) == (s, "R" + Fixed(a, 2) + Fixed(s.memory[a], 4))
  {
    assert PlainText(command);
    ProcessPlain(s, command);
    assert Pow16(2) == 256 && Pow16(4) == 0x10000;
  }

  /** A well-formed write names an address in memory and a 16-bit value, and is
      handled by `Store`. */
  lemma WriteDispatch(s: SimState, c: string)
    requires Valid(s) && PlainText(c) && |c| == 7 && c[0] == 'W'
    requires ParseInt(c[1..3]).Some? && ParseInt(c[3..7]).Some?
    ensures var a, v := ParseInt(c[1..3]).value, ParseInt(c[3..7]).value;
      a < 256 && v < 0x10000 && Dispatch(s, c) == Store(s, a, v)
  {
    assert Pow16(2) == 256 && Pow16(4) == 0x10000;
  }

  /** Storing changes the one address, arms on 1 to 0x8B and disarms on 1 to 0x8C
      (announcing `PR` / `PX` first), and is acknowledged with `W<AA>OK`. */
  lemma StoreEffects(s: SimState, a: nat, v: nat)
    requires a < 256
    ensures var (s', r) := Store(s, a, v);
      && s'.memory == s.memory[a := v]
      && s'.hasSendCallback == s.hasSendCallback
      && (if a == ArmAddress && v == 1 then s'.armed && s'.counter == 0 && r == "PR\nW" + Fixed(a, 2) + "OK"
          else if a == DisarmAddress && v == 1 then !s'.armed && s'.counter == s.counter && r == "PX\nW" + Fixed(a, 2) + "OK"
          else s'.armed == s.armed && s'.counter == s.counter && r == "W" + Fixed(a, 2) + "OK")
  {
    assert Pow16(2) == 256;
  }

  /** `W<AA><VVVV>` stores the value at that address and nothing else, arms on 1 to
      0x8B and disarms on 1 to 0x8C (announcing `PR` / `PX` first), and is
      acknowledged with `W<AA>OK`. */
  lemma WriteReply(s: SimState, command: string)
    requires Valid(s) && PlainText(command) && |command| == 7 && command[0] == 'W'
    requires ParseInt(command[1..3]).Some? && ParseInt(command[3..7]).Some?
    ensures CommandPlain(command)
    ensures var a, v := ParseInt(command[1..3]).value, ParseInt(command[3..7]).value;
      var (s', r) := Process(s, command);
      && a < 256 && v < 0x10000
      && s'.memory == s.memory[a := v]
      && s'.hasSendCallback == s.hasSendCallback
      && (if a == ArmAddress && v == 1 then s'.armed && s'.counter == 0 && r == "PR\nW" + Fixed(a, 2) + "OK"
          else if a == DisarmAddress && v == 1 then !s'.armed && s'.counter == s.counter && r == "PX\nW" + Fixed(a, 2) + "OK"
          else s'.armed == s.armed && s'.counter == s.counter && r == "W" + Fixed(a, 2) + "OK")
  {
    ProcessPlain(s, command);
    WriteDispatch(s, command);
    StoreEffects(s, ParseInt(command[1..3]).value, ParseInt(command[3..7]).value);
  }

  /** Anything that is not `S`, `L`, a 3-character `R...` or a 7-character `W...`
      (after stripping whitespace) is answered with `E0` and changes nothing. */
  lemma UnknownCommand(s: SimState, command: string)
    requires CommandPlain(command)
    requires var c := Strip(command);
      c != "S" && c != "L" && !(|c| == 3 && c[0] == 'R') && !(|c| == 7 && c[0] == 'W')
    ensures Process(s, command) == (s, "E0")
  {
  }

  // ---------------------------------------------------------------------------
  // Properties of frame generation

  /** One generation pass while armed counts the frame and publishes the new count
      in 0xF6 / 0xF7, whose recombination is the count modulo 2^32; a disarmed
      simulator sends nothing and changes nothing. */
  lemma GenerateCounts(s: SimState, noise: seq<int>, bus: seq<nat>)
    requires Valid(s) && |noise| == 4 && |bus| == 2
    requires forall i :: 0 <= i < 2 ==> bus[i] < Word
    ensures var (sent, s') := Generate(s, noise, bus);
      && Valid(s')
      && (!s.armed ==> sent == None && s' == s)
      && (s.armed ==>
            && s'.counter == s.counter + 1
            && s'.memory[NumCapHiAddress] * 0x10000 + s'.memory[NumCapLoAddress] == s'.counter % Word
            && (forall a :: a in s.memory && a != NumCapLoAddress && a != NumCapHiAddress ==> s'.memory[a] == s.memory[a])
            && (sent.Some? <==> s.hasSendCallback))
  {
    SplitHalves(s.counter + 1);
  }

  /** Each set capture bit below `n` contributes one 8-digit field. */
  lemma {:induction false} FieldsTextLength(bitCap: int, values: seq<nat>, n: nat)
    requires n <= |values|
    requires forall b :: 0 <= b < |values| ==> values[b] < Word
    ensures |FieldsText(bitCap, values, n)| == 8 * SetBitsBelow(bitCap, n)
  {
    if n > 0 {
      FieldsTextLength(bitCap, values, n - 1);
      if BitSet(bitCap, n - 1) {
        FormatRoundTrip(values[n - 1], 8);
      }
    }
  }

  // ---------------------------------------------------------------------------
  // The simulator object

  class ZebraSimulator {
    var memory: map<int, nat>
    var armed: bool
    var counter: nat
    var hasSendCallback: bool

    function State(): SimState
      reads this
    {
      SimState(memory, armed, counter, hasSendCallback)
    }

    constructor()
      ensures State() == SimState(InitialMemory(), false, 0, false)
    {
      var m: map<int, nat> := map[];
      var addr := 0;
      while addr < 256
        invariant 0 <= addr <= 256
        invariant m == Zeroes(addr)
      {
        m := m[addr := 0];
        addr := addr + 1;
      }
      m := m[0xF0 := 0x0020][0xF1 := 0][0x89 := 5];
      memory := m;
      armed := false;
      counter := 0;
      hasSendCallback := false;
      new;
      assert memory == InitialMemory();
    }

    /** `set_send_callback`. */
    method SetSendCallback()
      modifies this
      ensures State() == old(State()).(hasSendCallback := true)
    {
      hasSendCallback := true;
    }

    /** `process_command`. */
    method ProcessCommand(command: string) returns (response: string)
      requires CommandPlain(command)
      modifies this
      ensures (State(), response) == Process(old(State()), command)
    {
      var c := Strip(command);
      assert Process(State(), command) == Dispatch(State(), c);
      if c == "S" {
        return "SOK";
      }
      if c == "L" {
        return "LOK";
      }
      if |c| == 3 && c[0] == 'R' {
        var addr := ParseInt(c[1..3]);
        if addr.None? {
          return "E0";
        }
        if addr.value in memory {
          return "R" + Format(addr.value, 2) + Format(memory[addr.value], 4);
        }
        return "E1R" + Format(addr.value, 2);
      }
      if |c| == 7 && c[0] == 'W' {
        var addr := ParseInt(c[1..3]);
        var value := ParseInt(c[3..7]);
        if addr.None? || value.None? {
          return "E0";
        }
        var a, v := addr.value, value.value;
        if a !in memory {
          return "E1W" + Format(a, 2);
        }
        memory := memory[a := v];
        response := "";
        if a == ArmAddress && v == 1 {
          armed := true;
          counter := 0;
          response := "PR\n";
        } else if a == DisarmAddress && v == 1 {
          armed := false;
          response := "PX\n";
        }
        var ack := "W" + Format(a, 2) + "OK";
        assert Dispatch(old(State()), c) == Store(old(State()), a, v);
        assert State() == Store(old(State()), a, v).0;
        assert response + ack == Store(old(State()), a, v).1;
        return response + ack;
      }
      return "E0";
    }

    /** `reset`: disarm, zero the counter and restore the power-up memory. */
    method Reset()
      modifies this
      ensures State() == old(State()).(memory := old(memory) + InitialMemory(), armed := false, counter := 0)
    {
      armed := false;
      counter := 0;
      var addr := 0;
      while addr < 256
        invariant 0 <= addr <= 256
        invariant memory == old(memory) + Zeroes(addr)
        invariant armed == false && counter == 0 && hasSendCallback == old(hasSendCallback)
      {
        MergeUpdate(old(memory), Zeroes(addr), addr, 0);
        memory := memory[addr := 0];
        addr := addr + 1;
      }
      MergeUpdate(old(memory), Zeroes(256), 0xF0, 0x0020);
      memory := memory[0xF0 := 0x0020];
      MergeUpdate(old(memory), Zeroes(256)[0xF0 := 0x0020], 0xF1, 0);
      memory := memory[0xF1 := 0];
      MergeUpdate(old(memory), Zeroes(256)[0xF0 := 0x0020][0xF1 := 0], 0x89, 5);
      memory := memory[0x89 := 5];
    }

    /** One pass of the loop in `_generate_position_compare`: while armed, build the
        frame, hand it to the send callback, count it and publish the count in
        PC_NUM_CAPLO/HI. `noise` and `bus` are the random draws. */
    method GeneratePositionCompare(noise: seq<int>, bus: seq<nat>) returns (sent: Option<string>)
      requires |noise| == 4 && (forall i :: 0 <= i < 4 ==> -10 <= noise[i] <= 10)
      requires |bus| == 2 && (forall i :: 0 <= i < 2 ==> bus[i] < Word)
      modifies this
      ensures (sent, State()) == Generate(old(State()), noise, bus)
    {
      if !armed {
        return None;
      }
      ghost var before := State();
      var bitCap := if BitCapAddress in memory then memory[BitCapAddress] else 0;
      assert bitCap == BitCap(before);
      var message := BuildFrame(Timestamp(counter), bitCap, Samples(counter, noise, bus));
      sent := if hasSendCallback then Some(message) else None;
      counter := counter + 1;
      memory := memory[NumCapLoAddress := counter % 0x10000];
      memory := memory[NumCapHiAddress := (counter / 0x10000) % 0x10000];
      assert sent == Generate(before, noise, bus).0;
      assert State() == Generate(before, noise, bus).1;
    }
  }
}
