# Zebra serial protocol stack, modelled in Dafny

This project models the core of `fastcs_zebra`, the control stack for the Zebra
position-compare and logic box, and proves properties of it. The model has five
layers, and each keeps the form of the Python module it models.

- **Protocol engine** (`protocol.dfy`, module `Protocol`). It formats the
  request frames `R<AA>`, `W<AA><VVVV>`, `S` and `L`. It parses replies against
  the read, write and error grammars and checks that the echoed address matches
  the one requested. The 32-bit operations are built from 16-bit reads and
  writes. The parsers are pure functions. Each public operation is a method of
  the class `ZebraProtocol`, and its contract ties the result and the new
  transport state to a specification function (`Read16`, `Write16`, `Read32`,
  `Write32`, `Flash`) over the transport state.
- **Interrupt decoder** (`interrupts.dfy`, module `Interrupts`). It classifies
  `PR`, `PX` and `P<TTTTTTTT>...` lines. It decodes the data fields selected by
  the capture mask, reading encoder fields as signed 32-bit values, and
  dispatches to three observer lists. The class `InterruptHandler` holds the
  mask and the lists. Its field-parsing loop keeps the mutable offset of the
  source.
- **Device simulator** (`simulator.dfy`, module `Simulator`). It is a 256-entry
  register memory with an arm/disarm state machine and the `process_command`
  reply logic. It also models one pass of the capture-frame generator, whose
  random values become parameters. The class `ZebraSimulator` updates its
  memory map in place. The frame is built by a loop over the capture bits, as in
  the source.
- **Transport** (`transport.dfy`, module `Transport`). It models the
  connect/disconnect state machine, the simulation-mode receive queue (first in,
  first out) and the "not connected" errors. On the serial port it models only
  the line feed added on write and stripped on read.
- **Register catalogue** (`registers.dfy`, module `Registers`). It covers the
  16-bit register table, the 32-bit LO/HI pairs and the 64 system-bus signals,
  with their lookups and type predicates.

`numbers.dfy` holds the hex and bit conventions of the wire format, as Python
spells them. `results.dfy` holds the shared `Option`, `Result` and `Error`
types. `roundtrip.dfy` connects the simulator to the decoder: a frame the armed
simulator generates reaches the data observers with the values it was built
from.

The model also shows how the layers interact.

- Arming the simulator by writing 1 to `PC_ARM` queues `PR\nW8BOK` as one line.
  The write parser rejects that line as malformed (`Protocol.ArmWriteMalformed`).
- A capture mask with bits set above bit 9 makes every generated frame fail the
  decoder's length check. The simulator emits fields only for bits 0 to 9, but
  the decoder counts every set bit (`RoundTrip.HighMaskBitsMismatch`).

## Model

| member | source | states |
|---|---|---|
| Numbers.ParseInt | src/fastcs_zebra/simulator.py:77-92 | `int(s, 16)` on plain text succeeds iff `s` is hex digits (either case), optionally after a `0x`/`0X` prefix; the value is below 16 to the power of the length of `s` |
| Numbers.ParseIntHex | src/fastcs_zebra/protocol.py:256-258 | on bare hex digits `int(_, 16)` returns the value of the digits |
| Numbers.Format | src/fastcs_zebra/protocol.py:86 | `f"{v:0{w}X}"` has at least `w` characters and is exactly the last `w` digits when `v` fits in `w` digits |
| Numbers.FormatRoundTrip | src/fastcs_zebra/protocol.py:122 | a value that fits in `w` digits prints as exactly `w` upper-case hex digits that read back as the value |
| Numbers.HexValueFixed | src/fastcs_zebra/simulator.py:81 | printing a value in `w` digits and reading it back gives the value |
| Numbers.FixedHexValue | src/fastcs_zebra/simulator.py:77-81 | reading upper-case digits and printing as many digits gives the text back |
| Numbers.HexValueInjective | src/fastcs_zebra/protocol.py:256-264 | two upper-case hex strings of equal length with equal values are equal |
| Numbers.Strip | src/fastcs_zebra/simulator.py:60 | `strip()` leaves no whitespace at either end and leaves text without whitespace unchanged |
| Numbers.StripCharacterised | src/fastcs_zebra/simulator.py:60 | a text is the result of `strip()` iff it is a slice of the input with only whitespace before and after it whose first and last characters are not whitespace |
| Numbers.Chomp | src/fastcs_zebra/protocol.py:55-57 | a regex `$` sees the line without one final line feed, and the line itself otherwise |
| Numbers.RStripNewlines | src/fastcs_zebra/transport.py:198 | `rstrip("\n")` removes exactly the trailing line feeds: a prefix, not ending in a line feed, with only line feeds after it |
| Numbers.Slice | src/fastcs_zebra/interrupts.py:224 | a Python slice is the substring when in range, empty past the end, never longer than asked |
| Numbers.SplitHalves | src/fastcs_zebra/protocol.py:189-190 | `(c >> 16) & 0xFFFF` and `c & 0xFFFF` recombine to `c mod 2^32` |
| Numbers.ToSigned32 | src/fastcs_zebra/interrupts.py:231-236 | the two's complement reading lies in -2^31..2^31-1 and agrees with the unsigned value modulo 2^32 |
| Numbers.PopcountBelow | src/fastcs_zebra/interrupts.py:195-196 | `bin(x).count("1")` for `x < 2^b` counts exactly the set bits below `b` |
| Registers.NewRegister | src/fastcs_zebra/registers.py:49-54 | a register is built iff its address is in 0..0xFF, keeping its fields; otherwise the address error |
| Registers.NewRegister32 | src/fastcs_zebra/registers.py:75-80 | a pair is built iff both addresses are in 0..0xFF; the LO address is checked first |
| Registers.RegisterRunsDense | src/fastcs_zebra/registers.py:213-446 | within each run of the 16-bit table addresses count up by one and names are distinct |
| Registers.RegisterRunsDisjoint | src/fastcs_zebra/registers.py:213-446 | no run shares a name with an earlier run |
| Registers.RegisterRunsOrdered | src/fastcs_zebra/registers.py:213-446 | each run starts at or after the end of the previous one |
| Registers.RegisterRunsWellFormed | src/fastcs_zebra/registers.py:213-446 | the three facts above hold together for the whole table |
| Registers.CatalogueWellFormed | src/fastcs_zebra/registers.py:213-446 | every register passes its address check; addresses increase; no two registers share an address or a name |
| Registers.LastNamed | src/fastcs_zebra/registers.py:493 | the dictionary by name maps a name to its last entry in the table, and lacks names not in it |
| Registers.LastAt | src/fastcs_zebra/registers.py:496 | the dictionary by address maps an address to its last entry, and lacks addresses not in the table |
| Registers.LastNamed32 | src/fastcs_zebra/registers.py:499-501 | the pair dictionary maps a name to its last pair, and lacks names not in the table |
| Registers.LastIndexOf | src/fastcs_zebra/registers.py:168-170 | the reverse signal dictionary maps a name to its last index, and lacks names not in the table |
| Registers.AddressMap | src/fastcs_zebra/registers.py:521-523 | lookup by address succeeds exactly on the four catalogued address ranges |
| Registers.GetRegisterFinds | src/fastcs_zebra/registers.py:504-523 | `get_register` succeeds iff some entry has the name or address, returns that entry, and otherwise raises KeyError |
| Registers.GetRegister32Finds | src/fastcs_zebra/registers.py:526-540 | `get_register_32bit` succeeds iff some pair has the name, returns that pair, and otherwise raises KeyError |
| Registers.PairNamesDistinct | src/fastcs_zebra/registers.py:453-485 | no two pairs share a name |
| Registers.PairsResolve | src/fastcs_zebra/registers.py:453-485 | every pair passes its constructor's checks and both its LO and HI addresses are catalogued 16-bit registers |
| Registers.PairAddressesInRange | src/fastcs_zebra/registers.py:453-485 | both addresses of every pair lie in the catalogued ranges |
| Registers.TypePredicates | src/fastcs_zebra/registers.py:571-607 | `is_mux_register`, `is_readonly_register` and `is_command_register` hold iff a catalogued register at that address has that type |
| Registers.OfType | src/fastcs_zebra/registers.py:554 | the filter keeps exactly the entries of the given type |
| Registers.OfType32 | src/fastcs_zebra/registers.py:568 | the pair filter keeps exactly the pairs of the given type |
| Registers.FilterIncreasing | src/fastcs_zebra/registers.py:554 | a list comprehension with a condition keeps the order of its input: a list increasing in a key stays increasing |
| Registers.OfTypeIncreasing | src/fastcs_zebra/registers.py:554 | filtering keeps the table order |
| Registers.PairsIncreasing | src/fastcs_zebra/registers.py:453-485 | the pair table is listed at increasing low addresses |
| Registers.OfType32Increasing | src/fastcs_zebra/registers.py:568 | filtering the pairs keeps the table order |
| Registers.GetAllRegistersFilters | src/fastcs_zebra/registers.py:543-554 | `get_all_registers(t)` holds exactly the entries of type `t`, in increasing address order; with no type it is the whole table |
| Registers.GetAllRegisters32Filters | src/fastcs_zebra/registers.py:557-568 | `get_all_registers_32bit(t)` holds exactly the pairs of type `t`, in table order (increasing low address); with no type it is every pair |
| Registers.OfType32Length | src/fastcs_zebra/registers.py:568 | the pair filter is no longer than its input |
| Registers.SignalRunsWellFormed | src/fastcs_zebra/registers.py:87-165 | the signal names in each group are distinct and share their leading letters, and groups with the same letters share no name |
| Registers.SignalTable | src/fastcs_zebra/registers.py:87-165 | there are 64 distinct signal names |
| Registers.SignalRoundTrip | src/fastcs_zebra/registers.py:173-187 | `signal_index_to_name` is defined exactly on 0..63, raises ValueError otherwise, and `signal_name_to_index` inverts it |
| Registers.SignalNameRoundTrip | src/fastcs_zebra/registers.py:190-204 | `signal_name_to_index` accepts exactly the table's names, raises ValueError otherwise, and `signal_index_to_name` inverts it |
| Registers.SignalExamples | src/fastcs_zebra/registers.py:87-165 | index 0 is DISCONNECT, 1 is IN1_TTL, 32 is AND1, 63 is SOFT_IN4, and CLOCK_1MHZ is 59 |
| Simulator.Zeroes | src/fastcs_zebra/simulator.py:26-28 | the memory built by the loop has exactly the addresses 0..n-1, each holding 0 |
| Simulator.InitialMemoryValues | src/fastcs_zebra/simulator.py:25-33 | after power-up the addresses are exactly 0..255, all 0 except 0xF0 = 0x0020, 0xF1 = 0 and 0x89 = 5, and the state is valid |
| Simulator.ZebraSimulator.constructor | src/fastcs_zebra/simulator.py:23-41 | a new simulator holds the power-up memory, is disarmed, has counter 0 and no send callback |
| Simulator.ZebraSimulator.SetSendCallback | src/fastcs_zebra/simulator.py:43-49 | only the send callback is set |
| Simulator.ZebraSimulator.ProcessCommand | src/fastcs_zebra/simulator.py:51-131 | the reply and the new state are those of `Process` on the old state |
| Simulator.PlainCommand | src/fastcs_zebra/simulator.py:60 | a command with no whitespace is processed as it stands |
| Simulator.ProcessPlain | src/fastcs_zebra/simulator.py:60-131 | such a command is dispatched unchanged |
| Simulator.ProcessKeepsValid | src/fastcs_zebra/simulator.py:51-131 | every command keeps memory at exactly the addresses 0..255, each holding a 16-bit value |
| Simulator.DispatchKeepsValid | src/fastcs_zebra/simulator.py:74-131 | every stripped command keeps the state valid |
| Simulator.FlashReplies | src/fastcs_zebra/simulator.py:63-72 | `S` is answered `SOK` and `L` `LOK`, with the state unchanged |
| Simulator.ReadReply | src/fastcs_zebra/simulator.py:75-81 | `R<AA>` (either case) is answered `R`, the address and the value in 4 upper-case hex digits, with the state unchanged |
| Simulator.NoRegisterErrors | src/fastcs_zebra/simulator.py:78-96 | a valid simulator never replies `E1...`: every two-digit address is in memory |
| Simulator.WriteDispatch | src/fastcs_zebra/simulator.py:89-98 | a well-formed write names an address below 256 and a 16-bit value |
| Simulator.StoreEffects | src/fastcs_zebra/simulator.py:98-124 | a store changes that one address; 1 to 0x8B arms and zeroes the counter with a `PR` prefix, 1 to 0x8C disarms with a `PX` prefix; the reply ends `W<AA>OK` |
| Simulator.WriteReply | src/fastcs_zebra/simulator.py:89-124 | `W<AA><VVVV>` stores the value at that address and nothing else, arms or disarms as above, and acknowledges |
| Simulator.UnknownCommand | src/fastcs_zebra/simulator.py:129-131 | anything but `S`, `L`, a 3-character `R...` or a 7-character `W...` is answered `E0`, with the state unchanged |
| Simulator.Sample | src/fastcs_zebra/simulator.py:145-158 | every field value fits in 32 bits |
| Simulator.Samples | src/fastcs_zebra/simulator.py:145-158 | there are ten values, each below 2^32 |
| Simulator.SamplesAsWritten | src/fastcs_zebra/simulator.py:145-158 | the unmasked values the source computes: ten of them |
| Simulator.Timestamp | src/fastcs_zebra/simulator.py:138 | the timestamp field is below 2^32 |
| Simulator.BuildFrame | src/fastcs_zebra/simulator.py:137-159 | the loop over bits 0..9 builds `P`, the 8-digit timestamp, and one 8-digit field per set capture bit |
| Simulator.FieldsTextLength | src/fastcs_zebra/simulator.py:144-159 | the fields take 8 characters per set capture bit below `n` |
| Simulator.GenerateCounts | src/fastcs_zebra/simulator.py:136-169 | while armed a pass counts the frame, stores the new count in 0xF6/0xF7 (which recombine to the count mod 2^32), changes no other address, and sends iff a callback is set; disarmed it does nothing |
| Simulator.ZebraSimulator.GeneratePositionCompare | src/fastcs_zebra/simulator.py:136-169 | the frame sent and the new state are those of `Generate` on the old state |
| Simulator.ZebraSimulator.Reset | src/fastcs_zebra/simulator.py:178-190 | disarms, zeroes the counter and restores the power-up memory |
| Simulator.ResetMemory | src/fastcs_zebra/simulator.py:185-190 | on a valid state the reset memory is exactly the power-up memory |
| Transport.InitialMode | src/fastcs_zebra/transport.py:33-54 | a new transport is in simulation mode iff its port starts with `sim://`; it starts disconnected and consistent |
| Transport.ConnectedIsFlag | src/fastcs_zebra/transport.py:121-127 | on a reachable state `connected` is the flag itself |
| Transport.ConnectConnects | src/fastcs_zebra/transport.py:56-98 | `connect` leaves the transport connected and is a no-op when already connected |
| Transport.DisconnectDisconnects | src/fastcs_zebra/transport.py:100-119 | `disconnect` leaves the transport disconnected and is a no-op when not connected |
| Transport.NotConnectedErrors | src/fastcs_zebra/transport.py:129-178 | writing and reading on a disconnected transport fail with "not connected" and change nothing |
| Transport.WriteLineKeepsInv | src/fastcs_zebra/transport.py:129-160 | `write_line` keeps the transport consistent |
| Transport.ReadLineKeepsInv | src/fastcs_zebra/transport.py:162-205 | `read_line` keeps the transport consistent |
| Transport.TickKeepsInv | src/fastcs_zebra/transport.py:76-80 | a generation pass feeding the queue keeps the transport consistent |
| Transport.SimulatedWrite | src/fastcs_zebra/transport.py:145-155 | in simulation mode the line is logged and processed, and the reply is queued iff it is non-empty |
| Transport.ReceiveFifo | src/fastcs_zebra/transport.py:184-189 | the receive queue is first in, first out |
| Transport.EmptyQueueTimesOut | src/fastcs_zebra/transport.py:189-205 | reading an empty queue times out and changes nothing |
| Transport.TickQueuesFrame | src/fastcs_zebra/transport.py:76-80 | frames the armed simulator generates join the same receive queue |
| Transport.SerialLines | src/fastcs_zebra/transport.py:156-198 | the serial port adds a line feed on write and strips trailing line feeds on read |
| Transport.ZebraTransport.constructor | src/fastcs_zebra/transport.py:33-54 | the state is the initial one for the port |
| Transport.ZebraTransport.Connect | src/fastcs_zebra/transport.py:56-98 | the new state is `Open` of the old; a fresh simulator only when one is started |
| Transport.ZebraTransport.Disconnect | src/fastcs_zebra/transport.py:100-119 | the new state is `Close` of the old; the simulator is dropped |
| Transport.ZebraTransport.WriteLine | src/fastcs_zebra/transport.py:129-160 | the result and new state are those of `Send` |
| Transport.ZebraTransport.ReadLine | src/fastcs_zebra/transport.py:162-205 | the result and new state are those of `Receive` |
| Transport.ZebraTransport.Tick | src/fastcs_zebra/transport.py:76-80 | the new state is `Pump` of the old |
| Protocol.MatchError | src/fastcs_zebra/protocol.py:57 | a match of the error grammar has code 0 or 1 and, when present, two upper-case hex address digits |
| Protocol.CheckError | src/fastcs_zebra/protocol.py:298-323 | an error reply is reported as malformed or as a register error |
| Protocol.ParseReadResponse | src/fastcs_zebra/protocol.py:235-267 | an accepted read reply gives a 16-bit value; a rejected reply that is not an error reply (another shape, or a wrong echoed address) is MalformedResponseError |
| Protocol.ParseWriteResponse | src/fastcs_zebra/protocol.py:269-294 | a rejected write reply that is not an error reply (another shape, or a wrong echoed address) is MalformedResponseError |
| Protocol.Read16 | src/fastcs_zebra/protocol.py:67-93 | an address outside 0..0xFF is rejected with the transport untouched; a result is 16-bit |
| Protocol.Write16 | src/fastcs_zebra/protocol.py:95-141 | the address is checked, then the value, both before anything is sent |
| Protocol.Read32 | src/fastcs_zebra/protocol.py:143-161 | a 32-bit result is below 2^32 |
| Protocol.Write32 | src/fastcs_zebra/protocol.py:163-205 | a value outside 0..0xFFFFFFFF is rejected before anything is sent |
| Protocol.Flash | src/fastcs_zebra/protocol.py:207-233 | any command other than `S` or `L` is rejected before anything is sent |
| Protocol.FramesPlain | src/fastcs_zebra/protocol.py:86-122 | read and write frames for values in range are plain commands the simulator accepts |
| Protocol.ReadFrameFields | src/fastcs_zebra/protocol.py:86 | a read frame is `R` and two upper-case hex digits reading back as the address |
| Protocol.WriteFrameFields | src/fastcs_zebra/protocol.py:122 | a write frame is `W`, two and four upper-case hex digits reading back as the address and value |
| Protocol.ErrorCodeZero | src/fastcs_zebra/protocol.py:313-315 | every `E0...` reply is a malformed-command report |
| Protocol.RegisterErrorReplies | src/fastcs_zebra/protocol.py:316-323 | `E1R<AA>` is a read error at AA; `E1W<AA>` and `E1<AA>` are write errors at AA |
| Protocol.RegisterErrorOperation | src/fastcs_zebra/protocol.py:319 | a register error is for a read iff the letter after `E1` is `R` |
| Protocol.ErrorsFirst | src/fastcs_zebra/protocol.py:248-280 | both parsers report an error reply as that error before trying their own grammar |
| Protocol.ReadResponseIff | src/fastcs_zebra/protocol.py:251-267 | a read reply is accepted with value v iff it is `R`, the requested address and v in 4 upper-case hex digits |
| Protocol.WriteResponseIff | src/fastcs_zebra/protocol.py:282-294 | a write reply is accepted iff it is `W`, the requested address and `OK` |
| Protocol.SendFrame | src/fastcs_zebra/transport.py:129-160 | on a connected transport a plain frame is appended to the outgoing lines and the transport stays connected |
| Protocol.ReceiveSendsNothing | src/fastcs_zebra/transport.py:162-205 | reading sends nothing and keeps the transport connected |
| Protocol.ExchangeSends | src/fastcs_zebra/protocol.py:89-92 | one command sends exactly its frame, whatever the reply |
| Protocol.SimulatorExchange | src/fastcs_zebra/protocol.py:89-92 | with nothing queued the line read back is the simulator's reply to the frame |
| Protocol.ReadSends | src/fastcs_zebra/protocol.py:80-93 | a read in range sends exactly its read frame |
| Protocol.WriteSends | src/fastcs_zebra/protocol.py:112-141 | a write in range sends its frame; unaccepted it fails; accepted it returns the value, or with `verify` whatever the read-back returns, even when it differs |
| Protocol.VerifyReadsBack | src/fastcs_zebra/protocol.py:131-139 | an accepted verified write sends exactly the write frame and then the read frame of the same register |
| Protocol.TwoReadsSend | src/fastcs_zebra/protocol.py:153-154 | two reads send their frames in order |
| Protocol.Read32Continues | src/fastcs_zebra/protocol.py:153-154 | after a successful LO read the 32-bit read ends where the HI read ends |
| Protocol.Read32Order | src/fastcs_zebra/protocol.py:153-155 | a 32-bit read sends the LO read frame before the HI one |
| Protocol.Read32Combines | src/fastcs_zebra/protocol.py:153-155 | a 32-bit read succeeds iff both halves do, and its value is then HI·0x10000 + LO with both halves below 0x10000 |
| Protocol.JoinSplits | src/fastcs_zebra/protocol.py:155 | `hi << 16` or-ed with a 16-bit `lo` splits back into `hi` and `lo` |
| Protocol.HalvesRecombine | src/fastcs_zebra/protocol.py:189-190 | the halves written are 16-bit and recombine into the value |
| Protocol.Write32Order | src/fastcs_zebra/protocol.py:197-205 | a 32-bit write sends the LO half then the HI half, each unverified, and returns the value |
| Protocol.Write32BadHi | src/fastcs_zebra/protocol.py:197-199 | with a bad HI address the LO write has already been sent when the error is raised |
| Protocol.FlashIff | src/fastcs_zebra/protocol.py:219-231 | a flash command sends itself and succeeds iff the reply is the command and `OK`; otherwise an error reply is reported, or a malformed reply |
| Protocol.ReadReplyAccepted | src/fastcs_zebra/protocol.py:252-267 | the simulator's read reply is accepted with the register's value |
| Protocol.WriteReplyAccepted | src/fastcs_zebra/protocol.py:283-294 | the simulator's plain write reply is accepted |
| Protocol.ReadFromSimulator | src/fastcs_zebra/protocol.py:67-93 | with nothing queued a read from the simulator returns the register and leaves the simulator and the queue as they were |
| Protocol.WriteFrameParses | src/fastcs_zebra/protocol.py:122 | the simulator parses a write frame back to its address and value |
| Protocol.WriteToSimulator | src/fastcs_zebra/protocol.py:95-141 | with nothing queued a write other than arm or disarm stores the value and returns it, verified or not |
| Protocol.ArmWriteMalformed | src/fastcs_zebra/protocol.py:283-285 | writing 1 to PC_ARM arms the simulator, but its one-line reply `PR\nW8BOK` is rejected as malformed |
| Protocol.BareRegisterErrorAsWritten | src/fastcs_zebra/protocol.py:317-323 | as written `E1`, `E1R` and `E1W` raise TypeError; the corrected check reports a register error with no address |
| Protocol.CheckErrorAgrees | src/fastcs_zebra/protocol.py:307-323 | the written and corrected checks agree on every reply with an address, on every `E0` and on non-errors |
| Protocol.ZebraProtocol.constructor | src/fastcs_zebra/protocol.py:59-65 | the handler keeps the transport it is given |
| Protocol.ZebraProtocol.ReadRegister | src/fastcs_zebra/protocol.py:67-93 | the result and new transport state are those of `Read16` |
| Protocol.ZebraProtocol.WriteRegister | src/fastcs_zebra/protocol.py:95-141 | the result and new transport state are those of `Write16` |
| Protocol.ZebraProtocol.ReadRegister32 | src/fastcs_zebra/protocol.py:143-161 | the result and new transport state are those of `Read32` |
| Protocol.ZebraProtocol.WriteRegister32 | src/fastcs_zebra/protocol.py:163-205 | the result and new transport state are those of `Write32` |
| Protocol.ZebraProtocol.FlashCommand | src/fastcs_zebra/protocol.py:207-233 | the result and new transport state are those of `Flash` |
| Interrupts.Classify | src/fastcs_zebra/interrupts.py:149-170 | a line is not an interrupt iff it does not start with `P`; reset iff `PR`, end iff `PX` (each optionally with one final line feed); data iff, after one final line feed is dropped, it is `P`, 8 upper-case hex digits and a rest without line feeds, and then the timestamp is the value of those digits (`int(_, 16)`) and the data is the rest |
| Interrupts.DecodeUpTo | src/fastcs_zebra/interrupts.py:221-240 | decoding bits below `n` yields `n` fields |
| Interrupts.DecodeFields | src/fastcs_zebra/interrupts.py:179-242 | a length other than 8 per set mask bit (all bits) is exactly the length error; a decoded point keeps the timestamp and has ten fields |
| Interrupts.Invocations | src/fastcs_zebra/interrupts.py:244-270 | a dispatch makes one call per observer |
| Interrupts.Handle | src/fastcs_zebra/interrupts.py:137-177 | False iff the line does not start with `P`; errors and non-interrupts call nobody |
| Interrupts.InterruptHandler.constructor | src/fastcs_zebra/interrupts.py:64-75 | the mask as given and three empty observer lists |
| Interrupts.InterruptHandler.SetBitCap | src/fastcs_zebra/interrupts.py:77-84 | only the mask changes |
| Interrupts.InterruptHandler.ClearCallbacks | src/fastcs_zebra/interrupts.py:86-93 | the three lists are emptied and the mask kept |
| Interrupts.InterruptHandler.OnReset | src/fastcs_zebra/interrupts.py:95-107 | appends to the reset list only and returns the callback |
| Interrupts.InterruptHandler.OnData | src/fastcs_zebra/interrupts.py:109-121 | appends to the data list only and returns the callback |
| Interrupts.InterruptHandler.OnEnd | src/fastcs_zebra/interrupts.py:123-135 | appends to the end list only and returns the callback |
| Interrupts.InterruptHandler.Dispatch | src/fastcs_zebra/interrupts.py:244-270 | the calls made are `Invocations` of the list, and the configuration is unchanged |
| Interrupts.InterruptHandler.ParseDataFields | src/fastcs_zebra/interrupts.py:179-242 | the offset loop returns `DecodeFields` of the mask, the data and the timestamp |
| Interrupts.InterruptHandler.HandleMessage | src/fastcs_zebra/interrupts.py:137-177 | the result and the calls made are those of `Handle` |
| Interrupts.DecodeUpToFails | src/fastcs_zebra/interrupts.py:221-228 | once a captured field fails to parse, decoding more bits fails too |
| Interrupts.DecodeUpToFields | src/fastcs_zebra/interrupts.py:204-240 | a clear bit's field is None and a set bit's field is its 8 characters at its offset, read and interpreted |
| Interrupts.DecodeUpToSucceeds | src/fastcs_zebra/interrupts.py:221-228 | decoding succeeds when every captured field is a hex number |
| Interrupts.DecodeFieldsLayout | src/fastcs_zebra/interrupts.py:198-240 | a line of the right length decodes iff each captured field is a hex number, and then each field is as the mask says |
| Interrupts.DecodedRanges | src/fastcs_zebra/interrupts.py:231-238 | decoded encoder fields are signed 32-bit and the others unsigned 32-bit |
| Interrupts.FieldOffsetsIncrease | src/fastcs_zebra/interrupts.py:221-225 | fields of set bits sit at increasing, non-overlapping offsets |
| Interrupts.FieldsTile | src/fastcs_zebra/interrupts.py:195-225 | for a mask below 1024 the expected length is where the fields end |
| Interrupts.InvocationsInOrder | src/fastcs_zebra/interrupts.py:244-270 | every observer is called in registration order with the event; a raising one does not stop the rest |
| Interrupts.HandleNotInterrupt | src/fastcs_zebra/interrupts.py:149-150 | a line not starting with `P` returns False and calls nobody |
| Interrupts.HandleResetEnd | src/fastcs_zebra/interrupts.py:153-162 | `PR` calls exactly the reset observers and `PX` exactly the end observers, both returning True |
| Interrupts.HandleMalformed | src/fastcs_zebra/interrupts.py:165-167 | another `P` line without 8 upper-case hex digits raises ValueError and calls nobody |
| Interrupts.HandleLengthMismatch | src/fastcs_zebra/interrupts.py:195-202 | a data line of the wrong length raises the length error before any observer runs |
| RoundTrip.FieldsTextShape | src/fastcs_zebra/simulator.py:144-159 | the fields are upper-case hex, as long as the decoder's offset after the bits below `n` |
| RoundTrip.FieldAt | src/fastcs_zebra/simulator.py:159 | a set bit's field is its value in 8 digits at the decoder's offset |
| RoundTrip.FieldsTextLayout | src/fastcs_zebra/simulator.py:144-159 | the fields tile their text in bit order, at the decoder's offsets |
| RoundTrip.FrameClassifies | src/fastcs_zebra/interrupts.py:165-170 | a simulator frame with a 32-bit timestamp is a data line with that timestamp and the fields |
| RoundTrip.FieldsDecode | src/fastcs_zebra/interrupts.py:195-240 | for a mask below 1024 the fields decode with the same mask to the values: encoders signed, others unsigned, clear bits None |
| RoundTrip.FrameDelivered | src/fastcs_zebra/interrupts.py:137-177 | a handler with the simulator's mask returns True for a simulator frame and calls the data observers in order with the decoded point |
| RoundTrip.GeneratedFrameDecodes | src/fastcs_zebra/simulator.py:137-163 | a frame the armed simulator sends is classified as data with its timestamp and decodes to the sampled values |
| RoundTrip.HighMaskBitsMismatch | src/fastcs_zebra/interrupts.py:195-202 | with mask bits above 9 the decoder rejects the simulator's fields as too short |
| RoundTrip.TimestampOverflowAsWritten | src/fastcs_zebra/simulator.py:138-139 | as written, frame 85899346 is stamped with 9 digits and rejected by the decoder; the corrected timestamp is 4 |

## Left out

- Python's `int(_, 16)` also accepts signs, surrounding whitespace and underscores. The model handles only commands and data fields without those characters. This deviation is made by the preconditions `CommandPlain` (simulator), `DataPlain` and `PlainText` (decoder). Lower-case hex digits and the `0x` prefix are modelled as Python accepts them.
- Exception messages are not modelled: each error is a constructor of `Error`. Tests of the register module expect the wording "Signal index must be 0-63", while `registers.py:185-187` raises "System bus index ... out of range". Only the ValueError itself is modelled.
- The serial port's timing, baud settings, and failures to open or write are left out. So is `asyncio.wait_for`. A simulated read on an empty queue is the timeout outcome. On the serial port the received lines are a parameter `incoming`.
- The ImportError raised when `aioserial` is missing (`transport.py:50-54`) depends on the Python environment. It is not modelled.
- Concurrency is left out: the interrupt monitor and protocol reads share one queue, and the protocol holds no request lock. The model runs calls strictly one after another.
- The simulator's random values become the parameters `noise` (one per encoder, in -10..10) and `bus` (two 32-bit words). `asyncio.sleep`, task creation and task cancellation are left out. One pass of the generation loop is the method `GeneratePositionCompare`, and the loop itself is the caller's repetition.
- Observer callbacks are opaque. Whether one raises is the parameter `fails`; its own effects are not modelled.
- Logging is left out, including the write-verification mismatch warning, which has no effect on the result.
- The controllers, attribute wiring, the command line and the entry point are not part of this model.
- Protocol.CheckError: the model's operations use the corrected error check (see Findings). The TypeError of the code as written is modelled only by `Protocol.CheckErrorAsWritten`.
- Simulator.Timestamp: the corrected generator masks the timestamp `counter * 50` to 32 bits, and `Simulator.Generate`, `Simulator.ZebraSimulator.GeneratePositionCompare` and the transport's `Tick` use it. The unmasked timestamp of the code as written is `Simulator.FrameAsWritten`, and `RoundTrip.TimestampOverflowAsWritten` shows the frame it breaks (see Findings).
- Simulator.Sample: divider counts are masked to 32 bits in the corrected generator. The unmasked values of the code as written are `Simulator.SamplesAsWritten`.
- Registers: the `RegAddr` and `SysBus` constant classes are not modelled.
- Registers: the `description` field of `Register` and `Register32` is left out. Every table entry carries a description text, and the model drops it. So the entries that `GetRegister`, `GetRegister32`, `GetAllRegisters` and `GetAllRegisters32` return lack that text. Which entry a lookup finds does not change, because names and addresses are distinct (`CatalogueWellFormed`, `PairNamesDistinct`).

## Findings

| source | as written | input that shows it | evidently intended | confidence | as-written member | corrected member |
|---|---|---|---|---|---|---|
| src/fastcs_zebra/protocol.py:317-323 | an `E1` reply with no address digits sets the address to None; formatting it with `:#04x` raises TypeError instead of RegisterError | the reply `E1` (also `E1R`, `E1W`) to any read or write | a RegisterError for the named operation, with no address | not executed | Protocol.BareRegisterErrorAsWritten | Protocol.CheckError |
| src/fastcs_zebra/simulator.py:138-139 | the timestamp `counter * 50` is printed unmasked, so from frame 85899346 on it has 9 hex digits; the divider count `counter * 10` is also unmasked | frame number 85899346 with an empty capture mask: the line is `P100000004`, which the decoder reads as timestamp 0x10000000 with the rest `4`, giving a length mismatch | a 32-bit timestamp (and 32-bit divider counts), so every generated frame decodes | not executed | RoundTrip.TimestampOverflowAsWritten | RoundTrip.GeneratedFrameDecodes |
