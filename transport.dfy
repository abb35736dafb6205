/** The line transport under the protocol: in simulation mode (`sim://` ports) a
    software Zebra with a receive queue its replies and interrupt frames go to,
    otherwise a serial port that carries newline-terminated ASCII lines. */
module Transport {
  import opened Results
  import opened Numbers
  import opened Simulator

  /** A port name beginning `sim://` selects the simulator. */
  predicate IsSimulationPort(port: string) {
    |port| >= 6 && port[..6] == "sim://"
  }

  /** The transport as a value. `rx` is the simulator's receive queue and `tx` the
      queue of lines written to it (None when absent); `serialOpen` says whether a
      serial handle exists, `written` holds the lines sent on it and `incoming`
      the lines the device has sent and `readline` would return, each with its
      terminator. */
  datatype TState = TState(
    simulation: bool,
    connectedFlag: bool,
    sim: Option<SimState>,
    rx: Option<seq<string>>,
    tx: Option<seq<string>>,
    serialOpen: bool,
    written: seq<string>,
    incoming: seq<string>)

  /** The state right after construction. */
  function Initial(port: string, incoming: seq<string>): TState {
    TState(IsSimulationPort(port), false, None, None, None, false, [], incoming)
  }

  /** The `connected` property: the flag, and a simulator or serial handle to use. */
  predicate Connected(t: TState) {
    t.connectedFlag && (if t.simulation then t.sim.Some? else t.serialOpen)
  }

  /** What every reachable state satisfies: the flag, the handle and the queues
      come and go together, and the simulator is valid and has its send
      callback. */
  ghost predicate Inv(t: TState) {
    if t.simulation then
      && !t.serialOpen
      && (t.connectedFlag <==> t.sim.Some?)
      && (t.sim.Some? <==> t.rx.Some?)
      && (t.sim.Some? <==> t.tx.Some?)
      && (t.sim.Some? ==> Valid(t.sim.value) && t.sim.value.hasSendCallback)
    else
      t.sim.None? && t.rx.None? && t.tx.None? && (t.connectedFlag <==> t.serialOpen)
  }

  /** Lines the simulator can process: its `int(_, 16)` fields are plain. */
  predicate Sendable(t: TState, data: string) {
    t.simulation ==> CommandPlain(data)
  }

  /** `connect`: a no-op when the flag is already set; otherwise a fresh simulator
      with its send callback and empty queues, or an open serial port. */
  function Open(t: TState): TState {
    if t.connectedFlag then t
    else if t.simulation then
      t.(sim := Some(SimState(InitialMemory(), false, 0, true)), rx := Some([]), tx := Some([]), connectedFlag := true)
    else
      t.(serialOpen := true, connectedFlag := true)
  }

  /** `disconnect`: a no-op when the flag is clear; otherwise the simulator is
      reset and dropped with its queues, or the serial port is closed. */
  function Close(t: TState): TState {
    if !t.connectedFlag then t
    else if t.simulation then
      t.(sim := None, rx := None, tx := None, connectedFlag := false)
    else
      t.(serialOpen := false, connectedFlag := false)
  }

  /** `write_line`: in simulation mode the line is logged, processed by the
      simulator and a non-empty reply is queued for reading; on the serial port
      the line goes out with a line feed, if it is ASCII. */
  function Send(t: TState, data: string): (r: (Result<()>, TState))
    requires Sendable(t, data)
  {
    if !Connected(t) then (Err(NotConnected), t)
    else if t.simulation then
      if t.tx.None? then (Ok(()), t)
      else
        var (s', response) := Process(t.sim.value, data);
        var rx := if response != [] && t.rx.Some? then Some(t.rx.value + [response]) else t.rx;
        (Ok(()), t.(tx := Some(t.tx.value + [data]), sim := Some(s'), rx := rx))
    else if !Ascii(data + "\n") then (Err(EncodeError), t)
    else (Ok(()), t.(written := t.written + [data + "\n"]))
  }

  /** `read_line`: the oldest queued line in simulation mode; on the serial port
      the next line, decoded as ASCII and without its trailing line feeds. With
      nothing to read the wait times out. */
  function Receive(t: TState): (r: (Result<string>, TState))
  {
    if !Connected(t) then (Err(NotConnected), t)
    else if t.simulation then
      if t.rx.None? then (Err(SimulatorNotInitialized), t)
      else if t.rx.value == [] then (Err(Timeout), t)
      else (Ok(t.rx.value[0]), t.(rx := Some(t.rx.value[1..])))
    else if t.incoming == [] then (Err(Timeout), t)
    else if !Ascii(t.incoming[0]) then (Err(DecodeError), t.(incoming := t.incoming[1..]))
    else (Ok(RStripNewlines(t.incoming[0])), t.(incoming := t.incoming[1..]))
  }

  /** One pass of the simulator's generation loop, with its frame handed to the
      send callback, which queues it for reading when the receive queue exists. */
  function Pump(t: TState, noise: seq<int>, bus: seq<nat>): TState
    requires |noise| == 4 && |bus| == 2 && (forall i :: 0 <= i < 2 ==> bus[i] < Word)
  {
    if t.sim.None? then t
    else
      var (sent, s') := Generate(t.sim.value, noise, bus);
      var rx := if sent.Some? && t.rx.Some? then Some(t.rx.value + [sent.value]) else t.rx;
      t.(sim := Some(s'), rx := rx)
  }

  // ---------------------------------------------------------------------------
  // Properties

  /** A new transport is in simulation mode iff its port starts with `sim://`,
      and is not connected. */
  lemma InitialMode(port: string, incoming: seq<string>)
    ensures Initial(port, incoming).simulation <==> |port| >= 6 && port[..6] == "sim://"
    ensures Inv(Initial(port, incoming)) && !Connected(Initial(port, incoming))
  {
  }

  /** On a reachable state `connected` is the flag itself. */
  lemma ConnectedIsFlag(t: TState)
    requires Inv(t)
    ensures Connected(t) <==> t.connectedFlag
  {
  }

  /** `connect` keeps the invariant, leaves the transport connected, and changes
      nothing when it already was. */
  lemma ConnectConnects(t: TState)
    requires Inv(t)
    ensures Inv(Open(t)) && Connected(Open(t))
    ensures Connected(t) ==> Open(t) == t
  {
    InitialMemoryValues();
  }

  /** `disconnect` keeps the invariant, leaves the transport disconnected, and
      changes nothing when it already was. */
  lemma DisconnectDisconnects(t: TState)
    requires Inv(t)
    ensures Inv(Close(t)) && !Connected(Close(t))
    ensures !Connected(t) ==> Close(t) == t
  {
  }

  /** Writing and reading on a disconnected transport raise "Not connected" and
      change nothing. */
  lemma NotConnectedErrors(t: TState, data: string)
    requires !Connected(t) && Sendable(t, data)
    ensures Send(t, data) == (Err(NotConnected), t)
    ensures Receive(t) == (Err(NotConnected), t)
  {
  }

  /** `write_line` keeps the invariant. */
  lemma WriteLineKeepsInv(t: TState, data: string)
    requires Inv(t) && Sendable(t, data)
    ensures Inv(Send(t, data).1)
  {
    if Connected(t) && t.simulation {
      ProcessKeepsValid(t.sim.value, data);
    }
  }

  /** `read_line` keeps the invariant. */
  lemma ReadLineKeepsInv(t: TState)
    requires Inv(t)
    ensures Inv(Receive(t).1)
  {
  }

  /** A generation pass keeps the invariant. */
  lemma TickKeepsInv(t: TState, noise: seq<int>, bus: seq<nat>)
    requires Inv(t)
    requires |noise| == 4 && |bus| == 2 && (forall i :: 0 <= i < 2 ==> bus[i] < Word)
    ensures Inv(Pump(t, noise, bus))
  {
    if t.sim.Some? {
      GenerateCounts(t.sim.value, noise, bus);
    }
  }

  /** In simulation mode a written line is logged, processed, and its reply (when
      non-empty) queued behind the lines already waiting. */
  lemma SimulatedWrite(t: TState, data: string)
    requires Inv(t) && t.simulation && Connected(t) && CommandPlain(data)
    ensures var (r, t') := Send(t, data);
      var (s', response) := Process(t.sim.value, data);
      && r == Ok(())
      && t' == t.(tx := Some(t.tx.value + [data]), sim := Some(s'),
                  rx := Some(if response == [] then t.rx.value else t.rx.value + [response]))
  {
  }

  /** The receive queue is first in, first out: after a line is queued, reading
      returns the lines already waiting before it. */
  lemma ReceiveFifo(t: TState, line: string)
    requires Inv(t) && t.simulation && Connected(t) && t.rx.value != []
    ensures var t1 := t.(rx := Some(t.rx.value + [line]));
      Receive(t1) == (Ok(t.rx.value[0]), t.(rx := Some(t.rx.value[1..] + [line])))
  {
    assert (t.rx.value + [line])[1..] == t.rx.value[1..] + [line];
  }

  /** A simulated read on an empty receive queue times out and changes nothing. */
  lemma EmptyQueueTimesOut(t: TState)
    requires Inv(t) && t.simulation && Connected(t) && t.rx.value == []
    ensures Receive(t) == (Err(Timeout), t)
  {
  }

  /** Frames the armed simulator generates join the same receive queue as the
      replies. */
  lemma TickQueuesFrame(t: TState, noise: seq<int>, bus: seq<nat>)
    requires Inv(t) && t.simulation && Connected(t) && t.sim.value.armed
    requires |noise| == 4 && |bus| == 2 && (forall i :: 0 <= i < 2 ==> bus[i] < Word)
    ensures var s := t.sim.value;
      Pump(t, noise, bus).rx == Some(t.rx.value + [Frame(Timestamp(s.counter), BitCap(s), Samples(s.counter, noise, bus))])
  {
  }

  /** The serial port appends a line feed on write and strips trailing line feeds
      on read. */
  lemma SerialLines(t: TState, data: string)
    requires Inv(t) && !t.simulation && Connected(t) && Ascii(data) && t.incoming != [] && Ascii(t.incoming[0])
    ensures Send(t, data).1.written == t.written + [data + "\n"]
    ensures var line := Receive(t).0.value;
      && Receive(t).0.Ok?
      && t.incoming[0] == line + t.incoming[0][|line|..]
      && (line == [] || line[|line| - 1] != '\n')
      && (forall i :: |line| <= i < |t.incoming[0]| ==> t.incoming[0][i] == '\n')
  {
    assert Ascii(data + "\n");
  }

  // ---------------------------------------------------------------------------
  // The transport object

  class ZebraTransport {
    const port: string
    const simulation: bool
    var connectedFlag: bool
    var simulator: ZebraSimulator?
    var rx: Option<seq<string>>
    var tx: Option<seq<string>>
    var serialOpen: bool
    var written: seq<string>
    var incoming: seq<string>

    function State(): TState
      reads this, simulator
    {
      TState(simulation, connectedFlag, if simulator == null then None else Some(simulator.State()),
        rx, tx, serialOpen, written, incoming)
    }

    /** `__init__`: choose the mode from the port name. `incoming` is what the
        serial device will send. */
    constructor(port: string, incoming: seq<string>)
      ensures this.port == port && State() == Initial(port, incoming)
    {
      this.port := port;
      simulation := |port| >= 6 && port[..6] == "sim://";
      connectedFlag := false;
      simulator := null;
      rx, tx := None, None;
      serialOpen := false;
      written := [];
      this.incoming := incoming;
    }

    /** `connect`. */
    method Connect()
      modifies this
      ensures State() == Open(old(State()))
      ensures old(connectedFlag) ==> simulator == old(simulator)
      ensures !old(connectedFlag) && simulation ==> fresh(simulator)
    {
      if connectedFlag {
        return;
      }
      if simulation {
        var sim := new ZebraSimulator();
        sim.SetSendCallback();
        simulator := sim;
        rx := Some([]);
        tx := Some([]);
        connectedFlag := true;
      } else {
        serialOpen := true;
        connectedFlag := true;
      }
    }

    /** `disconnect`. */
    method Disconnect()
      modifies this, simulator
      ensures State() == Close(old(State()))
      ensures old(connectedFlag) && simulation ==> simulator == null
      ensures !old(connectedFlag) ==> simulator == old(simulator)
    {
      if !connectedFlag {
        return;
      }
      if simulation {
        if simulator != null {
          simulator.Reset();
          simulator := null;
        }
        rx := None;
        tx := None;
      } else {
        serialOpen := false;
      }
      connectedFlag := false;
    }

    /** The `connected` property. */
    predicate IsConnected()
      reads this, simulator
    {
      Connected(State())
    }

    /** `write_line`. */
    method WriteLine(data: string) returns (r: Result<()>)
      requires Sendable(State(), data)
      modifies this, simulator
      ensures simulator == old(simulator)
      ensures (r, State()) == Send(old(State()), data)
    {
      if !IsConnected() {
        return Err(NotConnected);
      }
      if simulation {
        if tx.Some? {
          tx := Some(tx.value + [data]);
          if simulator != null {
            var response := simulator.ProcessCommand(data);
            if response != [] && rx.Some? {
              rx := Some(rx.value + [response]);
            }
          }
        }
        return Ok(());
      }
      var line := data + "\n";
      if !Ascii(line) {
        return Err(EncodeError);
      }
      written := written + [line];
      return Ok(());
    }

    /** `read_line`. */
    method ReadLine() returns (r: Result<string>)
      modifies this
      ensures simulator == old(simulator)
      ensures (r, State()) == Receive(old(State()))
    {
      if !IsConnected() {
        return Err(NotConnected);
      }
      if simulation {
        if rx.None? {
          return Err(SimulatorNotInitialized);
        }
        if rx.value == [] {
          return Err(Timeout);
        }
        var line := rx.value[0];
        rx := Some(rx.value[1..]);
        return Ok(line);
      }
      if incoming == [] {
        return Err(Timeout);
      }
      var bytes := incoming[0];
      incoming := incoming[1..];
      if !Ascii(bytes) {
        return Err(DecodeError);
      }
      return Ok(RStripNewlines(bytes));
    }

    /** One pass of the simulator's generation loop; `send_interrupt` queues the
        frame when the receive queue exists. */
    method Tick(noise: seq<int>, bus: seq<nat>)
      requires |noise| == 4 && (forall i :: 0 <= i < 4 ==> -10 <= noise[i] <= 10)
      requires |bus| == 2 && (forall i :: 0 <= i < 2 ==> bus[i] < Word)
      modifies this, simulator
      ensures simulator == old(simulator)
      ensures State() == Pump(old(State()), noise, bus)
    {
      if simulator == null {
        return;
      }
      var sent := simulator.GeneratePositionCompare(noise, bus);
      if sent.Some? && rx.Some? {
        rx := Some(rx.value + [sent.value]);
      }
    }
  }
}
