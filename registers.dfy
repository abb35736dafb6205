/** The static register catalogue of the Zebra: the 16-bit registers, the 32-bit
    LO/HI pairs, the 64 system bus signals, and the lookups over them. The tables
    are kept as the runs of consecutive entries they are written in; the lemmas at
    the end lift per-run facts (addresses count up, names are distinct and share
    their first two letters) to the whole tables. */
module Registers {
  import opened Results

  datatype RegisterType = RW | RO | CMD | MUX

  /** A 16-bit register: its name, its address and its access type. */
  datatype Register = Register(name: string, address: int, regType: RegisterType)

  /** A 32-bit value kept in a LO and a HI 16-bit register. */
  datatype Register32 = Register32(name: string, addressLo: int, addressHi: int, regType: RegisterType)

  /** Building a `Register`: the address must be a byte. */
  function NewRegister(name: string, address: int, regType: RegisterType): (r: Result<Register>)
    ensures r.Ok? <==> 0 <= address <= 0xFF
    ensures r.Ok? ==> r.value.name == name && r.value.address == address && r.value.regType == regType
    ensures r.Err? ==> r.error == AddressOutOfRange
  {
    if 0 <= address <= 0xFF then Ok(Register(name, address, regType)) else Err(AddressOutOfRange)
  }

  /** Building a `Register32`: the LO address is checked before the HI address. */
  function NewRegister32(name: string, lo: int, hi: int, regType: RegisterType): (r: Result<Register32>)
    ensures r.Ok? <==> 0 <= lo <= 0xFF && 0 <= hi <= 0xFF
    ensures r.Ok? ==> r.value == Register32(name, lo, hi, regType)
    ensures !(0 <= lo <= 0xFF) ==> r == Err(LoAddressOutOfRange)
    ensures 0 <= lo <= 0xFF && !(0 <= hi <= 0xFF) ==> r == Err(HiAddressOutOfRange)
  {
    if !(0 <= lo <= 0xFF) then Err(LoAddressOutOfRange)
    else if !(0 <= hi <= 0xFF) then Err(HiAddressOutOfRange)
    else Ok(Register32(name, lo, hi, regType))
  }

  // ---------------------------------------------------------------------------
  // Tables kept as runs

  /** A run of consecutive catalogue entries whose addresses count up from `base`
      and whose names all start with the letters `lead0 lead1`. */
  datatype Run = Run(base: nat, lead0: char, lead1: char, entries: seq<Register>)

  /** A run of signal names that all start with `lead0 lead1`. */
  datatype NameRun = NameRun(lead0: char, lead1: char, names: seq<string>)

  predicate HasLead(name: string, c0: char, c1: char) {
    |name| >= 2 && name[0] == c0 && name[1] == c1
  }

  predicate Dense(r: Run) {
    forall i :: 0 <= i < |r.entries| ==>
      r.entries[i].address == r.base + i && HasLead(r.entries[i].name, r.lead0, r.lead1)
  }

  function End(r: Run): nat {
    r.base + |r.entries|
  }

  /** The entries of the first `n` runs, in order. */
  function Concat(runs: seq<Run>, n: nat): seq<Register>
    requires n <= |runs|
  {
    if n == 0 then [] else Concat(runs, n - 1) + runs[n - 1].entries
  }

  function ConcatNames(runs: seq<NameRun>, n: nat): seq<string>
    requires n <= |runs|
  {
    if n == 0 then [] else ConcatNames(runs, n - 1) + runs[n - 1].names
  }

  predicate DistinctNames(rs: seq<Register>) {
    forall i, j :: 0 <= i < |rs| && 0 <= j < |rs| && rs[i].name == rs[j].name ==> i == j
  }

  predicate NamesDisjoint(a: seq<Register>, b: seq<Register>) {
    forall i, j :: 0 <= i < |a| && 0 <= j < |b| ==> a[i].name != b[j].name
  }

  predicate DistinctAddresses(rs: seq<Register>) {
    forall i, j :: 0 <= i < |rs| && 0 <= j < |rs| && rs[i].address == rs[j].address ==> i == j
  }

  predicate Increasing(rs: seq<Register>) {
    forall i, j :: 0 <= i < j < |rs| ==> rs[i].address < rs[j].address
  }

  predicate Distinct(s: seq<string>) {
    forall i, j :: 0 <= i < |s| && 0 <= j < |s| && s[i] == s[j] ==> i == j
  }

  predicate Disjoint(a: seq<string>, b: seq<string>) {
    forall i, j :: 0 <= i < |a| && 0 <= j < |b| ==> a[i] != b[j]
  }

  predicate SameLead(r: Run, s: Run) {
    r.lead0 == s.lead0 && r.lead1 == s.lead1
  }

  /** What the per-run lemmas establish about a sequence of register runs. */
  predicate RunsWellFormed(runs: seq<Run>) {
    && (forall k :: 0 <= k < |runs| ==> Dense(runs[k]) && DistinctNames(runs[k].entries))
    && (forall k :: 0 < k < |runs| ==> End(runs[k - 1]) <= runs[k].base)
    && (forall l :: 0 <= l < |runs| ==> DisjointFromEarlier(runs, l))
  }

  /** Run `l` shares no name with an earlier run that has the same leading letters. */
  predicate DisjointFromEarlier(runs: seq<Run>, l: nat)
    requires l < |runs|
  {
    forall k :: 0 <= k < l && SameLead(runs[k], runs[l]) ==> NamesDisjoint(runs[k].entries, runs[l].entries)
  }

  predicate NameRunsWellFormed(runs: seq<NameRun>) {
    && (forall k :: 0 <= k < |runs| ==>
          Distinct(runs[k].names) &&
          forall i :: 0 <= i < |runs[k].names| ==> HasLead(runs[k].names[i], runs[k].lead0, runs[k].lead1))
    && (forall k, l :: 0 <= k < l < |runs| && runs[k].lead0 == runs[l].lead0 && runs[k].lead1 == runs[l].lead1 ==>
          Disjoint(runs[k].names, runs[l].names))
  }


  /** Every entry of the first `n` runs comes from one of them. */
  lemma {:induction false} ConcatLocate(runs: seq<Run>, n: nat, i: nat) returns (k: nat, j: nat)
    requires n <= |runs| && i < |Concat(runs, n)|
    ensures k < n && j < |runs[k].entries| && Concat(runs, n)[i] == runs[k].entries[j]
  {
    if i < |Concat(runs, n - 1)| {
      k, j := ConcatLocate(runs, n - 1, i);
    } else {
      k, j := n - 1, i - |Concat(runs, n - 1)|;
    }
  }

  /** Every entry of the first `n` runs is in their concatenation. */
  lemma {:induction false} ConcatContains(runs: seq<Run>, n: nat, k: nat, j: nat) returns (i: nat)
    requires k < n <= |runs| && j < |runs[k].entries|
    ensures i < |Concat(runs, n)| && Concat(runs, n)[i] == runs[k].entries[j]
  {
    if k < n - 1 {
      i := ConcatContains(runs, n - 1, k, j);
    } else {
      i := |Concat(runs, n - 1)| + j;
    }
  }

  /** Runs that are dense, internally distinct, placed at increasing addresses and
      pairwise distinct where their leading letters agree make a table with
      increasing addresses and distinct names. */
  lemma {:induction false} ConcatWellFormed(runs: seq<Run>, n: nat)
    requires RunsWellFormed(runs) && 0 < n <= |runs|
    ensures Increasing(Concat(runs, n)) && DistinctNames(Concat(runs, n))
    ensures runs[0].base <= End(runs[n - 1])
    ensures forall i :: 0 <= i < |Concat(runs, n)| ==> runs[0].base <= Concat(runs, n)[i].address < End(runs[n - 1])
  {
    var r := runs[n - 1];
    if n == 1 {
      assert Concat(runs, 1) == r.entries;
    } else {
      ConcatWellFormed(runs, n - 1);
      var a, b := Concat(runs, n - 1), r.entries;
      assert Concat(runs, n) == a + b;
      forall i, j | 0 <= i < |a| && 0 <= j < |b|
        ensures a[i].name != b[j].name
      {
        var k, m := ConcatLocate(runs, n - 1, i);
        assert DisjointFromEarlier(runs, n - 1);
        if SameLead(runs[k], r) {
          assert NamesDisjoint(runs[k].entries, b);
        }
      }
      AppendWellFormed(a, r);
    }
  }

  /** Appending a dense run that starts above every address of a well-formed table
      and shares no name with it keeps the table well-formed. */
  lemma AppendWellFormed(a: seq<Register>, r: Run)
    requires Increasing(a) && DistinctNames(a) && Dense(r) && DistinctNames(r.entries)
    requires forall i :: 0 <= i < |a| ==> a[i].address < r.base
    requires NamesDisjoint(a, r.entries)
    ensures Increasing(a + r.entries) && DistinctNames(a + r.entries)
  {
  }

  lemma {:induction false} ConcatNamesLocate(runs: seq<NameRun>, n: nat, i: nat) returns (k: nat, j: nat)
    requires n <= |runs| && i < |ConcatNames(runs, n)|
    ensures k < n && j < |runs[k].names| && ConcatNames(runs, n)[i] == runs[k].names[j]
  {
    if i < |ConcatNames(runs, n - 1)| {
      k, j := ConcatNamesLocate(runs, n - 1, i);
    } else {
      k, j := n - 1, i - |ConcatNames(runs, n - 1)|;
    }
  }

  lemma {:induction false} ConcatNamesDistinct(runs: seq<NameRun>, n: nat)
    requires NameRunsWellFormed(runs) && n <= |runs|
    ensures Distinct(ConcatNames(runs, n))
  {
    if n > 0 {
      ConcatNamesDistinct(runs, n - 1);
      var a, b := ConcatNames(runs, n - 1), runs[n - 1].names;
      assert ConcatNames(runs, n) == a + b;
      forall i, j | 0 <= i < |a| && 0 <= j < |b| ensures a[i] != b[j] {
        var k, m := ConcatNamesLocate(runs, n - 1, i);
        if runs[k].lead0 == runs[n - 1].lead0 && runs[k].lead1 == runs[n - 1].lead1 {
          assert Disjoint(runs[k].names, b);
        } else {
          assert HasLead(a[i], runs[k].lead0, runs[k].lead1);
          assert HasLead(b[j], runs[n - 1].lead0, runs[n - 1].lead1);
        }
      }
    }
  }

  lemma {:induction false} ConcatNamesIndex(runs: seq<NameRun>, n: nat, k: nat, j: nat)
    requires k < n <= |runs| && j < |runs[k].names|
    ensures |ConcatNames(runs, k)| + j < |ConcatNames(runs, n)|
    ensures ConcatNames(runs, n)[|ConcatNames(runs, k)| + j] == runs[k].names[j]
  {
    if k < n - 1 {
      ConcatNamesIndex(runs, n - 1, k, j);
    }
  }
  // ---------------------------------------------------------------------------
  // The 16-bit register table, in source order

  /** AND gate inversion and enable bit fields. */
  const AndInvertEnable: seq<Register> := [
    Register("AND1_INV", 0x00, RW),
    Register("AND2_INV", 0x01, RW),
    Register("AND3_INV", 0x02, RW),
    Register("AND4_INV", 0x03, RW),
    Register("AND1_ENA", 0x04, RW),
    Register("AND2_ENA", 0x05, RW),
    Register("AND3_ENA", 0x06, RW),
    Register("AND4_ENA", 0x07, RW)
  ]

  /** AND1 and AND2 input multiplexers. */
  const AndInputs12: seq<Register> := [
    Register("AND1_INP1", 0x08, MUX),
    Register("AND1_INP2", 0x09, MUX),
    Register("AND1_INP3", 0x0A, MUX),
    Register("AND1_INP4", 0x0B, MUX),
    Register("AND2_INP1", 0x0C, MUX),
    Register("AND2_INP2", 0x0D, MUX),
    Register("AND2_INP3", 0x0E, MUX),
    Register("AND2_INP4", 0x0F, MUX)
  ]

  /** AND3 and AND4 input multiplexers. */
  const AndInputs34: seq<Register> := [
    Register("AND3_INP1", 0x10, MUX),
    Register("AND3_INP2", 0x11, MUX),
    Register("AND3_INP3", 0x12, MUX),
    Register("AND3_INP4", 0x13, MUX),
    Register("AND4_INP1", 0x14, MUX),
    Register("AND4_INP2", 0x15, MUX),
    Register("AND4_INP3", 0x16, MUX),
    Register("AND4_INP4", 0x17, MUX)
  ]

  /** OR gate inversion and enable bit fields. */
  const OrInvertEnable: seq<Register> := [
    Register("OR1_INV", 0x18, RW),
    Register("OR2_INV", 0x19, RW),
    Register("OR3_INV", 0x1A, RW),
    Register("OR4_INV", 0x1B, RW),
    Register("OR1_ENA", 0x1C, RW),
    Register("OR2_ENA", 0x1D, RW),
    Register("OR3_ENA", 0x1E, RW),
    Register("OR4_ENA", 0x1F, RW)
  ]

  /** OR1 and OR2 input multiplexers. */
  const OrInputs12: seq<Register> := [
    Register("OR1_INP1", 0x20, MUX),
    Register("OR1_INP2", 0x21, MUX),
    Register("OR1_INP3", 0x22, MUX),
    Register("OR1_INP4", 0x23, MUX),
    Register("OR2_INP1", 0x24, MUX),
    Register("OR2_INP2", 0x25, MUX),
    Register("OR2_INP3", 0x26, MUX),
    Register("OR2_INP4", 0x27, MUX)
  ]

  /** OR3 and OR4 input multiplexers. */
  const OrInputs34: seq<Register> := [
    Register("OR3_INP1", 0x28, MUX),
    Register("OR3_INP2", 0x29, MUX),
    Register("OR3_INP3", 0x2A, MUX),
    Register("OR3_INP4", 0x2B, MUX),
    Register("OR4_INP1", 0x2C, MUX),
    Register("OR4_INP2", 0x2D, MUX),
    Register("OR4_INP3", 0x2E, MUX),
    Register("OR4_INP4", 0x2F, MUX)
  ]

  /** Gate generator trigger and reset inputs. */
  const GateGenerators: seq<Register> := [
    Register("GATE1_INP1", 0x30, MUX),
    Register("GATE2_INP1", 0x31, MUX),
    Register("GATE3_INP1", 0x32, MUX),
    Register("GATE4_INP1", 0x33, MUX),
    Register("GATE1_INP2", 0x34, MUX),
    Register("GATE2_INP2", 0x35, MUX),
    Register("GATE3_INP2", 0x36, MUX),
    Register("GATE4_INP2", 0x37, MUX)
  ]

  /** Pulse divider divisors. */
  const DividerDivisors: seq<Register> := [
    Register("DIV1_DIVLO", 0x38, RW),
    Register("DIV1_DIVHI", 0x39, RW),
    Register("DIV2_DIVLO", 0x3A, RW),
    Register("DIV2_DIVHI", 0x3B, RW),
    Register("DIV3_DIVLO", 0x3C, RW),
    Register("DIV3_DIVHI", 0x3D, RW),
    Register("DIV4_DIVLO", 0x3E, RW),
    Register("DIV4_DIVHI", 0x3F, RW)
  ]

  /** Pulse divider inputs. */
  const DividerInputs: seq<Register> := [
    Register("DIV1_INP", 0x40, MUX),
    Register("DIV2_INP", 0x41, MUX),
    Register("DIV3_INP", 0x42, MUX),
    Register("DIV4_INP", 0x43, MUX)
  ]

  /** Pulse generator delays and widths. */
  const PulseDelayWidth: seq<Register> := [
    Register("PULSE1_DLY", 0x44, RW),
    Register("PULSE2_DLY", 0x45, RW),
    Register("PULSE3_DLY", 0x46, RW),
    Register("PULSE4_DLY", 0x47, RW),
    Register("PULSE1_WID", 0x48, RW),
    Register("PULSE2_WID", 0x49, RW),
    Register("PULSE3_WID", 0x4A, RW),
    Register("PULSE4_WID", 0x4B, RW)
  ]

  /** Pulse generator prescalers and inputs. */
  const PulsePrescaleInput: seq<Register> := [
    Register("PULSE1_PRE", 0x4C, RW),
    Register("PULSE2_PRE", 0x4D, RW),
    Register("PULSE3_PRE", 0x4E, RW),
    Register("PULSE4_PRE", 0x4F, RW),
    Register("PULSE1_INP", 0x50, MUX),
    Register("PULSE2_INP", 0x51, MUX),
    Register("PULSE3_INP", 0x52, MUX),
    Register("PULSE4_INP", 0x53, MUX)
  ]

  /** Output polarity bit field. */
  const Polarity: seq<Register> := [
    Register("POLARITY", 0x54, RW)
  ]

  /** Quadrature encoder inputs. */
  const Quadrature: seq<Register> := [
    Register("QUAD_DIR", 0x55, MUX),
    Register("QUAD_STEP", 0x56, MUX)
  ]

  /** External position compare inputs. */
  const ExternalPositionCompare: seq<Register> := [
    Register("PC_ARM_INP", 0x57, MUX),
    Register("PC_GATE_INP", 0x58, MUX),
    Register("PC_PULSE_INP", 0x59, MUX)
  ]

  /** OUT1 and OUT2 multiplexers. */
  const Outputs1to2: seq<Register> := [
    Register("OUT1_TTL", 0x60, MUX),
    Register("OUT1_NIM", 0x61, MUX),
    Register("OUT1_LVDS", 0x62, MUX),
    Register("OUT2_TTL", 0x63, MUX),
    Register("OUT2_NIM", 0x64, MUX),
    Register("OUT2_LVDS", 0x65, MUX)
  ]

  /** OUT3 and OUT4 multiplexers. */
  const Outputs3to4: seq<Register> := [
    Register("OUT3_TTL", 0x66, MUX),
    Register("OUT3_OC", 0x67, MUX),
    Register("OUT3_LVDS", 0x68, MUX),
    Register("OUT4_TTL", 0x69, MUX),
    Register("OUT4_NIM", 0x6A, MUX),
    Register("OUT4_PECL", 0x6B, MUX)
  ]

  /** OUT5 and OUT6 encoder multiplexers. */
  const Outputs5to6: seq<Register> := [
    Register("OUT5_ENCA", 0x6C, MUX),
    Register("OUT5_ENCB", 0x6D, MUX),
    Register("OUT5_ENCZ", 0x6E, MUX),
    Register("OUT5_CONN", 0x6F, MUX),
    Register("OUT6_ENCA", 0x70, MUX),
    Register("OUT6_ENCB", 0x71, MUX),
    Register("OUT6_ENCZ", 0x72, MUX),
    Register("OUT6_CONN", 0x73, MUX)
  ]

  /** OUT7 and OUT8 encoder multiplexers. */
  const Outputs7to8: seq<Register> := [
    Register("OUT7_ENCA", 0x74, MUX),
    Register("OUT7_ENCB", 0x75, MUX),
    Register("OUT7_ENCZ", 0x76, MUX),
    Register("OUT7_CONN", 0x77, MUX),
    Register("OUT8_ENCA", 0x78, MUX),
    Register("OUT8_ENCB", 0x79, MUX),
    Register("OUT8_ENCZ", 0x7A, MUX),
    Register("OUT8_CONN", 0x7B, MUX)
  ]

  /** Divider first pulse control. */
  const DividerFirst: seq<Register> := [
    Register("DIV_FIRST", 0x7C, RW)
  ]

  /** System reset command. */
  const SystemReset: seq<Register> := [
    Register("SYS_RESET", 0x7E, CMD)
  ]

  /** Software inputs. */
  const SoftInputs: seq<Register> := [
    Register("SOFT_IN", 0x7F, RW)
  ]

  /** Position counter load commands. */
  const PositionLoad: seq<Register> := [
    Register("POS1_SETLO", 0x80, CMD),
    Register("POS1_SETHI", 0x81, CMD),
    Register("POS2_SETLO", 0x82, CMD),
    Register("POS2_SETHI", 0x83, CMD),
    Register("POS3_SETLO", 0x84, CMD),
    Register("POS3_SETHI", 0x85, CMD),
    Register("POS4_SETLO", 0x86, CMD),
    Register("POS4_SETHI", 0x87, CMD)
  ]

  /** Position compare source selection and arming. */
  const PositionCompareSetup: seq<Register> := [
    Register("PC_ENC", 0x88, RW),
    Register("PC_TSPRE", 0x89, RW),
    Register("PC_ARM_SEL", 0x8A, RW),
    Register("PC_ARM", 0x8B, CMD),
    Register("PC_DISARM", 0x8C, CMD),
    Register("PC_GATE_SEL", 0x8D, RW)
  ]

  /** Position compare gate parameters. */
  const GateParameters: seq<Register> := [
    Register("PC_GATE_STARTLO", 0x8E, RW),
    Register("PC_GATE_STARTHI", 0x8F, RW),
    Register("PC_GATE_WIDLO", 0x90, RW),
    Register("PC_GATE_WIDHI", 0x91, RW),
    Register("PC_GATE_NGATELO", 0x92, RW),
    Register("PC_GATE_NGATEHI", 0x93, RW),
    Register("PC_GATE_STEPLO", 0x94, RW),
    Register("PC_GATE_STEPHI", 0x95, RW)
  ]

  /** Position compare pulse source and parameters. */
  const PulseParameters: seq<Register> := [
    Register("PC_PULSE_SEL", 0x96, RW),
    Register("PC_PULSE_STARTLO", 0x97, RW),
    Register("PC_PULSE_STARTHI", 0x98, RW),
    Register("PC_PULSE_WIDLO", 0x99, RW),
    Register("PC_PULSE_WIDHI", 0x9A, RW),
    Register("PC_PULSE_STEPLO", 0x9B, RW),
    Register("PC_PULSE_STEPHI", 0x9C, RW),
    Register("PC_PULSE_MAXLO", 0x9D, RW),
    Register("PC_PULSE_MAXHI", 0x9E, RW)
  ]

  /** Capture mask, direction and pulse delay. */
  const CaptureDirectionDelay: seq<Register> := [
    Register("PC_BIT_CAP", 0x9F, RW),
    Register("PC_DIR", 0xA0, RW),
    Register("PC_PULSE_DLYLO", 0xA1, RW),
    Register("PC_PULSE_DLYHI", 0xA2, RW)
  ]

  /** System status registers. */
  const SystemStatus: seq<Register> := [
    Register("SYS_VER", 0xF0, RO),
    Register("SYS_STATERR", 0xF1, RO),
    Register("SYS_STAT1LO", 0xF2, RO),
    Register("SYS_STAT1HI", 0xF3, RO),
    Register("SYS_STAT2LO", 0xF4, RO),
    Register("SYS_STAT2HI", 0xF5, RO)
  ]

  /** Capture count registers. */
  const CaptureCount: seq<Register> := [
    Register("PC_NUM_CAPLO", 0xF6, RO),
    Register("PC_NUM_CAPHI", 0xF7, RO)
  ]


  /** The table as its runs, each with its first address and the first two letters
      of its names. */
  const RegisterRuns: seq<Run> := [
    Run(0x00, 'A', 'N', AndInvertEnable),
    Run(0x08, 'A', 'N', AndInputs12),
    Run(0x10, 'A', 'N', AndInputs34),
    Run(0x18, 'O', 'R', OrInvertEnable),
    Run(0x20, 'O', 'R', OrInputs12),
    Run(0x28, 'O', 'R', OrInputs34),
    Run(0x30, 'G', 'A', GateGenerators),
    Run(0x38, 'D', 'I', DividerDivisors),
    Run(0x40, 'D', 'I', DividerInputs),
    Run(0x44, 'P', 'U', PulseDelayWidth),
    Run(0x4C, 'P', 'U', PulsePrescaleInput),
    Run(0x54, 'P', 'O', Polarity),
    Run(0x55, 'Q', 'U', Quadrature),
    Run(0x57, 'P', 'C', ExternalPositionCompare),
    Run(0x60, 'O', 'U', Outputs1to2),
    Run(0x66, 'O', 'U', Outputs3to4),
    Run(0x6C, 'O', 'U', Outputs5to6),
    Run(0x74, 'O', 'U', Outputs7to8),
    Run(0x7C, 'D', 'I', DividerFirst),
    Run(0x7E, 'S', 'Y', SystemReset),
    Run(0x7F, 'S', 'O', SoftInputs),
    Run(0x80, 'P', 'O', PositionLoad),
    Run(0x88, 'P', 'C', PositionCompareSetup),
    Run(0x8E, 'P', 'C', GateParameters),
    Run(0x96, 'P', 'C', PulseParameters),
    Run(0x9F, 'P', 'C', CaptureDirectionDelay),
    Run(0xF0, 'S', 'Y', SystemStatus),
    Run(0xF6, 'P', 'C', CaptureCount)
  ]

  /** All 16-bit registers, in table order. */
  const Registers: seq<Register> := Concat(RegisterRuns, |RegisterRuns|)

  const Pairs: seq<Register32> := [
    Register32("DIV1_DIV", 0x38, 0x39, RW),
    Register32("DIV2_DIV", 0x3A, 0x3B, RW),
    Register32("DIV3_DIV", 0x3C, 0x3D, RW),
    Register32("DIV4_DIV", 0x3E, 0x3F, RW),
    Register32("POS1_SET", 0x80, 0x81, CMD),
    Register32("POS2_SET", 0x82, 0x83, CMD),
    Register32("POS3_SET", 0x84, 0x85, CMD),
    Register32("POS4_SET", 0x86, 0x87, CMD),
    Register32("PC_GATE_START", 0x8E, 0x8F, RW),
    Register32("PC_GATE_WID", 0x90, 0x91, RW),
    Register32("PC_GATE_NGATE", 0x92, 0x93, RW),
    Register32("PC_GATE_STEP", 0x94, 0x95, RW),
    Register32("PC_PULSE_START", 0x97, 0x98, RW),
    Register32("PC_PULSE_WID", 0x99, 0x9A, RW),
    Register32("PC_PULSE_STEP", 0x9B, 0x9C, RW),
    Register32("PC_PULSE_MAX", 0x9D, 0x9E, RW),
    Register32("PC_PULSE_DLY", 0xA1, 0xA2, RW),
    Register32("SYS_STAT1", 0xF2, 0xF3, RO),
    Register32("SYS_STAT2", 0xF4, 0xF5, RO),
    Register32("PC_NUM_CAP", 0xF6, 0xF7, RO)
  ]

  lemma AndInvertEnableRun()
    ensures Dense(Run(0x00, 'A', 'N', AndInvertEnable))
  {
  }

  lemma AndInvertEnableNames()
    ensures DistinctNames(AndInvertEnable)
  {
  }

  lemma AndInputs12Run()
    ensures Dense(Run(0x08, 'A', 'N', AndInputs12))
  {
  }

  lemma AndInputs12Names()
    ensures DistinctNames(AndInputs12)
  {
  }

  lemma AndInputs34Run()
    ensures Dense(Run(0x10, 'A', 'N', AndInputs34))
  {
  }

  lemma AndInputs34Names()
    ensures DistinctNames(AndInputs34)
  {
  }

  lemma OrInvertEnableRun()
    ensures Dense(Run(0x18, 'O', 'R', OrInvertEnable))
  {
  }

  lemma OrInvertEnableNames()
    ensures DistinctNames(OrInvertEnable)
  {
  }

  lemma OrInputs12Run()
    ensures Dense(Run(0x20, 'O', 'R', OrInputs12))
  {
  }

  lemma OrInputs12Names()
    ensures DistinctNames(OrInputs12)
  {
  }

  lemma OrInputs34Run()
    ensures Dense(Run(0x28, 'O', 'R', OrInputs34))
  {
  }

  lemma OrInputs34Names()
    ensures DistinctNames(OrInputs34)
  {
  }

  lemma GateGeneratorsRun()
    ensures Dense(Run(0x30, 'G', 'A', GateGenerators))
  {
  }

  lemma GateGeneratorsNames()
    ensures DistinctNames(GateGenerators)
  {
  }

  lemma DividerDivisorsRun()
    ensures Dense(Run(0x38, 'D', 'I', DividerDivisors))
  {
  }

  lemma DividerDivisorsNames()
    ensures DistinctNames(DividerDivisors)
  {
  }

  lemma DividerInputsRun()
    ensures Dense(Run(0x40, 'D', 'I', DividerInputs))
  {
  }

  lemma DividerInputsNames()
    ensures DistinctNames(DividerInputs)
  {
  }

  lemma PulseDelayWidthRun()
    ensures Dense(Run(0x44, 'P', 'U', PulseDelayWidth))
  {
  }

  lemma PulseDelayWidthNames()
    ensures DistinctNames(PulseDelayWidth)
  {
  }

  lemma PulsePrescaleInputRun()
    ensures Dense(Run(0x4C, 'P', 'U', PulsePrescaleInput))
  {
  }

  lemma PulsePrescaleInputNames()
    ensures DistinctNames(PulsePrescaleInput)
  {
  }

  lemma PolarityRun()
    ensures Dense(Run(0x54, 'P', 'O', Polarity))
  {
  }

  lemma PolarityNames()
    ensures DistinctNames(Polarity)
  {
  }

  lemma QuadratureRun()
    ensures Dense(Run(0x55, 'Q', 'U', Quadrature))
  {
  }

  lemma QuadratureNames()
    ensures DistinctNames(Quadrature)
  {
  }

  lemma ExternalPositionCompareRun()
    ensures Dense(Run(0x57, 'P', 'C', ExternalPositionCompare))
  {
  }

  lemma ExternalPositionCompareNames()
    ensures DistinctNames(ExternalPositionCompare)
  {
  }

  lemma Outputs1to2Run()
    ensures Dense(Run(0x60, 'O', 'U', Outputs1to2))
  {
  }

  lemma Outputs1to2Names()
    ensures DistinctNames(Outputs1to2)
  {
  }

  lemma Outputs3to4Run()
    ensures Dense(Run(0x66, 'O', 'U', Outputs3to4))
  {
  }

  lemma Outputs3to4Names()
    ensures DistinctNames(Outputs3to4)
  {
  }

  lemma Outputs5to6Run()
    ensures Dense(Run(0x6C, 'O', 'U', Outputs5to6))
  {
  }

  lemma Outputs5to6Names()
    ensures DistinctNames(Outputs5to6)
  {
  }

  lemma Outputs7to8Run()
    ensures Dense(Run(0x74, 'O', 'U', Outputs7to8))
  {
  }

  lemma Outputs7to8Names()
    ensures DistinctNames(Outputs7to8)
  {
  }

  lemma DividerFirstRun()
    ensures Dense(Run(0x7C, 'D', 'I', DividerFirst))
  {
  }

  lemma DividerFirstNames()
    ensures DistinctNames(DividerFirst)
  {
  }

  lemma SystemResetRun()
    ensures Dense(Run(0x7E, 'S', 'Y', SystemReset))
  {
  }

  lemma SystemResetNames()
    ensures DistinctNames(SystemReset)
  {
  }

  lemma SoftInputsRun()
    ensures Dense(Run(0x7F, 'S', 'O', SoftInputs))
  {
  }

  lemma SoftInputsNames()
    ensures DistinctNames(SoftInputs)
  {
  }

  lemma PositionLoadRun()
    ensures Dense(Run(0x80, 'P', 'O', PositionLoad))
  {
  }

  lemma PositionLoadNames()
    ensures DistinctNames(PositionLoad)
  {
  }

  lemma PositionCompareSetupRun()
    ensures Dense(Run(0x88, 'P', 'C', PositionCompareSetup))
  {
  }

  lemma PositionCompareSetupNames()
    ensures DistinctNames(PositionCompareSetup)
  {
  }

  lemma GateParametersRun()
    ensures Dense(Run(0x8E, 'P', 'C', GateParameters))
  {
  }

  lemma GateParametersNames()
    ensures DistinctNames(GateParameters)
  {
  }

  lemma PulseParametersRun()
    ensures Dense(Run(0x96, 'P', 'C', PulseParameters))
  {
  }

  lemma PulseParametersNames()
    ensures DistinctNames(PulseParameters)
  {
  }

  lemma CaptureDirectionDelayRun()
    ensures Dense(Run(0x9F, 'P', 'C', CaptureDirectionDelay))
  {
  }

  lemma CaptureDirectionDelayNames()
    ensures DistinctNames(CaptureDirectionDelay)
  {
  }

  lemma SystemStatusRun()
    ensures Dense(Run(0xF0, 'S', 'Y', SystemStatus))
  {
  }

  lemma SystemStatusNames()
    ensures DistinctNames(SystemStatus)
  {
  }

  lemma CaptureCountRun()
    ensures Dense(Run(0xF6, 'P', 'C', CaptureCount))
  {
  }

  lemma CaptureCountNames()
    ensures DistinctNames(CaptureCount)
  {
  }

  lemma AndInvertEnableDisjoint()
    ensures DisjointFromEarlier(RegisterRuns, 0)
  {
  }

  lemma AndInputs12Apart()
    ensures NamesDisjoint(AndInvertEnable, AndInputs12)
  {
  }

  lemma AndInputs12Disjoint()
    ensures DisjointFromEarlier(RegisterRuns, 1)
  {
    AndInputs12Apart();
  }

  lemma AndInputs34Apart()
    ensures NamesDisjoint(AndInvertEnable, AndInputs34) &&
      NamesDisjoint(AndInputs12, AndInputs34)
  {
  }

  lemma AndInputs34Disjoint()
    ensures DisjointFromEarlier(RegisterRuns, 2)
  {
    AndInputs34Apart();
  }

  lemma OrInvertEnableDisjoint()
    ensures DisjointFromEarlier(RegisterRuns, 3)
  {
  }

  lemma OrInputs12Apart()
    ensures NamesDisjoint(OrInvertEnable, OrInputs12)
  {
  }

  lemma OrInputs12Disjoint()
    ensures DisjointFromEarlier(RegisterRuns, 4)
  {
    OrInputs12Apart();
  }

  lemma OrInputs34Apart()
    ensures NamesDisjoint(OrInvertEnable, OrInputs34) &&
      NamesDisjoint(OrInputs12, OrInputs34)
  {
  }

  lemma OrInputs34Disjoint()
    ensures DisjointFromEarlier(RegisterRuns, 5)
  {
    OrInputs34Apart();
  }

  lemma GateGeneratorsDisjoint()
    ensures DisjointFromEarlier(RegisterRuns, 6)
  {
  }

  lemma DividerDivisorsDisjoint()
    ensures DisjointFromEarlier(RegisterRuns, 7)
  {
  }

  lemma DividerInputsApart()
    ensures NamesDisjoint(DividerDivisors, DividerInputs)
  {
  }

  lemma DividerInputsDisjoint()
    ensures DisjointFromEarlier(RegisterRuns, 8)
  {
    DividerInputsApart();
  }

  lemma PulseDelayWidthDisjoint()
    ensures DisjointFromEarlier(RegisterRuns, 9)
  {
  }

  lemma PulsePrescaleInputApart()
    ensures NamesDisjoint(PulseDelayWidth, PulsePrescaleInput)
  {
  }

  lemma PulsePrescaleInputDisjoint()
    ensures DisjointFromEarlier(RegisterRuns, 10)
  {
    PulsePrescaleInputApart();
  }

  lemma PolarityDisjoint()
    ensures DisjointFromEarlier(RegisterRuns, 11)
  {
  }

  lemma QuadratureDisjoint()
    ensures DisjointFromEarlier(RegisterRuns, 12)
  {
  }

  lemma ExternalPositionCompareDisjoint()
    ensures DisjointFromEarlier(RegisterRuns, 13)
  {
  }

  lemma Outputs1to2Disjoint()
    ensures DisjointFromEarlier(RegisterRuns, 14)
  {
  }

  lemma Outputs3to4Apart()
    ensures NamesDisjoint(Outputs1to2, Outputs3to4)
  {
  }

  lemma Outputs3to4Disjoint()
    ensures DisjointFromEarlier(RegisterRuns, 15)
  {
    Outputs3to4Apart();
  }

  lemma Outputs5to6Apart()
    ensures NamesDisjoint(Outputs1to2, Outputs5to6) &&
      NamesDisjoint(Outputs3to4, Outputs5to6)
  {
  }

  lemma Outputs5to6Disjoint()
    ensures DisjointFromEarlier(RegisterRuns, 16)
  {
    Outputs5to6Apart();
  }

  lemma Outputs7to8Apart()
    ensures NamesDisjoint(Outputs1to2, Outputs7to8) &&
      NamesDisjoint(Outputs3to4, Outputs7to8) &&
      NamesDisjoint(Outputs5to6, Outputs7to8)
  {
  }

  lemma Outputs7to8Disjoint()
    ensures DisjointFromEarlier(RegisterRuns, 17)
  {
    Outputs7to8Apart();
  }

  lemma DividerFirstApart()
    ensures NamesDisjoint(DividerDivisors, DividerFirst) &&
      NamesDisjoint(DividerInputs, DividerFirst)
  {
  }

  lemma DividerFirstDisjoint()
    ensures DisjointFromEarlier(RegisterRuns, 18)
  {
    DividerFirstApart();
  }

  lemma SystemResetDisjoint()
    ensures DisjointFromEarlier(RegisterRuns, 19)
  {
  }

  lemma SoftInputsDisjoint()
    ensures DisjointFromEarlier(RegisterRuns, 20)
  {
  }

  lemma PositionLoadApart()
    ensures NamesDisjoint(Polarity, PositionLoad)
  {
  }

  lemma PositionLoadDisjoint()
    ensures DisjointFromEarlier(RegisterRuns, 21)
  {
    PositionLoadApart();
  }

  lemma PositionCompareSetupApart()
    ensures NamesDisjoint(ExternalPositionCompare, PositionCompareSetup)
  {
  }

  lemma PositionCompareSetupDisjoint()
    ensures DisjointFromEarlier(RegisterRuns, 22)
  {
    PositionCompareSetupApart();
  }

  lemma GateParametersApart()
    ensures NamesDisjoint(ExternalPositionCompare, GateParameters) &&
      NamesDisjoint(PositionCompareSetup, GateParameters)
  {
  }

  lemma GateParametersDisjoint()
    ensures DisjointFromEarlier(RegisterRuns, 23)
  {
    GateParametersApart();
  }

  lemma PulseParametersApart()
    ensures NamesDisjoint(ExternalPositionCompare, PulseParameters) &&
      NamesDisjoint(PositionCompareSetup, PulseParameters) &&
      NamesDisjoint(GateParameters, PulseParameters)
  {
    PulseApartFromExternalPositionCompare();
    PulseApartFromPositionCompareSetup();
    PulseApartFromGateParameters();
  }

  lemma PulseApartFromExternalPositionCompare()
    ensures NamesDisjoint(ExternalPositionCompare, PulseParameters)
  {
  }

  lemma PulseApartFromPositionCompareSetup()
    ensures NamesDisjoint(PositionCompareSetup, PulseParameters)
  {
  }

  lemma PulseApartFromGateParameters()
    ensures NamesDisjoint(GateParameters, PulseParameters)
  {
  }

  lemma PulseParametersDisjoint()
    ensures DisjointFromEarlier(RegisterRuns, 24)
  {
    PulseParametersApart();
  }

  lemma CaptureDirectionDelayApart()
    ensures NamesDisjoint(ExternalPositionCompare, CaptureDirectionDelay) &&
      NamesDisjoint(PositionCompareSetup, CaptureDirectionDelay) &&
      NamesDisjoint(GateParameters, CaptureDirectionDelay) &&
      NamesDisjoint(PulseParameters, CaptureDirectionDelay)
  {
    CaptureDirectionApartFromExternalPositionCompare();
    CaptureDirectionApartFromPositionCompareSetup();
    CaptureDirectionApartFromGateParameters();
    CaptureDirectionApartFromPulseParameters();
  }

  lemma CaptureDirectionApartFromExternalPositionCompare()
    ensures NamesDisjoint(ExternalPositionCompare, CaptureDirectionDelay)
  {
  }

  lemma CaptureDirectionApartFromPositionCompareSetup()
    ensures NamesDisjoint(PositionCompareSetup, CaptureDirectionDelay)
  {
  }

  lemma CaptureDirectionApartFromGateParameters()
    ensures NamesDisjoint(GateParameters, CaptureDirectionDelay)
  {
  }

  lemma CaptureDirectionApartFromPulseParameters()
    ensures NamesDisjoint(PulseParameters, CaptureDirectionDelay)
  {
  }

  lemma CaptureDirectionDelayDisjoint()
    ensures DisjointFromEarlier(RegisterRuns, 25)
  {
    CaptureDirectionDelayApart();
  }

  lemma SystemStatusApart()
    ensures NamesDisjoint(SystemReset, SystemStatus)
  {
  }

  lemma SystemStatusDisjoint()
    ensures DisjointFromEarlier(RegisterRuns, 26)
  {
    SystemStatusApart();
  }

  lemma CaptureCountApart()
    ensures NamesDisjoint(ExternalPositionCompare, CaptureCount) &&
      NamesDisjoint(PositionCompareSetup, CaptureCount) &&
      NamesDisjoint(GateParameters, CaptureCount) &&
      NamesDisjoint(PulseParameters, CaptureCount) &&
      NamesDisjoint(CaptureDirectionDelay, CaptureCount)
  {
  }

  lemma CaptureCountDisjoint()
    ensures DisjointFromEarlier(RegisterRuns, 27)
  {
    CaptureCountApart();
  }

  lemma RegisterRunsDense()
    ensures forall k :: 0 <= k < |RegisterRuns| ==> Dense(RegisterRuns[k]) && DistinctNames(RegisterRuns[k].entries)
  {
    AndInvertEnableRun();
    AndInvertEnableNames();
    AndInputs12Run();
    AndInputs12Names();
    AndInputs34Run();
    AndInputs34Names();
    OrInvertEnableRun();
    OrInvertEnableNames();
    OrInputs12Run();
    OrInputs12Names();
    OrInputs34Run();
    OrInputs34Names();
    GateGeneratorsRun();
    GateGeneratorsNames();
    DividerDivisorsRun();
    DividerDivisorsNames();
    DividerInputsRun();
    DividerInputsNames();
    PulseDelayWidthRun();
    PulseDelayWidthNames();
    PulsePrescaleInputRun();
    PulsePrescaleInputNames();
    PolarityRun();
    PolarityNames();
    QuadratureRun();
    QuadratureNames();
    ExternalPositionCompareRun();
    ExternalPositionCompareNames();
    Outputs1to2Run();
    Outputs1to2Names();
    Outputs3to4Run();
    Outputs3to4Names();
    Outputs5to6Run();
    Outputs5to6Names();
    Outputs7to8Run();
    Outputs7to8Names();
    DividerFirstRun();
    DividerFirstNames();
    SystemResetRun();
    SystemResetNames();
    SoftInputsRun();
    SoftInputsNames();
    PositionLoadRun();
    PositionLoadNames();
    PositionCompareSetupRun();
    PositionCompareSetupNames();
    GateParametersRun();
    GateParametersNames();
    PulseParametersRun();
    PulseParametersNames();
    CaptureDirectionDelayRun();
    CaptureDirectionDelayNames();
    SystemStatusRun();
    SystemStatusNames();
    CaptureCountRun();
    CaptureCountNames();
  }

  lemma RegisterRunsDisjoint()
    ensures forall l :: 0 <= l < |RegisterRuns| ==> DisjointFromEarlier(RegisterRuns, l)
  {
    forall l | 0 <= l < |RegisterRuns|
      ensures DisjointFromEarlier(RegisterRuns, l)
    {
      if l == 0 {
        AndInvertEnableDisjoint();
      } else if l == 1 {
        AndInputs12Disjoint();
      } else if l == 2 {
        AndInputs34Disjoint();
      } else if l == 3 {
        OrInvertEnableDisjoint();
      } else if l == 4 {
        OrInputs12Disjoint();
      } else if l == 5 {
        OrInputs34Disjoint();
      } else if l == 6 {
        GateGeneratorsDisjoint();
      } else if l == 7 {
        DividerDivisorsDisjoint();
      } else if l == 8 {
        DividerInputsDisjoint();
      } else if l == 9 {
        PulseDelayWidthDisjoint();
      } else if l == 10 {
        PulsePrescaleInputDisjoint();
      } else if l == 11 {
        PolarityDisjoint();
      } else if l == 12 {
        QuadratureDisjoint();
      } else if l == 13 {
        ExternalPositionCompareDisjoint();
      } else if l == 14 {
        Outputs1to2Disjoint();
      } else if l == 15 {
        Outputs3to4Disjoint();
      } else if l == 16 {
        Outputs5to6Disjoint();
      } else if l == 17 {
        Outputs7to8Disjoint();
      } else if l == 18 {
        DividerFirstDisjoint();
      } else if l == 19 {
        SystemResetDisjoint();
      } else if l == 20 {
        SoftInputsDisjoint();
      } else if l == 21 {
        PositionLoadDisjoint();
      } else if l == 22 {
        PositionCompareSetupDisjoint();
      } else if l == 23 {
        GateParametersDisjoint();
      } else if l == 24 {
        PulseParametersDisjoint();
      } else if l == 25 {
        CaptureDirectionDelayDisjoint();
      } else if l == 26 {
        SystemStatusDisjoint();
      } else {
        CaptureCountDisjoint();
      }
    }
  }

  lemma RegisterRunsOrdered()
    ensures forall k :: 0 < k < |RegisterRuns| ==> End(RegisterRuns[k - 1]) <= RegisterRuns[k].base
  {
  }

  lemma RegisterRunsWellFormed()
    ensures RunsWellFormed(RegisterRuns)
  {
    RegisterRunsDense();
    RegisterRunsOrdered();
    RegisterRunsDisjoint();
  }
  // ---------------------------------------------------------------------------
  // The 64 system bus signals, in index order

  /** Signal 0: no connection. */
  const Disconnect: seq<string> := ["DISCONNECT"]

  /** Signals 1 to 12: input connectors IN1 to IN4. */
  const InputConnectors: seq<string> := ["IN1_TTL", "IN1_NIM", "IN1_LVDS", "IN2_TTL", "IN2_NIM", "IN2_LVDS", "IN3_TTL", "IN3_OC", "IN3_LVDS", "IN4_TTL", "IN4_CMP", "IN4_PECL"]

  /** Signals 13 to 20: encoder inputs IN5 and IN6. */
  const EncoderInputs5to6: seq<string> := ["IN5_ENCA", "IN5_ENCB", "IN5_ENCZ", "IN5_CONN", "IN6_ENCA", "IN6_ENCB", "IN6_ENCZ", "IN6_CONN"]

  /** Signals 21 to 28: encoder inputs IN7 and IN8. */
  const EncoderInputs7to8: seq<string> := ["IN7_ENCA", "IN7_ENCB", "IN7_ENCZ", "IN7_CONN", "IN8_ENCA", "IN8_ENCB", "IN8_ENCZ", "IN8_CONN"]

  /** Signals 29 to 31: position compare signals. */
  const PositionCompareSignals: seq<string> := ["PC_ARM", "PC_GATE", "PC_PULSE"]

  /** Signals 32 to 35: AND gate outputs. */
  const AndOutputs: seq<string> := ["AND1", "AND2", "AND3", "AND4"]

  /** Signals 36 to 39: OR gate outputs. */
  const OrOutputs: seq<string> := ["OR1", "OR2", "OR3", "OR4"]

  /** Signals 40 to 43: gate generator outputs. */
  const GateOutputs: seq<string> := ["GATE1", "GATE2", "GATE3", "GATE4"]

  /** Signals 44 to 47: divider outputs, divided. */
  const DividedOutputs: seq<string> := ["DIV1_OUTD", "DIV2_OUTD", "DIV3_OUTD", "DIV4_OUTD"]

  /** Signals 48 to 51: divider outputs, not divided. */
  const PassthroughOutputs: seq<string> := ["DIV1_OUTN", "DIV2_OUTN", "DIV3_OUTN", "DIV4_OUTN"]

  /** Signals 52 to 55: pulse generator outputs. */
  const PulseOutputs: seq<string> := ["PULSE1", "PULSE2", "PULSE3", "PULSE4"]

  /** Signals 56 to 57: quadrature encoder outputs. */
  const QuadratureOutputs: seq<string> := ["QUAD_OUTA", "QUAD_OUTB"]

  /** Signals 58 to 59: internal clocks. */
  const Clocks: seq<string> := ["CLOCK_1KHZ", "CLOCK_1MHZ"]

  /** Signals 60 to 63: software inputs. */
  const SoftInputSignals: seq<string> := ["SOFT_IN1", "SOFT_IN2", "SOFT_IN3", "SOFT_IN4"]


  const SignalRuns: seq<NameRun> := [
    NameRun('D', 'I', Disconnect),
    NameRun('I', 'N', InputConnectors),
    NameRun('I', 'N', EncoderInputs5to6),
    NameRun('I', 'N', EncoderInputs7to8),
    NameRun('P', 'C', PositionCompareSignals),
    NameRun('A', 'N', AndOutputs),
    NameRun('O', 'R', OrOutputs),
    NameRun('G', 'A', GateOutputs),
    NameRun('D', 'I', DividedOutputs),
    NameRun('D', 'I', PassthroughOutputs),
    NameRun('P', 'U', PulseOutputs),
    NameRun('Q', 'U', QuadratureOutputs),
    NameRun('C', 'L', Clocks),
    NameRun('S', 'O', SoftInputSignals)
  ]

  /** `SYSTEM_BUS_SIGNALS`: signal names by index. */
  const SystemBusSignals: seq<string> := ConcatNames(SignalRuns, |SignalRuns|)

  lemma DisconnectRun()
    ensures Distinct(Disconnect) && forall i :: 0 <= i < |Disconnect| ==> HasLead(Disconnect[i], 'D', 'I')
  {
  }

  lemma InputConnectorsRun()
    ensures Distinct(InputConnectors) && forall i :: 0 <= i < |InputConnectors| ==> HasLead(InputConnectors[i], 'I', 'N')
  {
  }

  lemma EncoderInputs5to6Run()
    ensures Distinct(EncoderInputs5to6) && forall i :: 0 <= i < |EncoderInputs5to6| ==> HasLead(EncoderInputs5to6[i], 'I', 'N')
  {
  }

  lemma EncoderInputs7to8Run()
    ensures Distinct(EncoderInputs7to8) && forall i :: 0 <= i < |EncoderInputs7to8| ==> HasLead(EncoderInputs7to8[i], 'I', 'N')
  {
  }

  lemma PositionCompareSignalsRun()
    ensures Distinct(PositionCompareSignals) && forall i :: 0 <= i < |PositionCompareSignals| ==> HasLead(PositionCompareSignals[i], 'P', 'C')
  {
  }

  lemma AndOutputsRun()
    ensures Distinct(AndOutputs) && forall i :: 0 <= i < |AndOutputs| ==> HasLead(AndOutputs[i], 'A', 'N')
  {
  }

  lemma OrOutputsRun()
    ensures Distinct(OrOutputs) && forall i :: 0 <= i < |OrOutputs| ==> HasLead(OrOutputs[i], 'O', 'R')
  {
  }

  lemma GateOutputsRun()
    ensures Distinct(GateOutputs) && forall i :: 0 <= i < |GateOutputs| ==> HasLead(GateOutputs[i], 'G', 'A')
  {
  }

  lemma DividedOutputsRun()
    ensures Distinct(DividedOutputs) && forall i :: 0 <= i < |DividedOutputs| ==> HasLead(DividedOutputs[i], 'D', 'I')
  {
  }

  lemma PassthroughOutputsRun()
    ensures Distinct(PassthroughOutputs) && forall i :: 0 <= i < |PassthroughOutputs| ==> HasLead(PassthroughOutputs[i], 'D', 'I')
  {
  }

  lemma PulseOutputsRun()
    ensures Distinct(PulseOutputs) && forall i :: 0 <= i < |PulseOutputs| ==> HasLead(PulseOutputs[i], 'P', 'U')
  {
  }

  lemma QuadratureOutputsRun()
    ensures Distinct(QuadratureOutputs) && forall i :: 0 <= i < |QuadratureOutputs| ==> HasLead(QuadratureOutputs[i], 'Q', 'U')
  {
  }

  lemma ClocksRun()
    ensures Distinct(Clocks) && forall i :: 0 <= i < |Clocks| ==> HasLead(Clocks[i], 'C', 'L')
  {
  }

  lemma SoftInputSignalsRun()
    ensures Distinct(SoftInputSignals) && forall i :: 0 <= i < |SoftInputSignals| ==> HasLead(SoftInputSignals[i], 'S', 'O')
  {
  }

  lemma SignalLeadsDisjoint()
    ensures Disjoint(InputConnectors, EncoderInputs5to6) && Disjoint(InputConnectors, EncoderInputs7to8)
    ensures Disjoint(EncoderInputs5to6, EncoderInputs7to8)
    ensures Disjoint(Disconnect, DividedOutputs) && Disjoint(Disconnect, PassthroughOutputs)
    ensures Disjoint(DividedOutputs, PassthroughOutputs)
  {
  }

  /** Where each run starts in the signal table. */
  lemma SignalOffsets()
    ensures |ConcatNames(SignalRuns, 1)| == 1 && |ConcatNames(SignalRuns, 5)| == 32
    ensures |ConcatNames(SignalRuns, 12)| == 58 && |ConcatNames(SignalRuns, 13)| == 60
    ensures |SystemBusSignals| == 64
  {
    assert |ConcatNames(SignalRuns, 1)| == 1;
    assert |ConcatNames(SignalRuns, 2)| == 13;
    assert |ConcatNames(SignalRuns, 3)| == 21;
    assert |ConcatNames(SignalRuns, 4)| == 29;
    assert |ConcatNames(SignalRuns, 5)| == 32;
    assert |ConcatNames(SignalRuns, 6)| == 36;
    assert |ConcatNames(SignalRuns, 7)| == 40;
    assert |ConcatNames(SignalRuns, 8)| == 44;
    assert |ConcatNames(SignalRuns, 9)| == 48;
    assert |ConcatNames(SignalRuns, 10)| == 52;
    assert |ConcatNames(SignalRuns, 11)| == 56;
    assert |ConcatNames(SignalRuns, 12)| == 58;
    assert |ConcatNames(SignalRuns, 13)| == 60;
    assert |ConcatNames(SignalRuns, 14)| == 64;
  }

  lemma SignalRunsDense()
    ensures forall k :: 0 <= k < |SignalRuns| ==>
      Distinct(SignalRuns[k].names) &&
      forall i :: 0 <= i < |SignalRuns[k].names| ==> HasLead(SignalRuns[k].names[i], SignalRuns[k].lead0, SignalRuns[k].lead1)
  {
    DisconnectRun();
    InputConnectorsRun();
    EncoderInputs5to6Run();
    EncoderInputs7to8Run();
    PositionCompareSignalsRun();
    AndOutputsRun();
    OrOutputsRun();
    GateOutputsRun();
    DividedOutputsRun();
    PassthroughOutputsRun();
    PulseOutputsRun();
    QuadratureOutputsRun();
    ClocksRun();
    SoftInputSignalsRun();
  }

  lemma SignalRunsWellFormed()
    ensures NameRunsWellFormed(SignalRuns)
  {
    SignalRunsDense();
    SignalRunsDisjointLow();
    SignalRunsDisjointHigh();
  }

  lemma SignalRunsDisjointLow()
    ensures forall k, l :: 0 <= k < l < 7 && SignalRuns[k].lead0 == SignalRuns[l].lead0 && SignalRuns[k].lead1 == SignalRuns[l].lead1 ==>
      Disjoint(SignalRuns[k].names, SignalRuns[l].names)
  {
    SignalLeadsDisjoint();
  }

  lemma SignalRunsDisjointHigh()
    ensures forall k, l :: 0 <= k < l < |SignalRuns| && 7 <= l && SignalRuns[k].lead0 == SignalRuns[l].lead0 && SignalRuns[k].lead1 == SignalRuns[l].lead1 ==>
      Disjoint(SignalRuns[k].names, SignalRuns[l].names)
  {
    SignalLeadsDisjoint();
  }

  // ---------------------------------------------------------------------------
  // Lookups. Each Python lookup dictionary is built by a comprehension over its
  // table, so a key maps to the LAST entry that carries it.

  /** Index of the last element of `s` whose key is `k`. */
  function LastWith<T, K(==)>(s: seq<T>, key: T -> K, k: K): (r: Option<nat>)
    ensures r.Some? ==> r.value < |s| && key(s[r.value]) == k &&
                        forall j :: r.value < j < |s| ==> key(s[j]) != k
    ensures r.None? ==> forall j :: 0 <= j < |s| ==> key(s[j]) != k
  {
    if s == [] then None
    else if key(s[|s| - 1]) == k then Some(|s| - 1)
    else LastWith(s[..|s| - 1], key, k)
  }

  /** Index of the last entry named `name`. */
  function LastNamed(rs: seq<Register>, name: string): (r: Option<nat>)
    ensures r.Some? ==> r.value < |rs| && rs[r.value].name == name &&
                        forall j :: r.value < j < |rs| ==> rs[j].name != name
    ensures r.None? ==> forall j :: 0 <= j < |rs| ==> rs[j].name != name
  {
    LastWith(rs, (x: Register) => x.name, name)
  }

  /** Index of the last entry at `address`. */
  function LastAt(rs: seq<Register>, address: int): (r: Option<nat>)
    ensures r.Some? ==> r.value < |rs| && rs[r.value].address == address &&
                        forall j :: r.value < j < |rs| ==> rs[j].address != address
    ensures r.None? ==> forall j :: 0 <= j < |rs| ==> rs[j].address != address
  {
    LastWith(rs, (x: Register) => x.address, address)
  }

  /** Index of the last pair named `name`. */
  function LastNamed32(ps: seq<Register32>, name: string): (r: Option<nat>)
    ensures r.Some? ==> r.value < |ps| && ps[r.value].name == name &&
                        forall j :: r.value < j < |ps| ==> ps[j].name != name
    ensures r.None? ==> forall j :: 0 <= j < |ps| ==> ps[j].name != name
  {
    LastWith(ps, (x: Register32) => x.name, name)
  }

  /** Index of the last occurrence of `x` in `s`. */
  function LastIndexOf(s: seq<string>, x: string): (r: Option<nat>)
    ensures r.Some? ==> r.value < |s| && s[r.value] == x && forall j :: r.value < j < |s| ==> s[j] != x
    ensures r.None? ==> forall j :: 0 <= j < |s| ==> s[j] != x
  {
    LastWith(s, (y: string) => y, x)
  }

  /** The argument of `get_register`: a name (a `str`) or an address (an `int`). */
  datatype RegisterKey = ByName(name: string) | ByAddress(address: int)

  predicate Matches(r: Register, key: RegisterKey) {
    match key
    case ByName(n) => r.name == n
    case ByAddress(a) => r.address == a
  }

  function GetRegister(key: RegisterKey): Result<Register> {
    match key
    case ByName(n) =>
      (match LastNamed(Registers, n)
       case None => Err(UnknownRegisterName)
       case Some(i) => Ok(Registers[i]))
    case ByAddress(a) =>
      (match LastAt(Registers, a)
       case None => Err(UnknownRegisterAddress)
       case Some(i) => Ok(Registers[i]))
  }

  function GetRegister32(name: string): Result<Register32> {
    match LastNamed32(Pairs, name)
    case None => Err(UnknownRegister32)
    case Some(i) => Ok(Pairs[i])
  }

  /** The elements of `s` that `keep` accepts, in order. */
  function Filter<T(!new)>(s: seq<T>, keep: T -> bool): (r: seq<T>)
    ensures forall x :: x in r <==> x in s && keep(x)
  {
    if s == [] then []
    else Filter(s[..|s| - 1], keep) + (if keep(s[|s| - 1]) then [s[|s| - 1]] else [])
  }

  /** The entries of `rs` of type `t`, in order. */
  function OfType(rs: seq<Register>, t: RegisterType): (r: seq<Register>)
    ensures forall x :: x in r <==> x in rs && x.regType == t
  {
    Filter(rs, OfTypeKeep(t))
  }

  function OfTypeKeep(t: RegisterType): Register -> bool {
    (x: Register) => x.regType == t
  }

  /** The pairs of `ps` of type `t`, in order. */
  function OfType32(ps: seq<Register32>, t: RegisterType): (r: seq<Register32>)
    ensures forall x :: x in r <==> x in ps && x.regType == t
  {
    Filter(ps, OfType32Keep(t))
  }

  function OfType32Keep(t: RegisterType): Register32 -> bool {
    (x: Register32) => x.regType == t
  }

  function GetAllRegisters(t: Option<RegisterType>): seq<Register> {
    match t
    case None => Registers
    case Some(rt) => OfType(Registers, rt)
  }

  function GetAllRegisters32(t: Option<RegisterType>): seq<Register32> {
    match t
    case None => Pairs
    case Some(rt) => OfType32(Pairs, rt)
  }

  /** `REGISTERS_BY_ADDRESS.get(address)` followed by a type test. */
  predicate HasType(address: int, t: RegisterType) {
    match LastAt(Registers, address)
    case None => false
    case Some(i) => Registers[i].regType == t
  }

  predicate IsMuxRegister(address: int) { HasType(address, MUX) }
  predicate IsReadonlyRegister(address: int) { HasType(address, RO) }
  predicate IsCommandRegister(address: int) { HasType(address, CMD) }

  // ---------------------------------------------------------------------------
  // System bus

  function SignalIndexToName(index: int): Result<string> {
    if 0 <= index < |SystemBusSignals| then Ok(SystemBusSignals[index]) else Err(SignalIndexOutOfRange)
  }

  function SignalNameToIndex(name: string): Result<nat> {
    match LastIndexOf(SystemBusSignals, name)
    case None => Err(UnknownSignal)
    case Some(i) => Ok(i)
  }
  /** The run holding a catalogued address. */
  lemma RunContaining(a: int) returns (k: nat)
    requires InCatalogueRange(a)
    ensures k < |RegisterRuns| && RegisterRuns[k].base <= a < End(RegisterRuns[k])
  {
    if a < 0x38 {
      k := RunContainingA(a);
    } else if a < 0x5A {
      k := RunContainingB(a);
    } else if a < 0x80 {
      k := RunContainingC(a);
    } else {
      k := RunContainingD(a);
    }
  }

  lemma RunContainingA(a: int) returns (k: nat)
    requires InCatalogueRange(a) && a < 0x38
    ensures k < |RegisterRuns| && RegisterRuns[k].base <= a < End(RegisterRuns[k])
  {
    if a < 0x08 {
      k := 0;
    } else if a < 0x10 {
      k := 1;
    } else if a < 0x18 {
      k := 2;
    } else if a < 0x20 {
      k := 3;
    } else if a < 0x28 {
      k := 4;
    } else if a < 0x30 {
      k := 5;
    } else {
      k := 6;
    }
  }

  lemma RunContainingB(a: int) returns (k: nat)
    requires InCatalogueRange(a) && 0x38 <= a && a < 0x5A
    ensures k < |RegisterRuns| && RegisterRuns[k].base <= a < End(RegisterRuns[k])
  {
    if a < 0x40 {
      k := 7;
    } else if a < 0x44 {
      k := 8;
    } else if a < 0x4C {
      k := 9;
    } else if a < 0x54 {
      k := 10;
    } else if a < 0x55 {
      k := 11;
    } else if a < 0x57 {
      k := 12;
    } else {
      k := 13;
    }
  }

  lemma RunContainingC(a: int) returns (k: nat)
    requires InCatalogueRange(a) && 0x5A <= a && a < 0x80
    ensures k < |RegisterRuns| && RegisterRuns[k].base <= a < End(RegisterRuns[k])
  {
    if a < 0x66 {
      k := 14;
    } else if a < 0x6C {
      k := 15;
    } else if a < 0x74 {
      k := 16;
    } else if a < 0x7C {
      k := 17;
    } else if a < 0x7D {
      k := 18;
    } else if a < 0x7F {
      k := 19;
    } else {
      k := 20;
    }
  }

  lemma RunContainingD(a: int) returns (k: nat)
    requires InCatalogueRange(a) && 0x80 <= a
    ensures k < |RegisterRuns| && RegisterRuns[k].base <= a < End(RegisterRuns[k])
  {
    if a < 0x88 {
      k := 21;
    } else if a < 0x8E {
      k := 22;
    } else if a < 0x96 {
      k := 23;
    } else if a < 0x9F {
      k := 24;
    } else if a < 0xA3 {
      k := 25;
    } else if a < 0xF6 {
      k := 26;
    } else {
      k := 27;
    }
  }

  // ---------------------------------------------------------------------------
  // Catalogue facts

  /** The address ranges the 16-bit table covers. */
  predicate InCatalogueRange(a: int) {
    0x00 <= a <= 0x59 || 0x60 <= a <= 0x7C || 0x7E <= a <= 0xA2 || 0xF0 <= a <= 0xF7
  }

  lemma RunsInRange()
    ensures forall k, a :: 0 <= k < |RegisterRuns| && RegisterRuns[k].base <= a < End(RegisterRuns[k]) ==>
      InCatalogueRange(a)
  {
  }

  /** Every 16-bit register passes the address check of its constructor; addresses
      increase along the table, so no two registers share an address, and no two
      share a name. */
  lemma CatalogueWellFormed()
    ensures forall i :: 0 <= i < |Registers| ==>
      NewRegister(Registers[i].name, Registers[i].address, Registers[i].regType) == Ok(Registers[i])
    ensures Increasing(Registers) && DistinctAddresses(Registers) && DistinctNames(Registers)
  {
    RegisterRunsWellFormed();
    ConcatWellFormed(RegisterRuns, |RegisterRuns|);
  }

  /** `get_register(address)` finds a register exactly on the four catalogued ranges. */
  lemma AddressMap(a: int)
    ensures GetRegister(ByAddress(a)).Ok? <==> InCatalogueRange(a)
  {
    RegisterRunsWellFormed();
    var n := |RegisterRuns|;
    var found := LastAt(Registers, a);
    if found.Some? {
      var k, j := ConcatLocate(RegisterRuns, n, found.value);
      assert Dense(RegisterRuns[k]);
      RunsInRange();
    }
    if InCatalogueRange(a) {
      var k := RunContaining(a);
      assert Dense(RegisterRuns[k]);
      var i := ConcatContains(RegisterRuns, n, k, a - RegisterRuns[k].base);
    }
  }

  /** `get_register` returns the one register with the given name or address, and
      raises KeyError when there is none. */
  lemma GetRegisterFinds(key: RegisterKey)
    ensures GetRegister(key).Ok? <==> exists i :: 0 <= i < |Registers| && Matches(Registers[i], key)
    ensures forall i :: 0 <= i < |Registers| && Matches(Registers[i], key) ==> GetRegister(key) == Ok(Registers[i])
    ensures GetRegister(key).Err? ==>
      GetRegister(key).error == (if key.ByName? then UnknownRegisterName else UnknownRegisterAddress)
  {
    CatalogueWellFormed();
  }

  lemma PairNamesDistinct()
    ensures forall i, j :: 0 <= i < |Pairs| && 0 <= j < |Pairs| && Pairs[i].name == Pairs[j].name ==> i == j
  {
    FirstPairNamesApart();
    LastPairNamesApart();
    CrossPairNamesApart();
  }

  lemma FirstPairNamesApart()
    ensures forall i, j :: 0 <= i < 10 && 0 <= j < 10 && i != j ==> Pairs[i].name != Pairs[j].name
  {
  }

  lemma LastPairNamesApart()
    ensures forall i, j :: 10 <= i < 20 && 10 <= j < 20 && i != j ==> Pairs[i].name != Pairs[j].name
  {
  }

  lemma CrossPairNamesApart()
    ensures forall i, j :: 0 <= i < 10 && 10 <= j < 20 ==> Pairs[i].name != Pairs[j].name
  {
  }

  /** Every pair passes its constructor's checks and both of its halves are
      catalogued 16-bit registers. */
  lemma PairsResolve()
    ensures forall i :: 0 <= i < |Pairs| ==>
      var p := Pairs[i];
      NewRegister32(p.name, p.addressLo, p.addressHi, p.regType) == Ok(p) &&
      GetRegister(ByAddress(p.addressLo)).Ok? && GetRegister(ByAddress(p.addressHi)).Ok?
  {
    PairAddressesInRange();
    forall i | 0 <= i < |Pairs|
      ensures GetRegister(ByAddress(Pairs[i].addressLo)).Ok? && GetRegister(ByAddress(Pairs[i].addressHi)).Ok?
    {
      AddressMap(Pairs[i].addressLo);
      AddressMap(Pairs[i].addressHi);
    }
  }

  lemma PairAddressesInRange()
    ensures forall i :: 0 <= i < |Pairs| ==> InCatalogueRange(Pairs[i].addressLo) && InCatalogueRange(Pairs[i].addressHi)
  {
  }

  /** `get_register_32bit` returns the one pair with the given name. */
  lemma GetRegister32Finds(name: string)
    ensures GetRegister32(name).Ok? <==> exists i :: 0 <= i < |Pairs| && Pairs[i].name == name
    ensures forall i :: 0 <= i < |Pairs| && Pairs[i].name == name ==> GetRegister32(name) == Ok(Pairs[i])
    ensures GetRegister32(name).Err? ==> GetRegister32(name).error == UnknownRegister32
  {
    PairNamesDistinct();
  }

  /** The type predicates hold exactly on catalogued addresses of that type. */
  lemma TypePredicates(a: int)
    ensures IsMuxRegister(a) <==> exists i :: 0 <= i < |Registers| && Registers[i].address == a && Registers[i].regType == MUX
    ensures IsReadonlyRegister(a) <==> exists i :: 0 <= i < |Registers| && Registers[i].address == a && Registers[i].regType == RO
    ensures IsCommandRegister(a) <==> exists i :: 0 <= i < |Registers| && Registers[i].address == a && Registers[i].regType == CMD
  {
    CatalogueWellFormed();
  }

  /** `s` is strictly increasing in `key`. */
  predicate IncreasingBy<T>(s: seq<T>, key: T -> int) {
    forall i, j :: 0 <= i < j < |s| ==> key(s[i]) < key(s[j])
  }

  /** Filtering keeps the order of its input: what increases in a key before
      still does after. */
  lemma {:induction false} FilterIncreasing<T(!new)>(s: seq<T>, keep: T -> bool, key: T -> int)
    requires IncreasingBy(s, key)
    ensures IncreasingBy(Filter(s, keep), key)
  {
    if s != [] {
      var init, last := s[..|s| - 1], s[|s| - 1];
      assert IncreasingBy(init, key);
      FilterIncreasing(init, keep, key);
      var front := Filter(init, keep);
      if keep(last) {
        var r := front + [last];
        forall i, j | 0 <= i < j < |r|
          ensures key(r[i]) < key(r[j])
        {
          if j == |front| {
            assert r[i] in init;
            var k :| 0 <= k < |init| && init[k] == r[i];
          }
        }
      } else {
        assert Filter(s, keep) == front + [];
      }
    }
  }

  function Address(r: Register): int { r.address }

  function AddressLo(p: Register32): int { p.addressLo }

  /** Filtering keeps the order of the table. */
  lemma OfTypeIncreasing(rs: seq<Register>, t: RegisterType)
    requires Increasing(rs)
    ensures Increasing(OfType(rs, t))
  {
    assert IncreasingBy(rs, Address);
    FilterIncreasing(rs, OfTypeKeep(t), Address);
    assert IncreasingBy(OfType(rs, t), Address);
  }

  /** The pairs are listed at increasing low addresses. */
  lemma PairsIncreasing()
    ensures IncreasingBy(Pairs, AddressLo)
  {
    assert forall i :: 0 <= i < |Pairs| - 1 ==> AddressLo(Pairs[i]) < AddressLo(Pairs[i + 1]);
    StepsIncreasing(Pairs, AddressLo);
  }

  /** A sequence whose neighbours increase in `key` increases in `key`. */
  lemma StepsIncreasing<T>(s: seq<T>, key: T -> int)
    requires forall i :: 0 <= i < |s| - 1 ==> key(s[i]) < key(s[i + 1])
    ensures IncreasingBy(s, key)
  {
    forall i, j | 0 <= i < j < |s|
      ensures key(s[i]) < key(s[j])
    {
      StepsBelow(s, key, i, j);
    }
  }

  lemma {:induction false} StepsBelow<T>(s: seq<T>, key: T -> int, i: int, j: int)
    requires forall k :: 0 <= k < |s| - 1 ==> key(s[k]) < key(s[k + 1])
    requires 0 <= i < j < |s|
    ensures key(s[i]) < key(s[j])
    decreases j - i
  {
    if i + 1 < j {
      StepsBelow(s, key, i, j - 1);
    }
  }

  /** Filtering keeps the order of the pair table. */
  lemma OfType32Increasing(ps: seq<Register32>, t: RegisterType)
    requires IncreasingBy(ps, AddressLo)
    ensures IncreasingBy(OfType32(ps, t), AddressLo)
  {
    FilterIncreasing(ps, OfType32Keep(t), AddressLo);
  }

  /** `get_all_registers(t)` is the sub-list of the table of type `t`, in table
      order (addresses increasing); with no type it is the whole table. */
  lemma GetAllRegistersFilters(t: RegisterType)
    ensures forall r :: r in GetAllRegisters(Some(t)) <==> r in Registers && r.regType == t
    ensures Increasing(GetAllRegisters(Some(t)))
    ensures GetAllRegisters(None) == Registers
  {
    CatalogueWellFormed();
    OfTypeIncreasing(Registers, t);
  }

  lemma GetAllRegisters32Filters(t: RegisterType)
    ensures forall p :: p in GetAllRegisters32(Some(t)) <==> p in Pairs && p.regType == t
    ensures |GetAllRegisters32(Some(t))| <= |Pairs|
    ensures IncreasingBy(GetAllRegisters32(Some(t)), AddressLo)
    ensures GetAllRegisters32(None) == Pairs
  {
    OfType32Length(Pairs, t);
    PairsIncreasing();
    OfType32Increasing(Pairs, t);
  }

  lemma {:induction false} OfType32Length(ps: seq<Register32>, t: RegisterType)
    ensures |OfType32(ps, t)| <= |ps|
  {
    if ps != [] {
      OfType32Length(ps[..|ps| - 1], t);
    }
  }

  /** There are 64 distinct signal names. */
  lemma SignalTable()
    ensures |SystemBusSignals| == 64 && Distinct(SystemBusSignals)
  {
    SignalRunsWellFormed();
    SignalOffsets();
    ConcatNamesDistinct(SignalRuns, |SignalRuns|);
  }

  /** `signal_index_to_name` is defined exactly on 0..63 and
      `signal_name_to_index` inverts it. */
  lemma SignalRoundTrip(index: int)
    ensures SignalIndexToName(index).Ok? <==> 0 <= index < 64
    ensures SignalIndexToName(index).Err? ==> SignalIndexToName(index).error == SignalIndexOutOfRange
    ensures 0 <= index < 64 ==> SignalNameToIndex(SignalIndexToName(index).value) == Ok(index)
  {
    SignalTable();
  }

  /** `signal_name_to_index` accepts exactly the table's names, raises ValueError
      otherwise, and `signal_index_to_name` inverts it. */
  lemma SignalNameRoundTrip(name: string)
    ensures SignalNameToIndex(name).Ok? <==> name in SystemBusSignals
    ensures SignalNameToIndex(name).Err? ==> SignalNameToIndex(name).error == UnknownSignal
    ensures SignalNameToIndex(name).Ok? ==> SignalIndexToName(SignalNameToIndex(name).value) == Ok(name)
  {
  }

  /** A few entries of the signal table, at both ends and in the middle. */
  lemma SignalExamples()
    ensures SignalIndexToName(0) == Ok("DISCONNECT") && SignalIndexToName(1) == Ok("IN1_TTL")
    ensures SignalIndexToName(32) == Ok("AND1") && SignalIndexToName(63) == Ok("SOFT_IN4")
    ensures SignalNameToIndex("AND1") == Ok(32) && SignalNameToIndex("CLOCK_1MHZ") == Ok(59)
  {
    SignalTable();
    SignalOffsets();
    ConcatNamesIndex(SignalRuns, 14, 0, 0);
    ConcatNamesIndex(SignalRuns, 14, 1, 0);
    ConcatNamesIndex(SignalRuns, 14, 5, 0);
    ConcatNamesIndex(SignalRuns, 14, 12, 1);
    ConcatNamesIndex(SignalRuns, 14, 13, 3);
    SignalRoundTrip(32);
    SignalRoundTrip(59);
  }
}
