/**
 * A value-level specification of the 1802 engine of cpu.c: the register
 * file, the frame-timing state, the screen and keyboard fields and the bound
 * memory map, and what one CPU_Execute call does to them.
 *
 * The per-opcode handlers (cpu1802.h) are not part of this model: an
 * InstructionSet gives, for the fetched opcode, the machine after the fetch and
 * the four EF lines, the register file the handler leaves and the memory and
 * port accesses it makes, in order.  It cannot touch Cycles or State.
 */
module Engine {
  import opened Bits
  import opened Wrappers
  import opened Memory
  import Frame
  import Keys

  /** D, X, P, T, DF, IE, Q and R[16] (cpu.c:40-42). */
  datatype Regs = Regs(D: byte, X: nibble, P: nibble, T: byte, DF: byte, IE: byte, Q: byte, R: seq<word>)
  type RegFile = r: Regs | |r.R| == 16 witness Regs(0, 0, 0, 0, 0, 0, 0, seq(16, i => 0))

  /** R[P], the program counter. */
  function PC(r: RegFile): word
  {
    r.R[r.P]
  }

  /** R[P]++ in WORD16 arithmetic. */
  function AdvancePC(r: RegFile): (r': RegFile)
    ensures PC(r') == Inc16(PC(r)) && r'.P == r.P
  {
    r.(R := r.R[r.P := Inc16(r.R[r.P])])
  }

  /** What SYSTEM_Command answers for key reads: the sixteen key lines, the lines seen
      after selecting the second Studio 2 keypad, and the ELF's I key. */
  datatype KeyState = KeyState(lines: seq<bool>, secondPad: seq<bool>, iKey: bool)
  {
    predicate Valid()
    {
      |lines| == 16 && |secondPad| == 16
    }
  }

  /** HWC_READKEYBOARD: the host looks only at the low four bits of its parameter. */
  function KeyBit(lines: seq<bool>, param: byte): (b: byte)
    requires |lines| == 16
    ensures b == 1 <==> lines[param % 16]
    ensures b <= 1
  {
    if lines[param % 16] then 1 else 0
  }

  /** The SYSTEM_Command calls that act on the host rather than ask it something. */
  datatype HostCommand = UpdateQ(q: byte) | FrameSync | UpdateLed(value: byte)

  /** Every global of cpu.c that the engine reads or writes.  screen is the offset of
      screenMemory from the RAM buffer (None while it is still NULL). */
  datatype Machine = Machine(
    regs: RegFile,
    timing: Frame.Timing,
    memMap: MemoryMap,
    ram: seq<byte>,
    bootsMonitor: bool,
    screenEnabled: bool,
    screen: Option<int>,
    scroll: byte,
    latch: byte,
    currentKey: byte)

  ghost predicate Valid(m: Machine)
  {
    Frame.Valid(m.timing) && Memory.Valid(m.memMap, m.ram)
  }

  // ---- Reset (CPU_Reset) -----------------------------------------------------------

  function ResetRegs(v: Variant, r: RegFile): RegFile
  {
    var r1 := r.(X := 0, P := 0, Q := 0, R := r.R[0 := 0], IE := 1, DF := r.DF % 2);
    if v == Vip then r1.(D := 8, R := r1.R[0 := 8][2 := 0x800A], P := 2, X := 2) else r1
  }

  /** The register and timing part of CPU_Reset, after any new RAM binding. */
  function Reset(m: Machine): Machine
  {
    m.(regs := ResetRegs(m.memMap.variant, m.regs), timing := Frame.Timing(1, Frame.State1Cycles),
       screenEnabled := false)
  }

  /** The reset values: X = P = Q = R0 = 0, IE = 1, DF a single bit, State 1 with the full
      budget, screen off; on the VIP the boot pre-load D = 8, R0 = 8, P = X = 2,
      R2 = 0x800A.  D, T and the other registers are kept. */
  lemma ResetValues(m: Machine)
    ensures var r := Reset(m).regs;
      && r.Q == 0 && r.IE == 1 && r.DF == m.regs.DF % 2 && r.DF <= 1 && r.T == m.regs.T
      && (m.memMap.variant != Vip ==> r.X == 0 && r.P == 0 && r.R[0] == 0 && r.D == m.regs.D)
      && (m.memMap.variant == Vip ==> r.D == 8 && r.R[0] == 8 && r.P == 2 && r.X == 2 && r.R[2] == 0x800A)
      && (forall i :: 0 <= i < 16 && i != 0 && (i != 2 || m.memMap.variant != Vip) ==> r.R[i] == m.regs.R[i])
    ensures Reset(m).timing == Frame.Timing(1, 1876) && !Reset(m).screenEnabled
    ensures Reset(m) == m.(regs := Reset(m).regs, timing := Reset(m).timing, screenEnabled := false)
  {
    Frame.DerivedConstants();
  }

  // ---- I/O and EF dispatch ---------------------------------------------------------

  /** CPU_InputHandler: IN 1 turns the display on and reads 0; IN 4 reads the keypad
      latch on the ELF; every other port reads 0. */
  function Input(m: Machine, port: byte): (r: (Machine, byte))
  {
    if port == 1 then (m.(screenEnabled := true), 0)
    else if port == 4 && m.memMap.variant == Elf then (m, m.latch)
    else (m, 0)
  }

  /** CPU_OutputHandler: OUT 0 drives Q through the host, OUT 1 turns the display off,
      OUT 2 loads the keyboard select latch (VIP, Studio 2), OUT 4 drives the LEDs (ELF). */
  function Output(m: Machine, port: byte, data: byte): (r: (Machine, Option<HostCommand>))
  {
    if port == 0 then (m, Some(UpdateQ(data)))
    else if port == 1 then (m.(screenEnabled := false), None)
    else if port == 2 && m.memMap.variant != Elf then (m.(latch := data % 16), None)
    else if port == 4 && m.memMap.variant == Elf then (m, Some(UpdateLed(data)))
    else (m, None)
  }

  /** CPU_ReadEFlag. */
  function EFlag(m: Machine, flag: byte, keys: KeyState): byte
    requires keys.Valid()
  {
    if flag == 1 then 1
    else if flag == 3 then
      match m.memMap.variant
      case Vip =>
        if m.bootsMonitor && PC(m.regs) == 0x8024 && m.latch == 0x0C then 1
        else KeyBit(keys.lines, m.latch)
      case Elf => if m.currentKey != 0xFF then 1 else 0
      case Studio2 => KeyBit(keys.lines, m.latch)
    else if flag == 4 then
      match m.memMap.variant
      case Vip => 0
      case Elf => if keys.iKey then 0 else 1
      case Studio2 => KeyBit(keys.secondPad, m.latch)
    else 0
  }

  /** The port and flag contract: only the screen flag and the latch ever change, each
      only on its own port and variants; unused ports read 0; EF1 is always 1; the ELF's
      EF3 is "a key is down" and EF4 is "the I key is up". */
  lemma IoDispatch(m: Machine, port: byte, data: byte, keys: KeyState)
    requires keys.Valid()
    ensures Input(m, port).0 == (if port == 1 then m.(screenEnabled := true) else m)
    ensures Input(m, port).1 == (if port == 4 && m.memMap.variant == Elf then m.latch else 0)
    ensures Output(m, port, data).0 ==
      if port == 1 then m.(screenEnabled := false)
      else if port == 2 && m.memMap.variant != Elf then m.(latch := data % 16)
      else m
    ensures Output(m, port, data).1.Some? <==> port == 0 || (port == 4 && m.memMap.variant == Elf)
    ensures EFlag(m, 1, keys) == 1
    ensures m.memMap.variant == Elf ==> EFlag(m, 3, keys) == (if m.currentKey != 0xFF then 1 else 0)
    ensures m.memMap.variant == Elf ==> (EFlag(m, 4, keys) == 1 <==> !keys.iKey)
    ensures forall f: byte :: f != 1 && f != 3 && f != 4 ==> EFlag(m, f, keys) == 0
  {
  }

  // ---- One instruction (CPU_Execute) -----------------------------------------------

  /** A memory store or port access made by an opcode handler. */
  datatype Access = Store(address: word, value: byte) | Out(port: byte, data: byte) | In(port: byte)

  /** What an opcode handler does: the register file it leaves, and its accesses in order. */
  datatype Effect = Effect(regs: RegFile, accesses: seq<Access>)

  /** The opcode handlers: opcode, machine after the fetch, EF1-EF4 -> effect. */
  type InstructionSet = (byte, Machine, seq<byte>) -> Effect

  /** Only RAM, the screen flag and the latch can be changed by an access. */
  predicate AccessFrame(m: Machine, m': Machine)
  {
    m' == m.(ram := m'.ram, screenEnabled := m'.screenEnabled, latch := m'.latch) && |m'.ram| == |m.ram|
  }

  function Perform(m: Machine, a: Access): (r: (Machine, seq<HostCommand>))
    requires Memory.Valid(m.memMap, m.ram)
    ensures AccessFrame(m, r.0) && Memory.Valid(r.0.memMap, r.0.ram)
  {
    match a
    case Store(address, value) => (m.(ram := Memory.Write(m.memMap, m.ram, address, value)), [])
    case Out(port, data) =>
      var (m', c) := Output(m, port, data);
      (m', if c.Some? then [c.value] else [])
    case In(port) => (Input(m, port).0, [])
  }

  function PerformAll(m: Machine, accesses: seq<Access>): (r: (Machine, seq<HostCommand>))
    requires Memory.Valid(m.memMap, m.ram)
    ensures AccessFrame(m, r.0) && Memory.Valid(r.0.memMap, r.0.ram)
    decreases |accesses|
  {
    if accesses == [] then (m, [])
    else
      var (m1, c1) := PerformAll(m, accesses[..|accesses| - 1]);
      var (m2, c2) := Perform(m1, accesses[|accesses| - 1]);
      (m2, c1 + c2)
  }

  /** Fetch the opcode at R[P], advance R[P], charge the flat two units. */
  function Fetch(m: Machine): (r: (Machine, byte))
    requires Memory.Valid(m.memMap, m.ram)
  {
    (m.(regs := AdvancePC(m.regs),
        timing := Frame.Timing(m.timing.state, m.timing.cycles - Frame.InstructionCost)),
     Memory.Read(m.memMap, m.ram, PC(m.regs)))
  }

  /** The EF lines a handler may test: element n - 1 is EFn. */
  function Flags(m: Machine, keys: KeyState): seq<byte>
    requires keys.Valid()
  {
    [EFlag(m, 1, keys), EFlag(m, 2, keys), EFlag(m, 3, keys), EFlag(m, 4, keys)]
  }

  /** INTERRUPT() (macros1802.h is not part of this model), per the CDP1802 user
      manual: when IE = 1, T <- (X,P), X <- 2, P <- 1, IE <- 0. */
  function Interrupt(r: RegFile): RegFile
  {
    if r.IE != 0 then r.(T := r.X * 16 + r.P, X := 2, P := 1, IE := 0) else r
  }

  /** The switch from State 1 to State 2: with the screen on, step out of an IDL (opcode
      0x00) at R[P], then take the interrupt. */
  function BulkEnd(m: Machine): Machine
    requires Memory.Valid(m.memMap, m.ram)
  {
    if !m.screenEnabled then m
    else
      var r := if Memory.Read(m.memMap, m.ram, PC(m.regs)) == 0 then AdvancePC(m.regs) else m.regs;
      m.(regs := Interrupt(r))
  }

  /** The screen page R0 & 0xFF00 as an offset into RAM (Studio 2 RAM starts at 0x800). */
  function ScreenBase(v: Variant, r0: word): int
  {
    r0 / 256 * 256 - (if v == Studio2 then Studio2RamBase else 0)
  }

  /** The frame key scan: the highest-numbered pressed line, 0xFF for none. */
  function ScanResult(lines: seq<bool>): (k: byte)
    requires |lines| == 16
    ensures k == 0xFF <==> forall i :: 0 <= i < 16 ==> !lines[i]
    ensures k != 0xFF ==> k < 16 && lines[k] && forall j :: k < j < 16 ==> !lines[j]
  {
    var k := Keys.LastPressed(lines);
    if k == -1 then 0xFF else k
  }

  /** Key edge handling: latch and current key after the scan returned newKey. */
  function KeyEdge(v: Variant, latch: byte, current: byte, newKey: byte): (r: (byte, byte))
    requires newKey == 0xFF || newKey < 16
  {
    if newKey == current then (latch, current)
    else if v == Elf && newKey != 0xFF then ((latch * 16 + newKey) % 256, newKey)
    else (latch, newKey)
  }

  /** The switch from State 2 to State 1: capture the screen pointer and scroll offset
      from R0, then scan the keys. */
  function PreliminaryEnd(m: Machine, keys: KeyState): Machine
    requires keys.Valid()
  {
    var r0 := m.regs.R[0];
    var k := KeyEdge(m.memMap.variant, m.latch, m.currentKey, ScanResult(keys.lines));
    m.(screen := Some(ScreenBase(m.memMap.variant, r0)), scroll := r0 % 256, latch := k.0, currentKey := k.1)
  }

  datatype StepResult = StepResult(machine: Machine, rState: byte, commands: seq<HostCommand>)

  /** The machine after the opcode handler has run (before the timing test). */
  function AfterOpcode(m: Machine, isa: InstructionSet, keys: KeyState): (r: (Machine, seq<HostCommand>))
    requires Valid(m) && keys.Valid()
    ensures Memory.Valid(r.0.memMap, r.0.ram)
  {
    var (m1, opcode) := Fetch(m);
    var effect := isa(opcode, m1, Flags(m1, keys));
    var (m2, commands) := PerformAll(m1, effect.accesses);
    (m2.(regs := effect.regs), commands)
  }

  /** One call of CPU_Execute. */
  function Step(m: Machine, isa: InstructionSet, keys: KeyState): (r: StepResult)
    requires Valid(m) && keys.Valid()
    ensures Valid(r.machine)
  {
    var (m3, commands) := AfterOpcode(m, isa, keys);
    var (t, rs) := Frame.Expire(m3.timing);
    if rs == 0 then StepResult(m3, 0, commands)
    else if rs == 2 then StepResult(BulkEnd(m3).(timing := t), 2, commands)
    else StepResult(PreliminaryEnd(m3, keys).(timing := t), 1, commands + [FrameSync])
  }

  /** CPU_GetScreenMemoryAddress: the captured pointer, or none while the display is off. */
  function ScreenQuery(m: Machine): (p: Option<int>)
    ensures !m.screenEnabled ==> p == None
    ensures m.screenEnabled ==> p == m.screen
  {
    if m.screenEnabled then m.screen else None
  }

  // ---- What one call guarantees ----------------------------------------------------

  /** Timing does not depend on the opcode: state, counter and return value are those of
      Frame.Tick, whatever the handler did. */
  lemma StepTiming(m: Machine, isa: InstructionSet, keys: KeyState)
    requires Valid(m) && keys.Valid()
    ensures Step(m, isa, keys).machine.timing == Frame.Tick(m.timing).0
    ensures Step(m, isa, keys).rState == Frame.Tick(m.timing).1
  {
  }

  /** No call changes the memory binding or the size of RAM. */
  lemma StepKeepsBinding(m: Machine, isa: InstructionSet, keys: KeyState)
    requires Valid(m) && keys.Valid()
    ensures Step(m, isa, keys).machine.memMap == m.memMap
    ensures |Step(m, isa, keys).machine.ram| == |m.ram|
    ensures Step(m, isa, keys).machine.bootsMonitor == m.bootsMonitor
  {
  }

  /** Handlers that leave the registers as fetched and access nothing, as an unrecognised
      opcode does. */
  function NoOpHandlers(): InstructionSet
  {
    (opcode: byte, m: Machine, flags: seq<byte>) => Effect(m.regs, [])
  }

  /** Away from a state switch such an instruction only advances R[P] and charges two units. */
  lemma NoOpStep(m: Machine, keys: KeyState)
    requires Valid(m) && keys.Valid() && m.timing.cycles >= Frame.InstructionCost
    ensures Step(m, NoOpHandlers(), keys) ==
      StepResult(m.(regs := AdvancePC(m.regs),
                    timing := Frame.Timing(m.timing.state, m.timing.cycles - 2)), 0, [])
  {
  }

  /** The engine itself only changes registers when State 1 ends: on every other call the
      registers are those the opcode handler left. */
  lemma RegistersChangeOnlyAtBulkEnd(m: Machine, isa: InstructionSet, keys: KeyState)
    requires Valid(m) && keys.Valid()
    ensures Step(m, isa, keys).rState != 2 ==>
      Step(m, isa, keys).machine.regs == AfterOpcode(m, isa, keys).0.regs
    ensures Step(m, isa, keys).rState == 2 ==>
      Step(m, isa, keys).machine.regs == BulkEnd(AfterOpcode(m, isa, keys).0).regs
  {
  }

  /** State 1 ends with the display off: registers, P, X and IE are untouched. */
  lemma BulkEndScreenOff(m: Machine)
    requires Memory.Valid(m.memMap, m.ram) && !m.screenEnabled
    ensures BulkEnd(m) == m
  {
  }

  /** State 1 ends with the display on: an IDL at R[P] is stepped over, then when IE = 1
      the interrupt saves (X,P) in T and selects P = 1, X = 2 with IE cleared; with IE = 0
      nothing but the IDL skip happens. */
  lemma BulkEndScreenOn(m: Machine)
    requires Memory.Valid(m.memMap, m.ram) && m.screenEnabled
    ensures var skip := Memory.Read(m.memMap, m.ram, PC(m.regs)) == 0;
      var r := BulkEnd(m).regs;
      && BulkEnd(m) == m.(regs := r)
      && r.R == (if skip then m.regs.R[m.regs.P := Inc16(PC(m.regs))] else m.regs.R)
      && r.D == m.regs.D && r.DF == m.regs.DF && r.Q == m.regs.Q
      && (m.regs.IE != 0 ==> r.P == 1 && r.X == 2 && r.IE == 0 && r.T == m.regs.X * 16 + m.regs.P)
      && (m.regs.IE == 0 ==> r.P == m.regs.P && r.X == m.regs.X && r.IE == 0 && r.T == m.regs.T)
  {
  }

  /** State 2 ends: the screen page and scroll offset come from R0, the current key becomes
      the scanned key, and nothing else but the latch changes. */
  lemma PreliminaryEndCapture(m: Machine, keys: KeyState)
    requires keys.Valid()
    ensures var m' := PreliminaryEnd(m, keys);
      && m'.screen == Some((m.regs.R[0] as int) / 256 * 256 - (if m.memMap.variant == Studio2 then 0x800 else 0))
      && m'.scroll == m.regs.R[0] % 256
      && m'.currentKey == ScanResult(keys.lines)
      && (ScanResult(keys.lines) == m.currentKey ==> m'.latch == m.latch)
      && m' == m.(screen := m'.screen, scroll := m'.scroll, latch := m'.latch, currentKey := m'.currentKey)
  {
  }

  /** The latch changes only on a change of key: never when the same key (or no key) is
      still held, never on release, never outside the ELF; on the ELF a new key k is
      shifted in as the low nibble, the old low nibble becoming the high one. */
  lemma KeyEdgeRules(v: Variant, latch: byte, current: byte, k: byte)
    requires k == 0xFF || k < 16
    ensures KeyEdge(v, latch, current, k).1 == k
    ensures k == current ==> KeyEdge(v, latch, current, k).0 == latch
    ensures v != Elf || k == 0xFF ==> KeyEdge(v, latch, current, k).0 == latch
    ensures v == Elf && k != current && k != 0xFF ==>
      var l := KeyEdge(v, latch, current, k).0; l % 16 == k && l / 16 == latch % 16
  {
    if v == Elf && k != current && k != 0xFF {
      var l := (latch * 16 + k) % 256;
      var hi := latch % 16;
      assert latch * 16 + k == 256 * (latch / 16) + (hi * 16 + k);
      ModUnique(latch * 16 + k, 256, latch / 16, hi * 16 + k);
      assert l == hi * 16 + k;
      ModUnique(l, 16, hi, k);
    }
  }

  /** Key 5 held for one frame, then released: the current key goes 5 then 0xFF; the ELF
      latch takes nibble 5 and keeps it on release; elsewhere the latch never moves. */
  lemma KeyScenario(m: Machine, keys1: KeyState, keys2: KeyState)
    requires keys1.Valid() && keys2.Valid() && m.currentKey == 0xFF
    requires forall i :: 0 <= i < 16 ==> keys1.lines[i] == (i == 5)
    requires forall i :: 0 <= i < 16 ==> !keys2.lines[i]
    ensures var m1 := PreliminaryEnd(m, keys1);
      var m2 := PreliminaryEnd(m1, keys2);
      && m1.currentKey == 5 && m2.currentKey == 0xFF
      && (m.memMap.variant == Elf ==> m1.latch % 16 == 5 && m2.latch == m1.latch)
      && (m.memMap.variant != Elf ==> m1.latch == m.latch && m2.latch == m.latch)
  {
    assert keys1.lines[5];
    var k := ScanResult(keys1.lines);
    assert k != 0xFF && keys1.lines[k];
    assert k == 5;
    KeyEdgeRules(m.memMap.variant, m.latch, m.currentKey, 5);
  }

  /** On the VIP and the Studio 2 the latch is a keyboard select value of four bits. */
  ghost predicate LatchIsNibble(m: Machine)
  {
    m.memMap.variant != Elf ==> m.latch < 16
  }

  lemma {:induction false} PerformAllKeepsLatchNibble(m: Machine, accesses: seq<Access>)
    requires Memory.Valid(m.memMap, m.ram) && LatchIsNibble(m)
    ensures LatchIsNibble(PerformAll(m, accesses).0)
    decreases |accesses|
  {
    if accesses != [] {
      PerformAllKeepsLatchNibble(m, accesses[..|accesses| - 1]);
    }
  }

  /** Every call keeps the select latch within four bits, whatever the handlers do. */
  lemma StepKeepsLatchNibble(m: Machine, isa: InstructionSet, keys: KeyState)
    requires Valid(m) && keys.Valid() && LatchIsNibble(m)
    ensures LatchIsNibble(Step(m, isa, keys).machine)
  {
    var (m1, opcode) := Fetch(m);
    PerformAllKeepsLatchNibble(m1, isa(opcode, m1, Flags(m1, keys)).accesses);
  }

  lemma {:induction false} PerformAllKeepsRom(m: Machine, accesses: seq<Access>, a: word)
    requires Memory.Valid(m.memMap, m.ram)
    requires m.memMap.variant == Vip && MonitorBase <= a < MonitorBase + MonitorSize
    ensures Memory.Read(m.memMap, PerformAll(m, accesses).0.ram, a) == m.memMap.rom[a - MonitorBase]
    decreases |accesses|
  {
    var r := PerformAll(m, accesses).0;
    VipMonitorWindow(r.memMap, r.ram, a, 0);
  }

  /** The VIP monitor window reads the monitor image before and after every call. */
  lemma MonitorIsReadOnly(m: Machine, isa: InstructionSet, keys: KeyState, a: word)
    requires Valid(m) && keys.Valid()
    requires m.memMap.variant == Vip && MonitorBase <= a < MonitorBase + MonitorSize
    ensures Memory.Read(m.memMap, m.ram, a) == m.memMap.rom[a - MonitorBase]
    ensures var m' := Step(m, isa, keys).machine;
      m'.memMap == m.memMap && Memory.Read(m'.memMap, m'.ram, a) == m.memMap.rom[a - MonitorBase]
  {
    VipMonitorWindow(m.memMap, m.ram, a, 0);
    var m' := Step(m, isa, keys).machine;
    VipMonitorWindow(m'.memMap, m'.ram, a, 0);
  }
}
