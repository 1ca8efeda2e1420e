/**
 * The debugger of the desktop emulator (debug.c) as values: its pointers and
 * modes, the key commands, one call of DBG_Execute, byte loading through the
 * memory map's write policy, and the "name@hex" load specification.  The
 * class in module Debugger runs against these definitions.
 */
module Debug {
  import opened Bits
  import opened Wrappers
  import opened Memory
  import Frame
  import Keys
  import Engine

  /** ram[0x600], the buffer DBG_Reset binds; its mask is 0x7FF. */
  const RamBufferSize := 0x600
  const RamBufferMask := 0x7FF
  /** Where the VIP monitor starts executing. */
  const VipEntry := 0x800A
  /** A breakpoint address that is, in practice, never reached. */
  const NoBreak := 0xFFFF
  /** The host keys scanned are ' ' .. 'Z'. */
  const KeyCount := 'Z' as int - ' ' as int + 1

  datatype DebugState = DebugState(
    inDebugMode: bool,
    programPointer: word,
    dataPointer: word,
    breakPoint: word,
    lastKey: int)

  /** The host keyboard during one call: IF_KeyPressed for ' ' .. 'Z', and the shift key. */
  datatype HostInput = HostInput(pressed: seq<bool>, shift: bool)
  {
    predicate Valid()
    {
      |pressed| == KeyCount
    }

    function KeyPressed(c: char): bool
      requires Valid() && ' ' <= c <= 'Z'
    {
      pressed[c as int - ' ' as int]
    }
  }

  /** The emulated machine once the debugger has bound its RAM buffer. */
  ghost predicate Bound(m: Engine.Machine)
  {
    Engine.Valid(m) && |m.ram| == RamBufferSize
  }

  lemma BufferMask()
    ensures IsRamMask(RamBufferSize, RamBufferMask)
  {
    assert IsPow2(0x10) by {
      assert IsPow2(1); assert IsPow2(2); assert IsPow2(4); assert IsPow2(8);
    }
    assert IsPow2(0x100) by {
      assert IsPow2(0x20); assert IsPow2(0x40); assert IsPow2(0x80);
    }
    assert IsPow2(0x800) by {
      assert IsPow2(0x200); assert IsPow2(0x400);
    }
  }

  // ---- DBG_Reset --------------------------------------------------------------------

  /** CPU_Reset(ram, sizeof(ram)) as seen by the machine. */
  function ResetMachine(m: Engine.Machine): (r: Engine.Machine)
    requires Bound(m)
    ensures Bound(r)
  {
    BufferMask();
    Engine.Reset(m.(memMap := m.memMap.(size := RamBufferSize, mask := RamBufferMask)))
  }

  /** The debugger's own part of DBG_Reset. */
  function ResetState(d: DebugState, v: Variant): DebugState
  {
    d.(inDebugMode := true, programPointer := if v == Vip then VipEntry else 0,
       dataPointer := 0, breakPoint := NoBreak)
  }

  // ---- Hex keys -----------------------------------------------------------------------

  /** isxdigit. */
  predicate IsHexDigit(c: char)
  {
    '0' <= c <= '9' || 'A' <= c <= 'F' || 'a' <= c <= 'f'
  }

  const HexDigits := "0123456789ABCDEF"

  /** The digit value of a scanned key; only the keys ' ' .. 'Z' are scanned, so the
      hex digits are '0'..'9' and 'A'..'F'. */
  function HexValue(c: char): (n: nibble)
    requires ' ' <= c <= 'Z' && IsHexDigit(c)
    ensures HexDigits[n] == c
  {
    if c >= 'A' then c as int - 'A' as int + 10 else c as int - '0' as int
  }

  /** ((p << 4) | n) & 0xFFFF. */
  function ShiftIn(p: word, n: nibble): (r: word)
    ensures r % 16 == n && r / 16 == p % 0x1000
  {
    ShiftInExact(p, n);
    (p * 16 + n) % 0x1_0000
  }

  lemma ShiftInExact(p: word, n: nibble)
    ensures (p * 16 + n) % 0x1_0000 == (p % 0x1000) * 16 + n
  {
    assert p * 16 + n == 0x1_0000 * (p / 0x1000) + ((p % 0x1000) * 16 + n);
    ModUnique(p * 16 + n, 0x1_0000, p / 0x1000, (p % 0x1000) * 16 + n);
  }

  /** Four hex keys set the pointer to the four-digit number they spell, whatever it was. */
  lemma FourHexKeys(p: word, a: nibble, b: nibble, c: nibble, d: nibble)
    ensures ShiftIn(ShiftIn(ShiftIn(ShiftIn(p, a), b), c), d) == a * 0x1000 + b * 0x100 + c * 0x10 + d
  {
    var v := a * 0x1000 + b * 0x100 + c * 0x10 + d;
    var q1 := p * 16 + a;
    var q2 := q1 * 16 + b;
    var q3 := q2 * 16 + c;
    var q4 := q3 * 16 + d;
    var s1 := ShiftIn(p, a);
    var s2 := ShiftIn(s1, b);
    var s3 := ShiftIn(s2, c);
    var s4 := ShiftIn(s3, d);
    assert s1 == q1 % 0x1_0000;
    assert s2 == q2 % 0x1_0000 by { ShiftThroughMod(q1, b); }
    assert s3 == q3 % 0x1_0000 by { ShiftThroughMod(q2, c); }
    assert s4 == q4 % 0x1_0000 by { ShiftThroughMod(q3, d); }
    assert q4 == v + 0x1_0000 * p;
    ModShift(v, 0x1_0000, p);
    ModUnique(v, 0x1_0000, 0, v);
  }

  lemma ShiftThroughMod(x: int, n: nibble)
    ensures ((x % 0x1_0000) * 16 + n) % 0x1_0000 == (x * 16 + n) % 0x1_0000
  {
    assert (x % 0x1_0000) * 16 + n == (x * 16 + n) + 0x1_0000 * (-16 * (x / 0x1_0000));
    ModShift(x * 16 + n, 0x1_0000, -16 * (x / 0x1_0000));
  }

  /** Hex digits and their values are inverse. */
  lemma HexDigitRoundTrip(n: nibble)
    ensures ' ' <= HexDigits[n] <= 'Z' && IsHexDigit(HexDigits[n])
    ensures HexValue(HexDigits[n]) == n
  {
  }

  // ---- Commands -------------------------------------------------------------------

  /** What DBG_KeyCommand leaves: debugger state, machine, and the host commands the
      emulated instruction (if any) issued. */
  datatype Outcome = Outcome(state: DebugState, machine: Engine.Machine, commands: seq<Engine.HostCommand>)

  /** The opcode byte of SEP: high nibble 0xD. */
  predicate IsSep(opcode: byte)
  {
    opcode / 16 == 0xD  // (opcode & 0xF0) == 0xD0
  }

  /** One emulated instruction, then the code pointer follows R[P]. */
  function SingleStep(d: DebugState, m: Engine.Machine, isa: Engine.InstructionSet, keys: Engine.KeyState): (o: Outcome)
    requires Bound(m) && keys.Valid()
    ensures Bound(o.machine)
  {
    var s := Engine.Step(m, isa, keys);
    Engine.StepKeepsBinding(m, isa, keys);
    Outcome(d.(programPointer := Engine.PC(s.machine.regs)), s.machine, s.commands)
  }

  /** DBG_KeyCommand. */
  function Command(d: DebugState, m: Engine.Machine, cmd: char, shift: bool,
                   isa: Engine.InstructionSet, keys: Engine.KeyState): (o: Outcome)
    requires Bound(m) && keys.Valid() && ' ' <= cmd <= 'Z'
    ensures Bound(o.machine)
  {
    if IsHexDigit(cmd) then
      var n := HexValue(cmd);
      if shift then Outcome(d.(dataPointer := ShiftIn(d.dataPointer, n)), m, [])
      else Outcome(d.(programPointer := ShiftIn(d.programPointer, n)), m, [])
    else if cmd == 'P' then Outcome(ResetState(d, m.memMap.variant), ResetMachine(m), [])
    else if cmd == 'K' then Outcome(d.(breakPoint := d.programPointer), m, [])
    else if cmd == 'H' then Outcome(d.(programPointer := Engine.PC(m.regs)), m, [])
    else if cmd == 'X' then Outcome(d.(dataPointer := m.regs.R[m.regs.X]), m, [])
    else if cmd == 'S' then SingleStep(d, m, isa, keys)
    else if cmd == 'G' then Outcome(d.(inDebugMode := false), m, [])
    else if cmd == 'V' then
      var pc := Engine.PC(m.regs);
      if IsSep(Memory.Read(m.memMap, m.ram, pc)) then
        Outcome(d.(inDebugMode := false, breakPoint := Inc16(pc)), m, [])
      else SingleStep(d, m, isa, keys)
    else Outcome(d, m, [])
  }

  /** The key DBG_Execute reacts to: the highest pressed key in ' ' .. 'Z', or -1. */
  function ScannedKey(input: HostInput): (k: int)
    requires input.Valid()
    ensures k == -1 <==> forall i :: 0 <= i < KeyCount ==> !input.pressed[i]
    ensures k != -1 ==> ' ' as int <= k <= 'Z' as int && input.KeyPressed(k as char)
    ensures k != -1 ==> forall c: char :: k < c as int <= 'Z' as int ==> !input.KeyPressed(c)
  {
    var i := Keys.LastPressed(input.pressed);
    if i == -1 then -1
    else
      i + ' ' as int
  }

  // ---- Run mode ---------------------------------------------------------------------

  /** Why run mode stops: the frame ended (CPU_Execute returned 1) or R[P] reached the
      breakpoint. */
  predicate Stops(s: Engine.StepResult, breakPoint: word)
  {
    s.rState == 1 || Engine.PC(s.machine.regs) == breakPoint
  }

  /** n calls of CPU_Execute, with the commands of all of them and the last result. */
  function Steps(m: Engine.Machine, isa: Engine.InstructionSet, keys: Engine.KeyState, n: nat): (r: Engine.StepResult)
    requires Engine.Valid(m) && keys.Valid() && n >= 1
    ensures Engine.Valid(r.machine)
    decreases n
  {
    var s := Engine.Step(m, isa, keys);
    if n == 1 then s
    else
      var t := Steps(s.machine, isa, keys, n - 1);
      Engine.StepResult(t.machine, t.rState, s.commands + t.commands)
  }

  lemma StepsUnfold(m: Engine.Machine, isa: Engine.InstructionSet, keys: Engine.KeyState, n: nat)
    requires Engine.Valid(m) && keys.Valid() && n >= 2
    ensures var s := Engine.Step(m, isa, keys);
      var t := Steps(s.machine, isa, keys, n - 1);
      Steps(m, isa, keys, n) == Engine.StepResult(t.machine, t.rState, s.commands + t.commands)
  {
  }

  /** The number of CPU_Execute calls the run loop of DBG_Execute makes: it calls until
      Stops. */
  function RunFrameCalls(m: Engine.Machine, isa: Engine.InstructionSet, keys: Engine.KeyState, breakPoint: word): (n: nat)
    requires Engine.Valid(m) && keys.Valid()
    ensures n >= 1
    decreases Frame.CallsToFrameEnd(m.timing)
  {
    var s := Engine.Step(m, isa, keys);
    if Stops(s, breakPoint) then 1
    else
      Engine.StepTiming(m, isa, keys);
      Frame.FrameEndApproaches(m.timing);
      RunFrameCalls(s.machine, isa, keys, breakPoint) + 1
  }

  /** The run loop: that many calls, with the commands of all of them and the last result. */
  function RunFrame(m: Engine.Machine, isa: Engine.InstructionSet, keys: Engine.KeyState, breakPoint: word): (r: Engine.StepResult)
    requires Engine.Valid(m) && keys.Valid()
    ensures Engine.Valid(r.machine)
  {
    Steps(m, isa, keys, RunFrameCalls(m, isa, keys, breakPoint))
  }

  /** One turn of the run loop: stop after this call, or go on from the machine it left. */
  lemma RunFrameUnfold(m: Engine.Machine, isa: Engine.InstructionSet, keys: Engine.KeyState, breakPoint: word)
    requires Engine.Valid(m) && keys.Valid()
    ensures var s := Engine.Step(m, isa, keys);
      (Stops(s, breakPoint) ==> RunFrame(m, isa, keys, breakPoint) == s && RunFrameCalls(m, isa, keys, breakPoint) == 1) &&
      (!Stops(s, breakPoint) ==>
         Frame.CallsToFrameEnd(s.machine.timing) < Frame.CallsToFrameEnd(m.timing) &&
         var t := RunFrame(s.machine, isa, keys, breakPoint);
         RunFrame(m, isa, keys, breakPoint) == Engine.StepResult(t.machine, t.rState, s.commands + t.commands) &&
         RunFrameCalls(m, isa, keys, breakPoint) == RunFrameCalls(s.machine, isa, keys, breakPoint) + 1)
  {
    Engine.StepTiming(m, isa, keys);
    var s := Engine.Step(m, isa, keys);
    if !Stops(s, breakPoint) {
      Frame.FrameEndApproaches(m.timing);
      StepsUnfold(m, isa, keys, RunFrameCalls(s.machine, isa, keys, breakPoint) + 1);
    }
  }

  /** The run loop stops at the first call that returns 1 or leaves R[P] at the breakpoint,
      and makes no more calls than are left in the frame. */
  lemma RunFrameFirstStop(m: Engine.Machine, isa: Engine.InstructionSet, keys: Engine.KeyState, breakPoint: word)
    requires Engine.Valid(m) && keys.Valid()
    ensures RunFrameCalls(m, isa, keys, breakPoint) <= Frame.CallsToFrameEnd(m.timing)
    ensures Stops(RunFrame(m, isa, keys, breakPoint), breakPoint)
    ensures forall j :: 1 <= j < RunFrameCalls(m, isa, keys, breakPoint) ==> !Stops(Steps(m, isa, keys, j), breakPoint)
  {
    RunFrameCount(m, isa, keys, breakPoint);
    RunFrameStops(m, isa, keys, breakPoint);
    RunFrameNoEarlierStop(m, isa, keys, breakPoint);
  }

  lemma {:induction false} RunFrameCount(m: Engine.Machine, isa: Engine.InstructionSet, keys: Engine.KeyState, breakPoint: word)
    requires Engine.Valid(m) && keys.Valid()
    ensures RunFrameCalls(m, isa, keys, breakPoint) <= Frame.CallsToFrameEnd(m.timing)
    decreases Frame.CallsToFrameEnd(m.timing)
  {
    RunFrameUnfold(m, isa, keys, breakPoint);
    var s := Engine.Step(m, isa, keys);
    if !Stops(s, breakPoint) {
      RunFrameCount(s.machine, isa, keys, breakPoint);
    }
  }

  lemma {:induction false} RunFrameStops(m: Engine.Machine, isa: Engine.InstructionSet, keys: Engine.KeyState, breakPoint: word)
    requires Engine.Valid(m) && keys.Valid()
    ensures Stops(RunFrame(m, isa, keys, breakPoint), breakPoint)
    decreases Frame.CallsToFrameEnd(m.timing)
  {
    RunFrameUnfold(m, isa, keys, breakPoint);
    var s := Engine.Step(m, isa, keys);
    if !Stops(s, breakPoint) {
      RunFrameStops(s.machine, isa, keys, breakPoint);
    }
  }

  lemma {:induction false} RunFrameNoEarlierStop(m: Engine.Machine, isa: Engine.InstructionSet, keys: Engine.KeyState, breakPoint: word)
    requires Engine.Valid(m) && keys.Valid()
    ensures forall j :: 1 <= j < RunFrameCalls(m, isa, keys, breakPoint) ==> !Stops(Steps(m, isa, keys, j), breakPoint)
    decreases Frame.CallsToFrameEnd(m.timing)
  {
    RunFrameUnfold(m, isa, keys, breakPoint);
    var s := Engine.Step(m, isa, keys);
    if !Stops(s, breakPoint) {
      RunFrameNoEarlierStop(s.machine, isa, keys, breakPoint);
      var n := RunFrameCalls(s.machine, isa, keys, breakPoint);
      forall j | 1 <= j < n + 1
        ensures !Stops(Steps(m, isa, keys, j), breakPoint)
      {
        if j > 1 {
          StepsUnfold(m, isa, keys, j);
        }
      }
    }
  }

  /** DBG_Execute. */
  function Execute(d: DebugState, m: Engine.Machine, input: HostInput,
                   isa: Engine.InstructionSet, keys: Engine.KeyState): (o: Outcome)
    requires Bound(m) && input.Valid() && keys.Valid()
    ensures Bound(o.machine)
  {
    if d.inDebugMode then
      var k := ScannedKey(input);
      var o := if k != d.lastKey && k != -1 then Command(d, m, k as char, input.shift, isa, keys)
               else Outcome(d, m, []);
      o.(state := o.state.(lastKey := k))
    else
      var r := RunFrame(m, isa, keys, d.breakPoint);
      assert Bound(r.machine) by { RunFrameKeepsBinding(m, isa, keys, d.breakPoint); }
      var pc := Engine.PC(r.machine.regs);
      var d1 := if input.KeyPressed('M') || pc == d.breakPoint
                then d.(inDebugMode := true, programPointer := pc) else d;
      if input.KeyPressed('P') then
        Outcome(ResetState(d1, m.memMap.variant).(inDebugMode := false), ResetMachine(r.machine), r.commands)
      else Outcome(d1, r.machine, r.commands)
  }

  lemma {:induction false} RunFrameKeepsBinding(m: Engine.Machine, isa: Engine.InstructionSet, keys: Engine.KeyState, breakPoint: word)
    requires Engine.Valid(m) && keys.Valid()
    ensures RunFrame(m, isa, keys, breakPoint).machine.memMap == m.memMap
    ensures |RunFrame(m, isa, keys, breakPoint).machine.ram| == |m.ram|
    decreases Frame.CallsToFrameEnd(m.timing)
  {
    var s := Engine.Step(m, isa, keys);
    Engine.StepKeepsBinding(m, isa, keys);
    RunFrameUnfold(m, isa, keys, breakPoint);
    if !Stops(s, breakPoint) {
      RunFrameKeepsBinding(s.machine, isa, keys, breakPoint);
    }
  }

  // ---- What the commands do -------------------------------------------------------

  /** A hex key edits one pointer: the data pointer with shift held, the code pointer
      otherwise; nothing else changes and the machine does not run. */
  lemma HexKeyEditsOnePointer(d: DebugState, m: Engine.Machine, cmd: char, shift: bool,
                              isa: Engine.InstructionSet, keys: Engine.KeyState)
    requires Bound(m) && keys.Valid() && ' ' <= cmd <= 'Z' && IsHexDigit(cmd)
    ensures var o := Command(d, m, cmd, shift, isa, keys);
      o.machine == m && o.commands == [] &&
      (shift ==> o.state == d.(dataPointer := ShiftIn(d.dataPointer, HexValue(cmd)))) &&
      (!shift ==> o.state == d.(programPointer := ShiftIn(d.programPointer, HexValue(cmd))))
  {
  }

  /** Step over: a SEP at R[P] becomes a run to the byte after it; anything else is one
      single step. */
  lemma StepOverRule(d: DebugState, m: Engine.Machine, shift: bool,
                     isa: Engine.InstructionSet, keys: Engine.KeyState)
    requires Bound(m) && keys.Valid()
    ensures var o := Command(d, m, 'V', shift, isa, keys);
      var pc := Engine.PC(m.regs);
      var s := Engine.Step(m, isa, keys);
      (IsSep(Memory.Read(m.memMap, m.ram, pc)) ==>
         o == Outcome(d.(inDebugMode := false, breakPoint := (pc + 1) % 0x1_0000), m, [])) &&
      (!IsSep(Memory.Read(m.memMap, m.ram, pc)) ==>
         o.machine == s.machine && o.commands == s.commands &&
         o.state == d.(programPointer := Engine.PC(s.machine.regs)))
  {
  }

  /** 'P' is a full reset: the pointers of DBG_Reset, RAM rebound to the 0x600-byte buffer
      with mask 0x7FF, and the CPU reset; RAM contents and the last key are kept. */
  lemma ResetCommand(d: DebugState, m: Engine.Machine, shift: bool,
                     isa: Engine.InstructionSet, keys: Engine.KeyState)
    requires Bound(m) && keys.Valid()
    ensures var o := Command(d, m, 'P', shift, isa, keys);
      o.commands == [] && o.state.inDebugMode && o.state.lastKey == d.lastKey &&
      o.state.breakPoint == 0xFFFF && o.state.dataPointer == 0 &&
      o.state.programPointer == (if m.memMap.variant == Vip then 0x800A else 0) &&
      o.machine.memMap == m.memMap.(size := 0x600, mask := 0x7FF) && o.machine.ram == m.ram &&
      o.machine.timing == Frame.Timing(1, Frame.State1Cycles) && !o.machine.screenEnabled &&
      o.machine.regs == Engine.ResetRegs(m.memMap.variant, m.regs)
  {
  }

  /** In debug mode a key acts only on the call where it first appears; the key seen is
      always remembered. */
  lemma DebugModeKeyEdge(d: DebugState, m: Engine.Machine, input: HostInput,
                         isa: Engine.InstructionSet, keys: Engine.KeyState)
    requires Bound(m) && input.Valid() && keys.Valid() && d.inDebugMode
    ensures var k := ScannedKey(input);
      var o := Execute(d, m, input, isa, keys);
      o.state.lastKey == k &&
      ((k == d.lastKey || k == -1) ==> o == Outcome(d.(lastKey := k), m, [])) &&
      (k != d.lastKey && k != -1 ==>
         var c := Command(d, m, k as char, input.shift, isa, keys);
         o == c.(state := c.state.(lastKey := k)))
  {
  }

  /** Holding a key down: a second call with the same keys, still in debug mode, does
      nothing. */
  lemma HeldKeyActsOnce(d: DebugState, m: Engine.Machine, input: HostInput,
                        isa: Engine.InstructionSet, keys: Engine.KeyState)
    requires Bound(m) && input.Valid() && keys.Valid() && d.inDebugMode
    requires Execute(d, m, input, isa, keys).state.inDebugMode
    ensures var o := Execute(d, m, input, isa, keys);
      Execute(o.state, o.machine, input, isa, keys) == Outcome(o.state, o.machine, [])
  {
    var o := Execute(d, m, input, isa, keys);
    assert o.state.lastKey == ScannedKey(input);
    assert o.state == o.state.(lastKey := ScannedKey(input));
  }

  /** Run mode: one frame (or up to the breakpoint), then back to debug mode on 'M' or at
      the breakpoint with the code pointer at R[P]; 'P' resets and keeps running. */
  lemma RunModeExit(d: DebugState, m: Engine.Machine, input: HostInput,
                    isa: Engine.InstructionSet, keys: Engine.KeyState)
    requires Bound(m) && input.Valid() && keys.Valid() && !d.inDebugMode
    ensures var o := Execute(d, m, input, isa, keys);
      var r := RunFrame(m, isa, keys, d.breakPoint);
      var pc := Engine.PC(r.machine.regs);
      o.commands == r.commands &&
      (input.KeyPressed('P') ==>
         !o.state.inDebugMode && o.state.breakPoint == NoBreak && o.machine == ResetMachine(r.machine)) &&
      (!input.KeyPressed('P') ==>
         o.machine == r.machine &&
         (o.state.inDebugMode <==> input.KeyPressed('M') || pc == d.breakPoint) &&
         (o.state.inDebugMode ==> o.state == d.(inDebugMode := true, programPointer := pc)) &&
         (!o.state.inDebugMode ==> o.state == d))
  {
  }

  // ---- DBG_LoadData -----------------------------------------------------------------

  /** address + i in WORD16. */
  function At(address: word, i: int): word
  {
    (address + i) % 0x1_0000
  }

  lemma AtNext(address: word, i: int)
    ensures At(Inc16(address), i) == At(address, i + 1)
  {
    assert Inc16(address) + i == (address + i + 1) + 0x1_0000 * (-((address + 1) / 0x1_0000));
    ModShift(address + i + 1, 0x1_0000, -((address + 1) / 0x1_0000));
  }

  /** The address after At(address, i) is At(address, i + 1). */
  lemma AtStep(address: word, i: nat)
    ensures Inc16(At(address, i)) == At(address, i + 1)
  {
    var x := address + i;
    assert x + 1 == (x % 0x1_0000 + 1) + 0x1_0000 * (x / 0x1_0000);
    ModShift(x % 0x1_0000 + 1, 0x1_0000, x / 0x1_0000);
  }

  /** CPU_WriteMemory(address++, *data++) for each byte, in order. */
  function Load(m: MemoryMap, ram: seq<byte>, address: word, data: seq<byte>): (r: seq<byte>)
    requires Memory.Valid(m, ram)
    ensures |r| == |ram| && Memory.Valid(m, r)
    decreases |data|
  {
    if data == [] then ram
    else Load(m, Memory.Write(m, ram, address, data[0]), Inc16(address), data[1..])
  }

  /** A RAM cell no loaded address reaches keeps its value. */
  lemma {:induction false} LoadUntouched(m: MemoryMap, ram: seq<byte>, address: word, data: seq<byte>, j: int)
    requires Memory.Valid(m, ram) && 0 <= j < |ram|
    requires forall i :: 0 <= i < |data| ==> Cell(m, At(address, i)) != Some(j)
    ensures Load(m, ram, address, data)[j] == ram[j]
    decreases |data|
  {
    if data != [] {
      assert At(address, 0) == address;
      CellAccess(m, ram, address, data[0]);
      var ram1 := Memory.Write(m, ram, address, data[0]);
      forall i | 0 <= i < |data| - 1
        ensures Cell(m, At(Inc16(address), i)) != Some(j)
      {
        AtNext(address, i);
      }
      LoadUntouched(m, ram1, Inc16(address), data[1..], j);
    }
  }

  /** A loaded byte reads back at its address unless a later byte went to the same cell. */
  lemma {:induction false} LoadReadBack(m: MemoryMap, ram: seq<byte>, address: word, data: seq<byte>, i: int)
    requires Memory.Valid(m, ram) && 0 <= i < |data| && Cell(m, At(address, i)).Some?
    requires forall k :: i < k < |data| ==> Cell(m, At(address, k)) != Cell(m, At(address, i))
    ensures Memory.Read(m, Load(m, ram, address, data), At(address, i)) == data[i]
    decreases |data|
  {
    var ram1 := Memory.Write(m, ram, address, data[0]);
    var c := Cell(m, At(address, i)).value;
    CellAccess(m, Load(m, ram, address, data), At(address, i), 0);
    if i == 0 {
      assert At(address, 0) == address;
      CellAccess(m, ram, address, data[0]);
      forall k | 0 <= k < |data| - 1
        ensures Cell(m, At(Inc16(address), k)) != Some(c)
      {
        AtNext(address, k);
      }
      LoadUntouched(m, ram1, Inc16(address), data[1..], c);
    } else {
      AtNext(address, i - 1);
      forall k | i - 1 < k < |data| - 1
        ensures Cell(m, At(Inc16(address), k)) != Cell(m, At(Inc16(address), i - 1))
      {
        AtNext(address, k);
      }
      LoadReadBack(m, ram1, Inc16(address), data[1..], i - 1);
    }
  }

  /** Load into addresses with no RAM cell (ROM, unmapped space) changes nothing. */
  lemma {:induction false} LoadIntoRomIsNoOp(m: MemoryMap, ram: seq<byte>, address: word, data: seq<byte>)
    requires Memory.Valid(m, ram)
    requires forall i :: 0 <= i < |data| ==> Cell(m, At(address, i)).None?
    ensures Load(m, ram, address, data) == ram
    decreases |data|
  {
    if data != [] {
      assert At(address, 0) == address;
      CellAccess(m, ram, address, data[0]);
      forall i | 0 <= i < |data| - 1
        ensures Cell(m, At(Inc16(address), i)).None?
      {
        AtNext(address, i);
      }
      LoadIntoRomIsNoOp(m, ram, Inc16(address), data[1..]);
    }
  }

  /** VIP: bytes loaded wholly inside RAM read back in order, and every other address
      reads as before. */
  lemma VipLoadRoundTrip(m: MemoryMap, ram: seq<byte>, address: word, data: seq<byte>)
    requires Memory.Valid(m, ram) && m.variant == Vip && address + |data| <= m.size
    ensures forall i :: 0 <= i < |data| ==>
      Memory.Read(m, Load(m, ram, address, data), address + i) == data[i]
    ensures forall b: word :: !(address <= b < address + |data|) ==>
      Memory.Read(m, Load(m, ram, address, data), b) == Memory.Read(m, ram, b)
  {
    var r := Load(m, ram, address, data);
    forall i | 0 <= i < |data|
      ensures Memory.Read(m, r, address + i) == data[i]
    {
      assert At(address, i) == address + i;
      forall k | i < k < |data|
        ensures Cell(m, At(address, k)) != Cell(m, At(address, i))
      {
        assert At(address, k) == address + k;
      }
      LoadReadBack(m, ram, address, data, i);
    }
    forall b: word | !(address <= b < address + |data|)
      ensures Memory.Read(m, r, b) == Memory.Read(m, ram, b)
    {
      if b < m.size {
        forall i | 0 <= i < |data|
          ensures Cell(m, At(address, i)) != Some(b)
        {
          assert At(address, i) == address + i;
        }
        LoadUntouched(m, ram, address, data, b);
      }
    }
  }

  // ---- DBG_LoadFileToAddress --------------------------------------------------------

  datatype LoadError = NoSeparator | BadAddress
  datatype LoadSpec = LoadSpec(fileName: string, address: int)

  /** strchr(s, '@'): the index of the first '@', or -1. */
  function FindAt(s: string): (r: int)
    ensures -1 <= r < |s|
    ensures r == -1 <==> '@' !in s
    ensures r >= 0 ==> s[r] == '@' && '@' !in s[..r]
  {
    if s == [] then -1
    else if s[0] == '@' then 0
    else
      var r := FindAt(s[1..]);
      if r == -1 then -1
      else
        assert s[..r + 1] == [s[0]] + s[1..][..r];
        r + 1
  }

  /** isspace. */
  predicate IsSpace(c: char)
  {
    c == ' ' || '\t' <= c <= '\r'
  }

  function SkipSpace(s: string): (r: string)
    ensures |r| <= |s| && r == s[|s| - |r|..]
    ensures r != [] ==> !IsSpace(r[0])
    ensures forall i :: 0 <= i < |s| - |r| ==> IsSpace(s[i])
  {
    if s != [] && IsSpace(s[0]) then SkipSpace(s[1..]) else s
  }

  function DigitValue(c: char): (n: nibble)
    requires IsHexDigit(c)
  {
    if c <= '9' then c as int - '0' as int
    else if c <= 'F' then c as int - 'A' as int + 10
    else c as int - 'a' as int + 10
  }

  /** The length of the leading run of hex digits. */
  function HexRun(s: string): (n: nat)
    ensures n <= |s| && (forall i :: 0 <= i < n ==> IsHexDigit(s[i])) && (n < |s| ==> !IsHexDigit(s[n]))
  {
    if s != [] && IsHexDigit(s[0]) then 1 + HexRun(s[1..]) else 0
  }

  function HexNumber(s: string): nat
    requires forall i :: 0 <= i < |s| ==> IsHexDigit(s[i])
  {
    if s == [] then 0 else HexNumber(s[..|s| - 1]) * 16 + DigitValue(s[|s| - 1])
  }

  /** sscanf(s, "%x", &address) == 1: leading white space, an optional sign, an optional
      0x or 0X before a digit, then the longest run of hex digits; None when there is
      no digit. */
  function ScanHex(s: string): (r: Option<int>)
  {
    var t := SkipSpace(s);
    var negative := t != [] && t[0] == '-';
    var u := if t != [] && (t[0] == '+' || t[0] == '-') then t[1..] else t;
    match LeadingHex(SkipRadix(u))
    case None => None
    case Some(x) =>
      var value: int := x;
      Some(if negative then -value else value)
  }

  /** A 0x or 0X prefix is part of the number only when a hex digit follows it. */
  function SkipRadix(u: string): string
  {
    if |u| >= 3 && u[0] == '0' && (u[1] == 'x' || u[1] == 'X') && IsHexDigit(u[2]) then u[2..] else u
  }

  /** The value of the leading run of hex digits, or None when there is none. */
  function LeadingHex(v: string): Option<nat>
  {
    var n := HexRun(v);
    if n == 0 then None else Some(HexNumber(v[..n]))
  }

  /** The split of DBG_LoadFileToAddress: the file name before the first '@', the hex
      address after it. */
  function ParseLoadSpec(cmd: string): (r: Result<LoadSpec, LoadError>)
    ensures r == Err(NoSeparator) <==> '@' !in cmd
    ensures r.Ok? ==> '@' !in r.value.fileName
    ensures r.Ok? ==> |r.value.fileName| < |cmd| && cmd[|r.value.fileName|] == '@'
    ensures r.Ok? ==> r.value.fileName == cmd[..|r.value.fileName|]
  {
    var at := FindAt(cmd);
    if at == -1 then Err(NoSeparator)
    else match ScanHex(cmd[at + 1..])
      case None => Err(BadAddress)
      case Some(a) => Ok(LoadSpec(cmd[..at], a))
  }

  /** name@digits gives back the name and the number the digits spell. */
  lemma LoadSpecRoundTrip(name: string, digits: string)
    requires '@' !in name && |digits| >= 1 && forall i :: 0 <= i < |digits| ==> IsHexDigit(digits[i])
    ensures ParseLoadSpec(name + "@" + digits) == Ok(LoadSpec(name, HexNumber(digits)))
  {
    var cmd := name + "@" + digits;
    assert cmd[|name|] == '@' && cmd[..|name|] == name;
    FindFirst(cmd, |name|);
    assert cmd[|name| + 1..] == digits;
    ScanHexDigits(digits);
  }

  /** A plain run of hex digits scans as the number it spells. */
  lemma ScanHexDigits(digits: string)
    requires |digits| >= 1 && forall i :: 0 <= i < |digits| ==> IsHexDigit(digits[i])
    ensures ScanHex(digits) == Some(HexNumber(digits))
  {
    assert SkipSpace(digits) == digits;
    assert !(digits[0] == '+' || digits[0] == '-');
    assert SkipRadix(digits) == digits;
    HexRunAll(digits);
    assert digits[..|digits|] == digits;
    assert LeadingHex(digits) == Some(HexNumber(digits));
  }

  /** A name with no address after the '@', and text with no '@', are both refused. */
  lemma LoadSpecErrors(name: string)
    requires '@' !in name
    ensures ParseLoadSpec(name) == Err(NoSeparator)
    ensures ParseLoadSpec(name + "@") == Err(BadAddress)
  {
    var cmd := name + "@";
    assert cmd[|name|] == '@' && cmd[..|name|] == name;
    FindFirst(cmd, |name|);
    assert cmd[|name| + 1..] == [];
  }

  lemma FindFirst(s: string, k: int)
    requires 0 <= k < |s| && s[k] == '@' && '@' !in s[..k]
    ensures FindAt(s) == k
  {
  }

  lemma {:induction false} HexRunAll(s: string)
    requires forall i :: 0 <= i < |s| ==> IsHexDigit(s[i])
    ensures HexRun(s) == |s|
  {
    if s != [] {
      HexRunAll(s[1..]);
    }
  }

  /** At most 4096 bytes of a file are loaded (the size of loadBuffer). */
  function FileBytes(contents: seq<byte>): (r: seq<byte>)
    ensures |r| <= 4096 && |r| <= |contents| && r == contents[..|r|]
    ensures |contents| <= 4096 ==> r == contents
  {
    if |contents| <= 4096 then contents else contents[..4096]
  }
}
