/**
 * The globals of cpu.c as one object: the 1802 register file, the frame
 * timing fields, the RAM binding and the screen and keyboard fields.  Each
 * method is one function of cpu.c and is proved to do what the Engine
 * specification says of the abstract value of the object.
 */
module Processor {
  import opened Bits
  import opened Wrappers
  import opened Memory
  import Frame
  import Keys
  import Engine

  /** CPU1802STATE, the copy CPU_ReadState hands to the debugger. */
  datatype CpuState = CpuState(
    D: byte, DF: byte, X: nibble, P: nibble, T: byte, IE: byte, Q: byte,
    Cycles: int, State: int, R: seq<word>)

  class Cpu {
    /** The build choices of general.h, fixed when the object is made. */
    const variant: Variant
    const rom: seq<byte>
    const bootsMonitor: bool

    var D: byte
    var X: nibble
    var P: nibble
    var T: byte
    var DF: byte
    var IE: byte
    var Q: byte
    const R: array<word>

    var Cycles: int
    var State: int

    var ram: array<byte>
    var ramSize: word
    var ramMask: word
    /** screenMemory as an offset into the RAM buffer; None while it is NULL. */
    var screen: Option<int>
    var scrollOffset: byte
    var screenEnabled: bool
    var keyboardLatch: byte
    var currentKey: byte

    function Map(): MemoryMap
      reads this
    {
      MemoryMap(variant, rom, ramSize, ramMask)
    }

    function Regs(): Engine.RegFile
      reads this, R
      requires R.Length == 16
    {
      Engine.Regs(D, X, P, T, DF, IE, Q, R[..])
    }

    /** The abstract value of all of cpu.c's state. */
    function Abstract(): Engine.Machine
      reads this, R, ram
      requires R.Length == 16
    {
      Engine.Machine(Regs(), Frame.Timing(State, Cycles), Map(), ram[..], bootsMonitor,
                     screenEnabled, screen, scrollOffset, keyboardLatch, currentKey)
    }

    /** Well-formed storage: sixteen registers and a RAM binding the memory map accepts. */
    ghost predicate Wf()
      reads this, R, ram
    {
      R.Length == 16 && Memory.Valid(Map(), ram[..])
    }

    ghost predicate Valid()
      reads this, R, ram
    {
      Wf() && Engine.Valid(Abstract())
    }

    /** The ROM image sizes the variant needs. */
    static predicate RomFits(variant: Variant, rom: seq<byte>)
    {
      (variant == Vip ==> |rom| == MonitorSize) && (variant == Studio2 ==> |rom| == Studio2RomSize)
    }

    /** What CPU_Reset needs of a new RAM buffer: the mask loop must end (ramSize at most
        0x8000 in WORD16), the buffer holds ramSize bytes, and Studio 2 addresses its
        512-byte window without a bounds check. */
    static predicate BufferFits(variant: Variant, buffer: array<byte>, size: word)
    {
      size <= MaxRamSize && size <= buffer.Length && (variant == Studio2 ==> buffer.Length >= 0x200)
    }

    /** The zero-initialised statics of cpu.c followed by the first CPU_Reset, binding RAM. */
    constructor (variant: Variant, rom: seq<byte>, bootsMonitor: bool, buffer: array<byte>, size: word)
      requires RomFits(variant, rom) && BufferFits(variant, buffer, size)
      ensures Valid() && fresh(R) && ram == buffer && ramSize == size && IsRamMask(size, ramMask)
      ensures Abstract() == Engine.Reset(Engine.Machine(
        Engine.Regs(0, 0, 0, 0, 0, 0, 0, seq(16, i => 0)), Frame.Timing(0, 0),
        MemoryMap(variant, rom, size, ramMask), buffer[..], bootsMonitor, false, None, 0, 0, 0))
    {
      this.variant := variant;
      this.rom := rom;
      this.bootsMonitor := bootsMonitor;
      D, X, P, T, DF, IE, Q := 0, 0, 0, 0, 0, 0, 0;
      R := new word[16](i => 0);
      Cycles, State := 0, 0;
      ram, ramSize, ramMask := buffer, 0, 0;
      screen, scrollOffset, screenEnabled, keyboardLatch, currentKey := None, 0, false, 0, 0;
      new;
      assert R[..] == seq(16, i => 0);
      Reset(buffer, size);
    }

    /** The mask loop of CPU_Reset: ramMask + 1 is the smallest power of two >= ramSize. */
    static method RamMaskFor(size: word) returns (mask: word)
      requires size <= MaxRamSize
      ensures IsRamMask(size, mask)
    {
      var m: word := 1;
      assert IsPow2(MaxRamSize) by { Pow2Literal(); }
      while m < size
        invariant 1 <= m <= MaxRamSize && IsPow2(m) && (m == 1 || m / 2 < size)
        decreases size - m
      {
        Pow2Halving(m, MaxRamSize);
        var doubled := m * 2;
        Pow2Double(m);
        ModUnique(doubled, 0x1_0000, 0, doubled);
        m := doubled % 0x1_0000;  // ramMask << 1 in WORD16; never wraps here
        assert m == doubled;
      }
      mask := m - 1;
    }

    static lemma Pow2Literal()
      ensures IsPow2(MaxRamSize)
    {
      Pow2Double(1); Pow2Double(2); Pow2Double(4); Pow2Double(8);
      Pow2Double(0x10); Pow2Double(0x20); Pow2Double(0x40); Pow2Double(0x80);
      Pow2Double(0x100); Pow2Double(0x200); Pow2Double(0x400); Pow2Double(0x800);
      Pow2Double(0x1000); Pow2Double(0x2000); Pow2Double(0x4000);
    }

    static lemma Pow2Double(n: nat)
      requires IsPow2(n)
      ensures IsPow2(2 * n)
    {
      assert (2 * n) / 2 == n;
    }

    /** CPU_Reset.  A NULL buffer keeps the previous RAM binding and mask. */
    method Reset(buffer: array?<byte>, size: word)
      requires R.Length == 16 && RomFits(variant, rom)
      requires buffer != null ==> BufferFits(variant, buffer, size)
      requires buffer == null ==> Memory.Valid(Map(), ram[..])
      modifies this, R
      ensures Valid()
      ensures buffer != null ==> ram == buffer && ramSize == size && IsRamMask(size, ramMask)
      ensures buffer == null ==> ram == old(ram) && ramSize == old(ramSize) && ramMask == old(ramMask)
      ensures Abstract() == Engine.Reset(old(Abstract()).(memMap := Map(), ram := ram[..]))
    {
      if buffer != null {
        Bind(buffer, size);
      }
      ghost var bound := Abstract();
      assert bound == old(Abstract()).(memMap := Map(), ram := ram[..]);
      ResetRegisters();
      assert ram[..] == bound.ram;
      assert Abstract() == Engine.Reset(bound);
      Frame.DerivedConstants();
    }

    /** The RAM binding of CPU_Reset: the buffer, its size and the mask derived from it. */
    method Bind(buffer: array<byte>, size: word)
      requires R.Length == 16 && BufferFits(variant, buffer, size)
      modifies this`ram, this`ramSize, this`ramMask
      ensures ram == buffer && ramSize == size && IsRamMask(size, ramMask)
    {
      ramSize := size;
      ram := buffer;
      ramMask := RamMaskFor(size);
    }

    /** The register and timing part of CPU_Reset. */
    method ResetRegisters()
      requires R.Length == 16
      modifies this`D, this`X, this`P, this`DF, this`IE, this`Q, R, this`State, this`Cycles,
        this`screenEnabled
      ensures Regs() == Engine.ResetRegs(variant, old(Regs()))
      ensures State == 1 && Cycles == Frame.State1Cycles && !screenEnabled
    {
      ghost var r0 := Regs();
      X, P, Q := 0, 0, 0;
      R[0] := 0;
      IE := 1;
      DF := DF % 2;  // DF & 1
      assert Regs() == r0.(X := 0, P := 0, Q := 0, R := r0.R[0 := 0], IE := 1, DF := r0.DF % 2);
      State := 1;
      Cycles := Frame.State1Cycles;
      screenEnabled := false;
      if variant == Vip {
        VipBoot();
      }
    }

    /** The VIP start-up: D = R0 = 8 and execution from 0x800A (the monitor) with X = P = 2. */
    method VipBoot()
      requires R.Length == 16
      modifies this`D, this`X, this`P, R
      ensures Regs() == old(Regs()).(D := 8, R := old(R[..])[0 := 8][2 := 0x800A], P := 2, X := 2)
    {
      D := 8;
      R[0] := 8;
      P := 2;
      R[2] := 0x800A;
      X := 2;
    }

    /** CPU_ReadMemory for the bound variant. */
    method ReadMemory(a: word) returns (v: byte)
      requires Wf()
      ensures v == Memory.Read(Map(), ram[..], a)
    {
      match variant
      case Vip =>
        if a < ramSize { return ram[a]; }
        var offset := (a - 0x8000) % 0x1_0000;  // address -= 0x8000 in WORD16
        if offset < MonitorSize { return rom[offset]; }
        return 0;
      case Elf =>
        var b := And(a, ramMask);
        if b < ramSize { return ram[b]; }
        return 0;
      case Studio2 =>
        var b := a % 0x1000;  // address & 0xFFF
        if b < 0x800 { return rom[b]; }
        if 0x800 <= b < 0xA00 { return ram[b - 0x800]; }
        return 0xFF;
    }

    /** CPU_WriteMemory for the bound variant: only RAM is writeable. */
    method WriteMemory(a: word, v: byte)
      requires Wf()
      modifies ram
      ensures ram[..] == Memory.Write(Map(), old(ram[..]), a, v)
    {
      match variant
      case Vip =>
        if a < ramSize { ram[a] := v; }
      case Elf =>
        var b := And(a, ramMask);
        if b < ramSize { ram[b] := v; }
      case Studio2 =>
        var b := a % 0x1000;
        if 0x800 <= b < 0xA00 { ram[b - 0x800] := v; }
    }

    /** CPU_ReadEFlag, with the host's key answers given by keys. */
    method ReadEFlag(flag: byte, keys: Engine.KeyState) returns (r: byte)
      requires Wf() && keys.Valid()
      ensures r == Engine.EFlag(Abstract(), flag, keys)
    {
      r := 0;
      if flag == 1 {
        r := 1;  // never in display: BN1 in the interrupt routine always falls through
      } else if flag == 3 {
        match variant
        case Vip =>
          r := Engine.KeyBit(keys.lines, keyboardLatch);
          if bootsMonitor && R[P] == 0x8024 && keyboardLatch == 0x0C { r := 1; }
        case Elf =>
          r := if currentKey != 0xFF then 1 else 0;
        case Studio2 =>
          r := Engine.KeyBit(keys.lines, keyboardLatch);  // after selecting keypad 1
      } else if flag == 4 {
        match variant
        case Vip =>
        case Elf =>
          r := if keys.iKey then 0 else 1;
        case Studio2 =>
          r := Engine.KeyBit(keys.secondPad, keyboardLatch);  // after selecting keypad 2
      }
    }

    /** CPU_InputHandler. */
    method InputHandler(port: byte) returns (v: byte)
      requires Wf()
      modifies this`screenEnabled
      ensures (Abstract(), v) == Engine.Input(old(Abstract()), port)
    {
      v := 0;
      if port == 1 {
        screenEnabled := true;
      } else if port == 4 && variant == Elf {
        v := keyboardLatch;
      }
    }

    /** CPU_OutputHandler; the command it forwards to SYSTEM_Command, if any. */
    method OutputHandler(port: byte, data: byte) returns (command: Option<Engine.HostCommand>)
      requires Wf()
      modifies this`screenEnabled, this`keyboardLatch
      ensures (Abstract(), command) == Engine.Output(old(Abstract()), port, data)
    {
      command := None;
      if port == 0 {
        command := Some(Engine.UpdateQ(data));
      } else if port == 1 {
        screenEnabled := false;
      } else if port == 2 && variant != Elf {
        keyboardLatch := data % 16;  // data & 0x0F
      } else if port == 4 && variant == Elf {
        command := Some(Engine.UpdateLed(data));
      }
    }

    /** One memory or port access of an opcode handler. */
    method PerformOne(access: Engine.Access) returns (added: seq<Engine.HostCommand>)
      requires Wf()
      modifies this`screenEnabled, this`keyboardLatch, ram
      ensures Wf()
      ensures (Abstract(), added) == Engine.Perform(old(Abstract()), access)
    {
      ghost var prev := Abstract();
      added := [];
      match access {
        case Store(a, v) =>
          WriteMemory(a, v);
          assert Abstract() == prev.(ram := ram[..]);
        case Out(port, data) =>
          var c := OutputHandler(port, data);
          if c.Some? {
            added := [c.value];
          }
          assert ram[..] == prev.ram;
          assert (Abstract(), c) == Engine.Output(prev, port, data);
        case In(port) =>
          var ignored := InputHandler(port);
          assert ram[..] == prev.ram;
          assert (Abstract(), ignored) == Engine.Input(prev, port);
      }
    }

    /** The memory and port accesses of an opcode handler, in order. */
    method PerformAccesses(accesses: seq<Engine.Access>) returns (commands: seq<Engine.HostCommand>)
      requires Wf()
      modifies this`screenEnabled, this`keyboardLatch, ram
      ensures Wf()
      ensures (Abstract(), commands) == Engine.PerformAll(old(Abstract()), accesses)
    {
      commands := [];
      var i := 0;
      while i < |accesses|
        invariant 0 <= i <= |accesses| && Wf()
        invariant (Abstract(), commands) == Engine.PerformAll(old(Abstract()), accesses[..i])
      {
        assert accesses[..i + 1][..i] == accesses[..i];
        var added := PerformOne(accesses[i]);
        commands := commands + added;
        i := i + 1;
      }
      assert accesses[..|accesses|] == accesses;
    }

    /** The registers an opcode handler leaves. */
    method LoadRegisters(r: Engine.RegFile)
      requires R.Length == 16 && |r.R| == 16
      modifies this`D, this`X, this`P, this`T, this`DF, this`IE, this`Q, R
      ensures Abstract() == old(Abstract()).(regs := r)
    {
      LoadData(r);
      LoadControl(r);
      LoadFile(r.R);
    }

    /** D, DF and Q as the handler left them. */
    method LoadData(r: Engine.RegFile)
      requires R.Length == 16
      modifies this`D, this`DF, this`Q
      ensures Abstract() == old(Abstract()).(regs := old(Regs()).(D := r.D, DF := r.DF, Q := r.Q))
    {
      D := r.D;
      DF := r.DF;
      Q := r.Q;
    }

    /** X, P, T and IE as the handler left them. */
    method LoadControl(r: Engine.RegFile)
      requires R.Length == 16
      modifies this`X, this`P, this`T, this`IE
      ensures Abstract() == old(Abstract()).(regs := old(Regs()).(X := r.X, P := r.P, T := r.T, IE := r.IE))
    {
      X := r.X;
      P := r.P;
      T := r.T;
      IE := r.IE;
    }

    /** The sixteen scratchpad registers, copied in. */
    method LoadFile(values: seq<word>)
      requires R.Length == 16 && |values| == 16
      modifies R
      ensures Abstract() == old(Abstract()).(regs := old(Regs()).(R := values))
    {
      forall i | 0 <= i < 16 {
        R[i] := values[i];
      }
      assert R[..] == values;
    }

    /** The frame key scan: the highest-numbered line the host reports pressed, else 0xFF. */
    static method ScanKeyboard(keys: Engine.KeyState) returns (newKey: byte)
      requires keys.Valid()
      ensures newKey == Engine.ScanResult(keys.lines)
    {
      newKey := 0xFF;
      for n := 0 to 16
        invariant newKey == (if Keys.LastPressed(keys.lines[..n]) == -1 then 0xFF
                             else Keys.LastPressed(keys.lines[..n]))
      {
        assert keys.lines[..n + 1][..n] == keys.lines[..n];
        if keys.lines[n] {  // SYSTEM_Command(HWC_READKEYBOARD, n)
          newKey := n;
        }
      }
      assert keys.lines[..16] == keys.lines;
    }

    /** The first half of CPU_Execute: fetch at R[P], advance R[P], charge two units. */
    method FetchOpcode() returns (opCode: byte)
      requires Wf()
      modifies R, this`Cycles
      ensures (Abstract(), opCode) == Engine.Fetch(old(Abstract()))
    {
      opCode := ReadMemory(R[P]);
      R[P] := Inc16(R[P]);
      Cycles := Cycles - Frame.InstructionCost;
    }

    /** The first half of CPU_Execute together with the EF lines the handler will see. */
    method FetchAndTest(keys: Engine.KeyState) returns (opCode: byte, flags: seq<byte>)
      requires Wf() && keys.Valid()
      modifies R, this`Cycles
      ensures Wf()
      ensures (Abstract(), opCode) == Engine.Fetch(old(Abstract()))
      ensures flags == Engine.Flags(Abstract(), keys)
    {
      opCode := FetchOpcode();
      var f1 := ReadEFlag(1, keys);
      var f2 := ReadEFlag(2, keys);
      var f3 := ReadEFlag(3, keys);
      var f4 := ReadEFlag(4, keys);
      flags := [f1, f2, f3, f4];
    }

    /** An opcode handler's accesses in order, then the registers it leaves. */
    method ApplyEffect(effect: Engine.Effect) returns (commands: seq<Engine.HostCommand>)
      requires Wf()
      modifies this`screenEnabled, this`keyboardLatch, ram, this`D, this`X, this`P, this`T,
        this`DF, this`IE, this`Q, R
      ensures Wf()
      ensures var (m, c) := Engine.PerformAll(old(Abstract()), effect.accesses);
        Abstract() == m.(regs := effect.regs) && commands == c
    {
      commands := PerformAccesses(effect.accesses);
      LoadRegisters(effect.regs);
    }

    /** Fetch, then the opcode handler: it sees the EF lines, and its accesses and
        register updates take effect in order. */
    method RunOpcode(isa: Engine.InstructionSet, keys: Engine.KeyState) returns (commands: seq<Engine.HostCommand>)
      requires Valid() && keys.Valid()
      modifies this, R, ram
      ensures Wf() && ram == old(ram)
      ensures (Abstract(), commands) == Engine.AfterOpcode(old(Abstract()), isa, keys)
    {
      var opCode, flags := FetchAndTest(keys);
      var effect := isa(opCode, Abstract(), flags);
      commands := ApplyEffect(effect);
    }

    /** The side effects of the switch to State 2: with the screen on, leave an IDL and
        take the interrupt. */
    method EndBulk()
      requires Wf()
      modifies this`T, this`X, this`P, this`IE, R
      ensures Abstract() == Engine.BulkEnd(old(Abstract()))
    {
      if screenEnabled {
        LeaveIdle();
        TakeInterrupt();
      }
    }

    /** Step over an IDL (opcode 0x00) at R[P]. */
    method LeaveIdle()
      requires Wf()
      modifies R
      ensures var m := old(Abstract());
        Abstract() == m.(regs := if Memory.Read(m.memMap, m.ram, Engine.PC(m.regs)) == 0
                                 then Engine.AdvancePC(m.regs) else m.regs)
    {
      var next := ReadMemory(R[P]);
      if next == 0 { R[P] := Inc16(R[P]); }
    }

    /** INTERRUPT(). */
    method TakeInterrupt()
      requires R.Length == 16
      modifies this`T, this`X, this`P, this`IE
      ensures Abstract() == old(Abstract()).(regs := Engine.Interrupt(old(Regs())))
    {
      if IE != 0 {
        T := X * 16 + P;
        X := 2;
        P := 1;
        IE := 0;
      }
    }

    /** The side effects of the switch to State 1: capture the screen, scan the keys. */
    method EndPreliminary(keys: Engine.KeyState)
      requires Wf() && keys.Valid()
      modifies this`screen, this`scrollOffset, this`currentKey, this`keyboardLatch
      ensures Abstract() == Engine.PreliminaryEnd(old(Abstract()), keys)
    {
      CaptureScreen();
      var newKey := ScanKeyboard(keys);
      KeyEdge(newKey);
    }

    /** The display page and the scroll offset, both taken from R0. */
    method CaptureScreen()
      requires R.Length == 16
      modifies this`screen, this`scrollOffset
      ensures Abstract() == old(Abstract()).(screen := Some(Engine.ScreenBase(variant, R[0])),
                                             scroll := R[0] % 256)
    {
      screen := Some(Engine.ScreenBase(variant, R[0]));
      scrollOffset := R[0] % 256;
    }

    /** A change of key: on the ELF a new key is shifted into the latch. */
    method KeyEdge(newKey: byte)
      requires R.Length == 16 && (newKey == 0xFF || newKey < 16)
      modifies this`currentKey, this`keyboardLatch
      ensures var k := Engine.KeyEdge(variant, old(keyboardLatch), old(currentKey), newKey);
        Abstract() == old(Abstract()).(latch := k.0, currentKey := k.1)
    {
      if newKey != currentKey {
        currentKey := newKey;
        if variant == Elf && currentKey != 0xFF {
          keyboardLatch := (keyboardLatch * 16 + currentKey) % 256;  // shift in, & 0xFF
        }
      }
    }

    /** The timing test at the end of CPU_Execute: on a state switch, the new budget
        less one, the side effects of the switch and the new state as the result. */
    method SwitchState(keys: Engine.KeyState) returns (rState: byte, commands: seq<Engine.HostCommand>)
      requires Wf() && keys.Valid() && (State == 1 || State == 2)
      modifies this`State, this`Cycles, this`T, this`X, this`P, this`IE, R,
        this`screen, this`scrollOffset, this`currentKey, this`keyboardLatch
      ensures Wf()
      ensures var m := old(Abstract()); var (t, rs) := Frame.Expire(m.timing);
        && rState == rs
        && Abstract() == (if rs == 0 then m
                          else if rs == 2 then Engine.BulkEnd(m).(timing := t)
                          else Engine.PreliminaryEnd(m, keys).(timing := t))
        && commands == if rs == 1 then [Engine.FrameSync] else []
    {
      ghost var m3 := Abstract();
      rState := 0;
      commands := [];
      if Cycles < 0 {
        if State == 1 {
          State := 2;
          Cycles := Frame.State2Cycles;
          ghost var m4 := Abstract();
          assert m4 == m3.(timing := Frame.Timing(2, Frame.State2Cycles));
          EndBulk();
          commands := [];
        } else {
          State := 1;
          Cycles := Frame.State1Cycles;
          ghost var m4 := Abstract();
          assert m4 == m3.(timing := Frame.Timing(1, Frame.State1Cycles));
          EndPreliminary(keys);
          commands := [Engine.FrameSync];  // SYSTEM_Command(HWC_FRAMESYNC, 0)
        }
        rState := State;
        Cycles := Cycles - 1;
      }
    }

    /** CPU_Execute: one instruction, then on a state switch its side effects and the new
        state as the result (0 otherwise). */
    method Execute(isa: Engine.InstructionSet, keys: Engine.KeyState)
      returns (rState: byte, commands: seq<Engine.HostCommand>)
      requires Valid() && keys.Valid()
      modifies this, R, ram
      ensures Valid() && ram == old(ram)
      ensures Engine.StepResult(Abstract(), rState, commands) == Engine.Step(old(Abstract()), isa, keys)
    {
      ghost var goal := Engine.Step(Abstract(), isa, keys);
      var handled := RunOpcode(isa, keys);
      var extra;
      rState, extra := SwitchState(keys);
      commands := handled + extra;
      assert extra == [] ==> commands == handled;
      assert Engine.StepResult(Abstract(), rState, commands) == goal;
      assert Engine.Valid(goal.machine);
    }

    /** CPU_ReadState. */
    method ReadState() returns (s: CpuState)
      requires R.Length == 16
      ensures s == CpuState(D, DF, X, P, T, IE, Q, Cycles, State, R[..])
    {
      var regs := new word[16];
      for i := 0 to 16
        invariant forall j :: 0 <= j < i ==> regs[j] == R[j]
      {
        regs[i] := R[i];
      }
      assert regs[..] == R[..];
      s := CpuState(D, DF, X, P, T, IE, Q, Cycles, State, regs[..]);
    }

    /** CPU_ReadProgramCounter. */
    method ReadProgramCounter() returns (pc: word)
      requires R.Length == 16
      ensures pc == Engine.PC(Regs())
    {
      pc := R[P];
    }

    /** CPU_GetScreenMemoryAddress: none while the display is off. */
    method GetScreenMemoryAddress() returns (p: Option<int>)
      requires Wf()
      ensures p == Engine.ScreenQuery(Abstract())
    {
      p := if screenEnabled then screen else None;
    }

    /** CPU_GetScreenScrollOffset. */
    method GetScreenScrollOffset() returns (s: byte)
      ensures s == scrollOffset
    {
      s := scrollOffset;
    }
  }
}
