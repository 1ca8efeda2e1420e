/**
 * The statics of debug.c as one object driving a Cpu.  Each method is one
 * function of debug.c, proved to do what module Debug says of the abstract
 * debugger state and the abstract machine.
 */
module Debugger {
  import opened Bits
  import opened Wrappers
  import opened Memory
  import Frame
  import Keys
  import Engine
  import Debug
  import Processor

  class Debugger {
    const cpu: Processor.Cpu
    /** static BYTE8 ram[0x600]. */
    const ram: array<byte>

    var inDebugMode: bool
    var programPointer: word
    var dataPointer: word
    var breakPoint: word
    var lastKey: int

    function State(): Debug.DebugState
      reads this
    {
      Debug.DebugState(inDebugMode, programPointer, dataPointer, breakPoint, lastKey)
    }

    ghost predicate Valid()
      reads this, cpu, cpu.R, cpu.ram
    {
      cpu.Valid() && cpu.ram == ram && ram.Length == Debug.RamBufferSize
    }

    /** The zero-initialised statics (debug mode on), then DBG_Reset as main does first. */
    constructor (variant: Variant, rom: seq<byte>, bootsMonitor: bool)
      requires Processor.Cpu.RomFits(variant, rom)
      ensures Valid() && fresh(cpu) && fresh(ram) && cpu.variant == variant
      ensures State() == Debug.ResetState(Debug.DebugState(true, 0, 0, 0, 0), variant)
      ensures forall i :: 0 <= i < Debug.RamBufferSize ==> ram[i] == 0
    {
      var buffer := new byte[Debug.RamBufferSize](i => 0);
      ram := buffer;
      cpu := new Processor.Cpu(variant, rom, bootsMonitor, buffer, Debug.RamBufferSize);
      inDebugMode, programPointer, dataPointer, breakPoint, lastKey := true, 0, 0, 0, 0;
      new;
      Reset();
    }

    /** DBG_Reset. */
    method Reset()
      requires cpu.R.Length == 16 && Processor.Cpu.RomFits(cpu.variant, cpu.rom)
      requires ram.Length == Debug.RamBufferSize && Debug.Bound(cpu.Abstract())
      modifies this, cpu, cpu.R
      ensures Valid()
      ensures State() == Debug.ResetState(old(State()), cpu.variant)
      ensures cpu.Abstract() == Debug.ResetMachine(old(cpu.Abstract()).(ram := ram[..]))
    {
      ghost var before := cpu.Abstract().(ram := ram[..]);
      cpu.Reset(ram, Debug.RamBufferSize);
      Debug.BufferMask();
      RamMaskUnique(Debug.RamBufferSize, cpu.ramMask, Debug.RamBufferMask);
      inDebugMode := true;
      programPointer := 0;
      if cpu.variant == Vip {  // IS_COSMACVIP
        programPointer := Debug.VipEntry;
      }
      dataPointer := 0;
      breakPoint := Debug.NoBreak;
    }

    /** DBG_LoadData: CPU_WriteMemory(address++, *data++) for length bytes. */
    method LoadData(address: word, data: seq<byte>, length: word)
      requires Valid() && length <= |data|
      modifies ram
      ensures Valid()
      ensures ram[..] == Debug.Load(cpu.Map(), old(ram[..]), address, data[..length])
    {
      var a := address;
      var i := 0;
      assert data[0..length] == data[..length];
      while i < length
        invariant 0 <= i <= length && Valid()
        invariant a == Debug.At(address, i)
        invariant Debug.Load(cpu.Map(), ram[..], a, data[i..length]) ==
                  Debug.Load(cpu.Map(), old(ram[..]), address, data[..length])
      {
        assert data[i..length][0] == data[i] && data[i..length][1..] == data[i + 1..length];
        cpu.WriteMemory(a, data[i]);
        Debug.AtStep(address, i);
        a := Inc16(a);
        i := i + 1;
      }
    }

    /** DBG_LoadFileToAddress, with DBG_LoadFile's file read given as readFile.  An error
        is the exit the C code takes; nothing is loaded then. */
    method LoadFileToAddress(cmd: string, readFile: string -> seq<byte>)
      returns (r: Result<Debug.LoadSpec, Debug.LoadError>)
      requires Valid()
      modifies ram
      ensures Valid() && r == Debug.ParseLoadSpec(cmd)
      ensures r.Err? ==> ram[..] == old(ram[..])
      ensures r.Ok? ==> ram[..] == Debug.Load(cpu.Map(), old(ram[..]), r.value.address % 0x1_0000,
                                               Debug.FileBytes(readFile(r.value.fileName)))
    {
      r := Debug.ParseLoadSpec(cmd);
      if r.Ok? {
        var bytes := Debug.FileBytes(readFile(r.value.fileName));  // fread into loadBuffer[4096]
        LoadData(r.value.address % 0x1_0000, bytes, |bytes|);
        assert bytes[..|bytes|] == bytes;
      }
    }

    /** The single step of commands 'S' and 'V'. */
    method SingleStep(isa: Engine.InstructionSet, keys: Engine.KeyState) returns (commands: seq<Engine.HostCommand>)
      requires Valid() && keys.Valid()
      modifies this, cpu, cpu.R, ram
      ensures Valid()
      ensures Debug.Outcome(State(), cpu.Abstract(), commands) ==
              Debug.SingleStep(old(State()), old(cpu.Abstract()), isa, keys)
    {
      var ignored;
      ignored, commands := cpu.Execute(isa, keys);
      var s := cpu.ReadState();
      programPointer := s.R[s.P];
    }

    /** DBG_KeyCommand. */
    method KeyCommand(cmd: char, shift: bool, isa: Engine.InstructionSet, keys: Engine.KeyState)
      returns (commands: seq<Engine.HostCommand>)
      requires Valid() && keys.Valid() && ' ' <= cmd <= 'Z'
      modifies this, cpu, cpu.R, ram
      ensures Valid()
      ensures Debug.Outcome(State(), cpu.Abstract(), commands) ==
              Debug.Command(old(State()), old(cpu.Abstract()), cmd, shift, isa, keys)
    {
      commands := [];
      if Debug.IsHexDigit(cmd) {
        var n := Debug.HexValue(cmd);
        if shift {
          dataPointer := Debug.ShiftIn(dataPointer, n);
        } else {
          programPointer := Debug.ShiftIn(programPointer, n);
        }
      } else {
        var s := cpu.ReadState();
        if cmd == 'P' {
          assert ram[..] == cpu.Abstract().ram;
          Reset();
        } else if cmd == 'K' {
          breakPoint := programPointer;
        } else if cmd == 'H' {
          programPointer := s.R[s.P];
        } else if cmd == 'X' {
          dataPointer := s.R[s.X];
        } else if cmd == 'S' {
          commands := SingleStep(isa, keys);
        } else if cmd == 'G' {
          inDebugMode := false;
        } else if cmd == 'V' {
          var opcode := cpu.ReadMemory(s.R[s.P]);
          if opcode / 16 == 0xD {  // (opcode & 0xF0) == 0xD0: SEP
            inDebugMode := false;
            breakPoint := Inc16(s.R[s.P]);
          } else {
            commands := SingleStep(isa, keys);
          }
        }
      }
    }

    /** The key scan of DBG_Execute: the last pressed key from ' ' up to 'Z', or -1. */
    static method ScanHostKeys(input: Debug.HostInput) returns (key: int)
      requires input.Valid()
      ensures key == Debug.ScannedKey(input)
    {
      key := -1;
      for i := ' ' as int to 'Z' as int + 1
        invariant var j := Keys.LastPressed(input.pressed[..i - ' ' as int]);
          key == (if j == -1 then -1 else j + ' ' as int)
      {
        assert input.pressed[..i + 1 - ' ' as int][..i - ' ' as int] == input.pressed[..i - ' ' as int];
        if input.KeyPressed(i as char) {  // IF_KeyPressed(i)
          key := i;
        }
      }
      assert input.pressed[..Debug.KeyCount] == input.pressed;
    }

    /** The run loop of DBG_Execute: CPU_Execute until it returns 1 or R[P] is the
        breakpoint. */
    method RunFrame(isa: Engine.InstructionSet, keys: Engine.KeyState)
      returns (rState: byte, commands: seq<Engine.HostCommand>)
      requires Valid() && keys.Valid()
      modifies cpu, cpu.R, ram
      ensures Valid()
      ensures Engine.StepResult(cpu.Abstract(), rState, commands) ==
              Debug.RunFrame(old(cpu.Abstract()), isa, keys, breakPoint)
    {
      ghost var goal := Debug.RunFrame(cpu.Abstract(), isa, keys, breakPoint);
      rState := 0;
      commands := [];
      while true
        invariant Valid()
        invariant var r := Debug.RunFrame(cpu.Abstract(), isa, keys, breakPoint);
          goal == Engine.StepResult(r.machine, r.rState, commands + r.commands)
        decreases Frame.CallsToFrameEnd(cpu.Abstract().timing)
      {
        ghost var before := cpu.Abstract();
        ghost var done := commands;
        Debug.RunFrameUnfold(before, isa, keys, breakPoint);
        var rs, c, stop := RunStep(isa, keys);
        ghost var s := Engine.Step(before, isa, keys);
        commands := commands + c;
        if stop {
          rState := rs;
          break;
        }
        ghost var rest := Debug.RunFrame(s.machine, isa, keys, breakPoint);
        AppendAssoc(done, c, rest.commands);
      }
    }

    /** One call of the run loop: CPU_Execute, and whether the loop stops after it. */
    method RunStep(isa: Engine.InstructionSet, keys: Engine.KeyState)
      returns (rState: byte, commands: seq<Engine.HostCommand>, stop: bool)
      requires Valid() && keys.Valid()
      modifies cpu, cpu.R, ram
      ensures Valid()
      ensures var s := Engine.Step(old(cpu.Abstract()), isa, keys);
        Engine.StepResult(cpu.Abstract(), rState, commands) == s && stop == Debug.Stops(s, breakPoint)
    {
      rState, commands := cpu.Execute(isa, keys);
      stop := rState == 1;
      if !stop {
        var pc := cpu.ReadProgramCounter();
        stop := pc == breakPoint;
      }
    }

    /** DBG_Execute: in debug mode, react to a newly pressed key; in run mode, run a frame
        and decide whether to return to debug mode or reset. */
    method Execute(input: Debug.HostInput, isa: Engine.InstructionSet, keys: Engine.KeyState)
      returns (commands: seq<Engine.HostCommand>)
      requires Valid() && input.Valid() && keys.Valid()
      modifies this, cpu, cpu.R, ram
      ensures Valid()
      ensures Debug.Outcome(State(), cpu.Abstract(), commands) ==
              Debug.Execute(old(State()), old(cpu.Abstract()), input, isa, keys)
    {
      if inDebugMode {
        commands := ExecuteDebugMode(input, isa, keys);
      } else {
        commands := ExecuteRunMode(input, isa, keys);
      }
    }

    /** The debug-mode half of DBG_Execute: a key edge runs one command. */
    method ExecuteDebugMode(input: Debug.HostInput, isa: Engine.InstructionSet, keys: Engine.KeyState)
      returns (commands: seq<Engine.HostCommand>)
      requires Valid() && input.Valid() && keys.Valid() && inDebugMode
      modifies this, cpu, cpu.R, ram
      ensures Valid()
      ensures Debug.Outcome(State(), cpu.Abstract(), commands) ==
              Debug.Execute(old(State()), old(cpu.Abstract()), input, isa, keys)
    {
      commands := [];
      var key := ScanHostKeys(input);
      if key != lastKey && key != -1 {
        commands := KeyCommand(key as char, input.shift, isa, keys);
      }
      lastKey := key;
    }

    /** The run-mode half of DBG_Execute: a frame, then the 'M', breakpoint and 'P' tests. */
    method ExecuteRunMode(input: Debug.HostInput, isa: Engine.InstructionSet, keys: Engine.KeyState)
      returns (commands: seq<Engine.HostCommand>)
      requires Valid() && input.Valid() && keys.Valid() && !inDebugMode
      modifies this, cpu, cpu.R, ram
      ensures Valid()
      ensures Debug.Outcome(State(), cpu.Abstract(), commands) ==
              Debug.Execute(old(State()), old(cpu.Abstract()), input, isa, keys)
    {
      var ignored;
      ignored, commands := RunFrame(isa, keys);
      var pc := cpu.ReadProgramCounter();
      StopCheck(pc, input);
      if input.KeyPressed('P') {
        assert ram[..] == cpu.Abstract().ram;
        ResetToRun();
      }
    }

    /** Back to debug mode, at the code pointer R[P], on 'M' or at the breakpoint. */
    method StopCheck(pc: word, input: Debug.HostInput)
      requires input.Valid()
      modifies this`inDebugMode, this`programPointer
      ensures State() == if input.KeyPressed('M') || pc == breakPoint
                         then old(State()).(inDebugMode := true, programPointer := pc) else old(State())
    {
      if input.KeyPressed('M') || pc == breakPoint {
        inDebugMode := true;
        programPointer := pc;
      }
    }

    /** 'P' in run mode: DBG_Reset, then carry on running. */
    method ResetToRun()
      requires Valid()
      modifies this, cpu, cpu.R
      ensures Valid()
      ensures State() == Debug.ResetState(old(State()), cpu.variant).(inDebugMode := false)
      ensures cpu.Abstract() == Debug.ResetMachine(old(cpu.Abstract()))
    {
      assert ram[..] == cpu.Abstract().ram;
      Reset();
      inDebugMode := false;
    }
  }

  lemma AppendAssoc<T>(a: seq<T>, b: seq<T>, c: seq<T>)
    ensures a + (b + c) == a + b + c
  {
  }
}
