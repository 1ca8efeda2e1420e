# RCA 1802 emulator core: cpu.c, the desktop debugger and the upload tools

The project models the core of an emulator for three RCA 1802 machines: the
COSMAC VIP, the ELF II and the RCA Studio 2. It has five parts:

- **The CPU frame engine of the Arduino build (`Arduino/vipntsc/cpu.c`).** This
  covers the register file, the reset and its RAM-mask loop, and the three memory
  maps. It also covers the EF flag and I/O port handlers, and the two-state frame
  timer that `CPU_Execute` runs. State 1 is the bulk of the NTSC frame and ends in
  the display interrupt. State 2 is the 29 units before DMA, and ends in the screen
  capture and keyboard scan.
- **The desktop debugger (`CosmacVIP/debug.c`).** This covers reset, byte loading,
  the `name@hex` load command, the key commands, and the debug-mode and run-mode
  halves of `DBG_Execute`.
- **The serial upload script (`Transmit/transmit.py`).** `SerialFileWriter` frames
  bytes as `@`, a hex pair and `+` for each byte, the checksum pair, `=`, and
  finally `$`.
- **The two converter scripts.** `Generate/binaryconv.py` turns a ROM image into a
  C array, patching one byte. `Miscellany/bconv.py` turns a binary into a PROGMEM
  array line and a `RAMUpload` line.

Modules:

- **Basics**
  - `Bits`: machine integers `byte`, `word` and `nibble`, WORD16 increment and bitwise AND.
  - `Wrappers`: `Option` and `Result`.
  - `Keys`: the "last pressed key wins" scan.
- **CPU**
  - `Memory`: the three memory maps as functions of a memory map and the RAM contents.
  - `Frame`: the frame budget.
  - `Engine`: the frame engine as values. `Engine.Step` is one `CPU_Execute` call.
  - `Processor`: class `Cpu`, holding the globals of cpu.c. Each method is proved
    equal, on the abstract value `Abstract()`, to the `Engine` function it
    implements.
- **Debugger**
  - `Debug`: the debugger as values.
  - `Debugger`: class `Debugger`, holding the statics of debug.c and driving a `Cpu`.
- **Upload and converters**
  - `Framing`: the upload stream and a decoder for it.
  - `Transmit`: the writer classes.
  - `Text`: Python's `str()` of an integer and `",".join`, each with its inverse.
  - `RomConvert` and `BinConvert`: the two converters.

The opcode handlers are a parameter. An `InstructionSet` maps the fetched opcode,
the machine after the fetch and the four EF lines to an `Effect`. An `Effect` is
the register file the handler leaves, plus its memory stores and port accesses in
order. The frame timing, the memory policy and the I/O handling are therefore
proved for every possible handler.

The upload properties are proved as round trips through the decoder:

- what was written is what a receiver decodes;
- the checksum catches a corrupted checksum pair;
- the converter output reads back as the image, with the patch applied.

Where the debugger depends on the machine, it runs against the cpu.c model.

## Model

| member | source | states |
|---|---|---|
| Bits.Inc16 | Arduino/vipntsc/cpu.c:296 | R[P]++ on a WORD16 is the increment modulo 2^16 |
| Bits.And | Arduino/vipntsc/cpu.c:238 | address & ramMask is no larger than the address or the mask |
| Bits.AndIdempotent | Arduino/vipntsc/cpu.c:235-242 | masking an address twice with ramMask is masking it once |
| Bits.AndBelowPow2 | Arduino/vipntsc/cpu.c:61-67 | with a mask of the form 2^k - 1, every address below 2^k is unchanged by the AND |
| Keys.LastPressed | Arduino/vipntsc/cpu.c:326-330 | the scan result is -1 exactly when no line is pressed; otherwise it is a pressed line with no pressed line above it |
| Memory.Write | Arduino/vipntsc/cpu.c:266-287 | a write never changes the size of RAM |
| Memory.WriteReadBack | Arduino/vipntsc/cpu.c:218-287 | in every variant a write reaches exactly the RAM cell of its address. Every address aliasing that cell reads the value back, and every other address reads as before. An address without a cell ignores writes |
| Memory.CellAccess | Arduino/vipntsc/cpu.c:218-287 | the read and the write of an address with a RAM cell are the read and the update of that cell; without a cell the write is a no-op |
| Memory.VipRamRoundTrip | Arduino/vipntsc/cpu.c:266-270 | VIP: below ramSize, a write reads back and leaves every other address unchanged |
| Memory.VipMonitorWindow | Arduino/vipntsc/cpu.c:218-233 | VIP: 0x8000-0x81FF reads the 512-byte monitor image, and writes there are discarded |
| Memory.VipUnmapped | Arduino/vipntsc/cpu.c:221-231 | VIP: every other address, including those below 0x8000 where the WORD16 subtraction wraps, reads 0 and ignores writes |
| Memory.ElfMirror | Arduino/vipntsc/cpu.c:235-279 | ELF: a and a & ramMask are the same location for reads and for writes |
| Memory.ElfOutsideRam | Arduino/vipntsc/cpu.c:235-241 | ELF: a masked address at or above ramSize reads 0 and ignores writes |
| Memory.ElfRamRoundTrip | Arduino/vipntsc/cpu.c:274-278 | ELF: below ramSize the mask is the identity, so a write reads back |
| Memory.Studio2Rom | Arduino/vipntsc/cpu.c:245-255 | Studio 2: below 0x800 of address & 0xFFF is read-only game ROM |
| Memory.Studio2Ram | Arduino/vipntsc/cpu.c:256-285 | Studio 2: 0x800-0x9FF of address & 0xFFF is RAM at offset address - 0x800, and writes read back |
| Memory.Studio2Unmapped | Arduino/vipntsc/cpu.c:256-258 | Studio 2: the rest of the 4K window reads 0xFF and ignores writes |
| Memory.Pow2Halving | Arduino/vipntsc/cpu.c:65-67 | of two powers of two, the smaller is at most half the larger |
| Memory.RamMaskSmallest | Arduino/vipntsc/cpu.c:65-67 | ramMask + 1 is the smallest power of two covering ramSize |
| Memory.RamMaskUnique | Arduino/vipntsc/cpu.c:65-67 | the mask is determined by the RAM size alone |
| Frame.DerivedConstants | Arduino/vipntsc/cpu.c:19-38 | the divisor chain gives the quoted 220080 cycles/s, 3668 per frame, 14 per line, 134 non-display lines and 1876 for State 1 |
| Frame.Tick | Arduino/vipntsc/cpu.c:293-348 | one call returns 0 exactly when at least two units remain and then charges two. Otherwise it switches to the other state, reloads that state's budget less one and returns the new state |
| Frame.Run | Arduino/vipntsc/cpu.c:302-346 | any number of calls keeps State in {1, 2} and the INT16 counter within that state's budget |
| Frame.TraceSplit | Arduino/vipntsc/cpu.c:293-348 | a + b calls are a calls followed by b calls, in state and in returned values |
| Frame.Quiet | Arduino/vipntsc/cpu.c:297-302 | while the budget lasts, calls return 0 and take two units each |
| Frame.SwitchAfterBudget | Arduino/vipntsc/cpu.c:302-346 | from any timing, the next switch is exactly call cycles/2 + 1. Every call before it returns 0, and it returns the other state with that state's budget less one |
| Frame.SteadyFrame | Arduino/vipntsc/cpu.c:302-346 | the steady frame is 953 calls: the switch to State 2 is the 938th call and the switch back to State 1 is the 953rd; the timing then repeats |
| Frame.FirstFrameAfterReset | Arduino/vipntsc/cpu.c:74-75 | after reset, the first switch to State 2 is the 939th call |
| Frame.FrameEndApproaches | Arduino/vipntsc/cpu.c:302-346 | every call that does not return 1 brings the next return of 1 exactly one call closer |
| Engine.AdvancePC | Arduino/vipntsc/cpu.c:296 | the fetch increments R[P] modulo 2^16 and keeps P |
| Engine.KeyBit | Arduino/vipntsc/cpu.c:119 | a HWC_READKEYBOARD answer is 1 exactly when the line selected by the low four bits is down, else 0 |
| Engine.ResetValues | Arduino/vipntsc/cpu.c:59-85 | reset sets X = P = Q = R0 = 0 and IE = 1, and makes DF one bit. It selects State 1 with 1876 units and turns the screen off. On the VIP it also sets D = R0 = 8, P = X = 2 and R2 = 0x800A. D, T and the other registers are kept |
| Engine.IoDispatch | Arduino/vipntsc/cpu.c:109-187 | IN 1 turns the screen on and reads 0. IN 4 reads the latch on the ELF. OUT 1 turns the screen off and OUT 2 sets the latch to data & 0x0F on the VIP and Studio 2. Only OUT 0 (all variants) and OUT 4 (ELF) reach the host. EF1 is 1. On the ELF, EF3 means a key is held and EF4 is the inverted I key. Every other flag reads 0 |
| Engine.Perform | Arduino/vipntsc/cpu.c:91-107 | a store or port access changes only RAM, the screen flag and the latch, and keeps the binding valid |
| Engine.PerformAll | Arduino/vipntsc/cpu.c:91-107 | the same for a handler's accesses in order |
| Engine.AfterOpcode | Arduino/vipntsc/cpu.c:296-301 | after the fetch and the handler the memory binding is still valid |
| Engine.ScanResult | Arduino/vipntsc/cpu.c:326-330 | the new key is 0xFF exactly when no line is down; otherwise it is the highest-numbered line that is down |
| Engine.Step | Arduino/vipntsc/cpu.c:293-348 | one CPU_Execute call keeps the timing and the memory binding valid |
| Engine.ScreenQuery | Arduino/vipntsc/cpu.c:371-378 | the screen pointer is NULL while the display is off; otherwise it is the captured one |
| Engine.StepTiming | Arduino/vipntsc/cpu.c:293-348 | state, counter and return value of a call are those of Frame.Tick, whatever the opcode did |
| Engine.StepKeepsBinding | Arduino/vipntsc/cpu.c:293-348 | no call changes the memory map, the RAM size or the boot option |
| Engine.NoOpStep | Arduino/vipntsc/cpu.c:296-301 | away from a switch, an instruction that changes nothing only advances R[P] and charges two units |
| Engine.RegistersChangeOnlyAtBulkEnd | Arduino/vipntsc/cpu.c:302-346 | the engine changes registers only when State 1 ends; on every other call they are the handler's |
| Engine.BulkEndScreenOff | Arduino/vipntsc/cpu.c:307-315 | when State 1 ends with the screen off, nothing but the timing changes |
| Engine.BulkEndScreenOn | Arduino/vipntsc/cpu.c:307-315 | when State 1 ends with the screen on, an IDL at R[P] is stepped over. With IE = 1 the interrupt saves (X,P) in T, selects P = 1 and X = 2 and clears IE. With IE = 0 only the IDL skip happens |
| Engine.PreliminaryEndCapture | Arduino/vipntsc/cpu.c:316-342 | when State 2 ends, the screen page comes from R0 & 0xFF00 (less 0x800 on the Studio 2) and the scroll offset from R0 & 0xFF. The scan result becomes the current key. The latch changes only on a new key, and nothing else changes |
| Engine.KeyEdgeRules | Arduino/vipntsc/cpu.c:331-341 | the latch never moves on a held key, a release or a non-ELF variant. On the ELF a new key becomes the low nibble and the old low nibble becomes the high one |
| Engine.KeyScenario | Arduino/vipntsc/cpu.c:326-341 | press key 5 for a frame, then release it: the current key goes 5 then 0xFF. The ELF latch takes 5 and keeps it on release; elsewhere the latch stays put |
| Engine.PerformAllKeepsLatchNibble | Arduino/vipntsc/cpu.c:173-180 | on the VIP and the Studio 2, port accesses keep the select latch within four bits |
| Engine.StepKeepsLatchNibble | Arduino/vipntsc/cpu.c:173-180 | every call keeps the select latch within four bits, whatever the handler does |
| Engine.PerformAllKeepsRom | Arduino/vipntsc/cpu.c:266-270 | no sequence of stores changes what the VIP monitor window reads |
| Engine.MonitorIsReadOnly | Arduino/vipntsc/cpu.c:218-271 | the monitor window reads the monitor image before and after every call |
| Processor.Cpu.constructor | Arduino/vipntsc/cpu.c:40-85 | the zero-initialised globals followed by CPU_Reset binding the buffer: the state is valid and equal to Engine.Reset of the zero state |
| Processor.Cpu.RamMaskFor | Arduino/vipntsc/cpu.c:65-67 | the shift loop ends with ramMask + 1 the smallest power of two at least ramSize |
| Processor.Cpu.Reset | Arduino/vipntsc/cpu.c:59-85 | with a buffer, it binds the buffer, size and derived mask; with NULL it keeps the binding. It then leaves Engine.Reset of the bound state |
| Processor.Cpu.Bind | Arduino/vipntsc/cpu.c:61-68 | the RAM pointer, the size and a mask satisfying IsRamMask |
| Processor.Cpu.ResetRegisters | Arduino/vipntsc/cpu.c:70-84 | the register file becomes Engine.ResetRegs of the old one; State 1, the full budget, screen off |
| Processor.Cpu.VipBoot | Arduino/vipntsc/cpu.c:78-84 | D = R0 = 8, P = X = 2, R2 = 0x800A, nothing else |
| Processor.Cpu.ReadMemory | Arduino/vipntsc/cpu.c:218-260 | the byte Memory.Read gives for the bound variant |
| Processor.Cpu.WriteMemory | Arduino/vipntsc/cpu.c:266-287 | the RAM becomes Memory.Write of the old RAM |
| Processor.Cpu.ReadEFlag | Arduino/vipntsc/cpu.c:109-144 | the flag Engine.EFlag gives, including the VIP monitor fudge at R[P] = 0x8024 |
| Processor.Cpu.InputHandler | Arduino/vipntsc/cpu.c:146-161 | the new state and value are Engine.Input of the old state |
| Processor.Cpu.OutputHandler | Arduino/vipntsc/cpu.c:163-187 | the new state and the forwarded host command are Engine.Output of the old state |
| Processor.Cpu.PerformOne | Arduino/vipntsc/cpu.c:91-107 | one handler access as Engine.Perform |
| Processor.Cpu.PerformAccesses | Arduino/vipntsc/cpu.c:298-301 | all of a handler's accesses in order as Engine.PerformAll |
| Processor.Cpu.LoadRegisters | Arduino/vipntsc/cpu.c:298-301 | the registers become those the handler left; nothing else changes |
| Processor.Cpu.LoadData | Arduino/vipntsc/cpu.c:298-301 | D, DF and Q as the handler left them |
| Processor.Cpu.LoadControl | Arduino/vipntsc/cpu.c:298-301 | X, P, T and IE as the handler left them |
| Processor.Cpu.LoadFile | Arduino/vipntsc/cpu.c:298-301 | R0-R15 as the handler left them |
| Processor.Cpu.ScanKeyboard | Arduino/vipntsc/cpu.c:326-330 | the loop over the 16 lines gives Engine.ScanResult |
| Processor.Cpu.FetchOpcode | Arduino/vipntsc/cpu.c:296-297 | the opcode at R[P], R[P] advanced, two units charged, as Engine.Fetch |
| Processor.Cpu.FetchAndTest | Arduino/vipntsc/cpu.c:296-301 | the fetch, and the four EF lines the handler sees |
| Processor.Cpu.ApplyEffect | Arduino/vipntsc/cpu.c:298-301 | the handler's accesses in order and then its registers |
| Processor.Cpu.RunOpcode | Arduino/vipntsc/cpu.c:296-301 | the fetch and the handler, as Engine.AfterOpcode |
| Processor.Cpu.EndBulk | Arduino/vipntsc/cpu.c:310-314 | the side effects of the end of State 1, as Engine.BulkEnd |
| Processor.Cpu.LeaveIdle | Arduino/vipntsc/cpu.c:312 | R[P] steps over an IDL opcode (0x00) and is unchanged otherwise |
| Processor.Cpu.TakeInterrupt | Arduino/vipntsc/cpu.c:313 | the registers become Engine.Interrupt of the old ones |
| Processor.Cpu.EndPreliminary | Arduino/vipntsc/cpu.c:316-342 | the side effects of the end of State 2, as Engine.PreliminaryEnd |
| Processor.Cpu.CaptureScreen | Arduino/vipntsc/cpu.c:319-324 | the screen offset and scroll offset from R0; nothing else |
| Processor.Cpu.KeyEdge | Arduino/vipntsc/cpu.c:331-341 | current key and latch as Engine.KeyEdge |
| Processor.Cpu.SwitchState | Arduino/vipntsc/cpu.c:302-346 | no switch and 0 while the counter is non-negative. Otherwise the other state with its budget less one, that switch's side effects, and FRAMESYNC at the end of State 2 |
| Processor.Cpu.Execute | Arduino/vipntsc/cpu.c:293-348 | the new state, the return value and the host commands are exactly Engine.Step; the state stays valid |
| Processor.Cpu.ReadState | Arduino/vipntsc/cpu.c:356-363 | a copy of every register, Cycles and State |
| Processor.Cpu.ReadProgramCounter | Arduino/vipntsc/cpu.c:393-396 | R[P] |
| Processor.Cpu.GetScreenMemoryAddress | Arduino/vipntsc/cpu.c:371-378 | Engine.ScreenQuery: NULL while the display is off |
| Processor.Cpu.GetScreenScrollOffset | Arduino/vipntsc/cpu.c:384-387 | the captured scroll offset |
| Debug.BufferMask | CosmacVIP/debug.c:30 | the mask CPU_Reset derives for the 0x600-byte buffer is 0x7FF |
| Debug.ResetMachine | CosmacVIP/debug.c:38 | CPU_Reset(ram, sizeof(ram)) keeps the machine bound to a 0x600-byte buffer |
| Debug.HexValue | CosmacVIP/debug.c:133 | the value of a hex key is the position of that key in "0123456789ABCDEF" |
| Debug.ShiftIn | CosmacVIP/debug.c:134 | the new pointer has the key as its low digit and the old low three digits above it |
| Debug.FourHexKeys | CosmacVIP/debug.c:130-135 | four hex keys set a pointer to the four-digit number they spell, whatever it held |
| Debug.HexDigitRoundTrip | CosmacVIP/debug.c:130-135 | every digit 0-F is a scanned hex key whose value is that digit |
| Debug.SingleStep | CosmacVIP/debug.c:151-153 | a single step keeps the debugger's RAM binding |
| Debug.Command | CosmacVIP/debug.c:128-172 | every command keeps the debugger's RAM binding |
| Debug.ScannedKey | CosmacVIP/debug.c:96-100 | the key is -1 exactly when no key from ' ' to 'Z' is down; otherwise it is the highest one that is down |
| Debug.StepsUnfold | CosmacVIP/debug.c:108 | n calls are one call followed by n - 1 calls, with their commands concatenated |
| Debug.RunFrameCalls | CosmacVIP/debug.c:108 | the run loop makes at least one CPU_Execute call |
| Debug.RunFrame | CosmacVIP/debug.c:108 | the run loop keeps the machine valid |
| Debug.RunFrameUnfold | CosmacVIP/debug.c:108 | the loop stops after a call that returns 1 or leaves R[P] at the breakpoint; otherwise it goes on from the machine that call left |
| Debug.RunFrameFirstStop | CosmacVIP/debug.c:108 | the loop ends at the first such call, and never makes more calls than remain in the frame |
| Debug.RunFrameCount | CosmacVIP/debug.c:108 | the number of calls is at most the calls left until the frame ends |
| Debug.RunFrameStops | CosmacVIP/debug.c:108 | the last call returned 1 or left R[P] at the breakpoint |
| Debug.RunFrameNoEarlierStop | CosmacVIP/debug.c:108 | no earlier call did either |
| Debug.Execute | CosmacVIP/debug.c:92-122 | a DBG_Execute call keeps the debugger's RAM binding |
| Debug.RunFrameKeepsBinding | CosmacVIP/debug.c:108 | the run loop keeps the memory map and the RAM size |
| Debug.HexKeyEditsOnePointer | CosmacVIP/debug.c:130-135 | a hex key shifts into the data pointer with shift held, and into the code pointer otherwise. Nothing else changes and the machine does not run |
| Debug.StepOverRule | CosmacVIP/debug.c:157-168 | 'V' on a SEP runs with the breakpoint at R[P] + 1 modulo 2^16, and on anything else is one single step with the code pointer at the new R[P] |
| Debug.ResetCommand | CosmacVIP/debug.c:143 | 'P' resets. The code pointer is 0x800A (VIP) or 0, the data pointer 0 and the breakpoint 0xFFFF, in debug mode. RAM is rebound to 0x600 bytes with mask 0x7FF and the CPU is reset; RAM contents and the last key are kept |
| Debug.DebugModeKeyEdge | CosmacVIP/debug.c:96-103 | in debug mode a key acts only on the call where it first appears, and the key seen is always remembered |
| Debug.HeldKeyActsOnce | CosmacVIP/debug.c:101-103 | a second call with the same key still held does nothing |
| Debug.RunModeExit | CosmacVIP/debug.c:106-118 | run mode runs one frame or up to the breakpoint, returning the frame's host commands. 'M' or the breakpoint go back to debug mode with the code pointer at R[P]. 'P' resets the machine and keeps running |
| Debug.Load | CosmacVIP/debug.c:66-69 | loading keeps the RAM size and the binding valid |
| Debug.LoadUntouched | CosmacVIP/debug.c:66-69 | a RAM cell no loaded address reaches keeps its value |
| Debug.LoadReadBack | CosmacVIP/debug.c:66-69 | a loaded byte reads back at its address unless a later byte went to the same cell |
| Debug.LoadIntoRomIsNoOp | CosmacVIP/debug.c:66-69 | loading into ROM or unmapped space changes nothing |
| Debug.VipLoadRoundTrip | CosmacVIP/debug.c:66-69 | VIP: bytes loaded inside RAM read back in order, and every other address reads as before |
| Debug.FindAt | CosmacVIP/debug.c:78 | -1 exactly when there is no '@'; otherwise the index of the first one |
| Debug.SkipSpace | CosmacVIP/debug.c:83 | the leading white space sscanf skips, and only that |
| Debug.HexRun | CosmacVIP/debug.c:83 | the longest leading run of hex digits |
| Debug.ParseLoadSpec | CosmacVIP/debug.c:75-86 | the command fails with "bad format" exactly when it has no '@'. The file name is the text before the first '@' |
| Debug.LoadSpecRoundTrip | CosmacVIP/debug.c:75-86 | name@digits gives back the name and the number the digits spell |
| Debug.ScanHexDigits | CosmacVIP/debug.c:83 | a plain run of hex digits scans as its value |
| Debug.LoadSpecErrors | CosmacVIP/debug.c:78-84 | no '@' is the format error; nothing after the '@' is the address error |
| Debug.FileBytes | CosmacVIP/debug.c:52-57 | at most 4096 bytes, a prefix of the file, all of a file that fits |
| Debugger.Debugger.constructor | CosmacVIP/debug.c:22-46 | the statics, then DBG_Reset: a zeroed 0x600-byte RAM bound to a valid CPU |
| Debugger.Debugger.Reset | CosmacVIP/debug.c:36-46 | the debugger state becomes Debug.ResetState and the machine becomes Debug.ResetMachine |
| Debugger.Debugger.LoadData | CosmacVIP/debug.c:66-69 | the RAM becomes Debug.Load of the first length bytes at the address |
| Debugger.Debugger.LoadFileToAddress | CosmacVIP/debug.c:75-86 | the result is Debug.ParseLoadSpec. On an error RAM is unchanged. Otherwise the first 4096 bytes of the file are loaded at the address truncated to 16 bits |
| Debugger.Debugger.SingleStep | CosmacVIP/debug.c:151-153 | as Debug.SingleStep |
| Debugger.Debugger.KeyCommand | CosmacVIP/debug.c:128-172 | the debugger state, machine and host commands are Debug.Command |
| Debugger.Debugger.ScanHostKeys | CosmacVIP/debug.c:96-100 | the scan loop gives Debug.ScannedKey |
| Debugger.Debugger.RunFrame | CosmacVIP/debug.c:108 | the run loop leaves Debug.RunFrame's machine, result and commands |
| Debugger.Debugger.RunStep | CosmacVIP/debug.c:108 | one turn of the loop: Engine.Step, and whether it stops |
| Debugger.Debugger.Execute | CosmacVIP/debug.c:92-122 | the debugger state, machine and host commands are Debug.Execute |
| Debugger.Debugger.ExecuteDebugMode | CosmacVIP/debug.c:94-105 | the debug-mode half of Debug.Execute |
| Debugger.Debugger.ExecuteRunMode | CosmacVIP/debug.c:106-121 | the run-mode half of Debug.Execute |
| Debugger.Debugger.StopCheck | CosmacVIP/debug.c:109-113 | back to debug mode at R[P] on 'M' or at the breakpoint, unchanged otherwise |
| Debugger.Debugger.ResetToRun | CosmacVIP/debug.c:114-118 | DBG_Reset followed by run mode |
| Framing.HexPair | Transmit/transmit.py:104-106 | two upper-case hex digits |
| Framing.ChecksumIsSum | Transmit/transmit.py:80 | the running checksum is the sum of the bytes modulo 256 |
| Framing.Body | Transmit/transmit.py:77-82 | three characters per byte written |
| Framing.DigitValue | Transmit/transmit.py:71 | the inverse of the self.hex table |
| Framing.HexPairRoundTrip | Transmit/transmit.py:104-106 | a hex pair decodes to its byte |
| Framing.BodyRoundTrip | Transmit/transmit.py:77-82 | the pairs before each "+" decode to the bytes written, in order |
| Framing.UploadRoundTrip | Transmit/transmit.py:73-97 | open, the writes and close form a stream that decodes, checksum included, to the bytes written |
| Framing.UploadDetectsBadChecksum | Transmit/transmit.py:94-96 | a stream whose checksum pair differs from the checksum is refused |
| Transmit.RecordingConnector.constructor | Transmit/transmit.py:42-46 | a connector that has sent nothing |
| Transmit.RecordingConnector.Transmit | Transmit/transmit.py:53-56 | a one-character string is sent. Any other length raises and nothing is sent |
| Transmit.RecordingConnector.Close | Transmit/transmit.py:59-60 | the port is closed |
| Transmit.SerialFileWriter.constructor | Transmit/transmit.py:67-71 | no checksum yet and nothing written |
| Transmit.SerialFileWriter.Open | Transmit/transmit.py:73-75 | the checksum is zeroed and "@" is sent |
| Transmit.SerialFileWriter.WriteByte | Transmit/transmit.py:104-106 | the byte's hex pair is sent, high nibble first |
| Transmit.SerialFileWriter.Write | Transmit/transmit.py:77-82 | a value outside 0-255 raises, and a write before open fails, both sending nothing. Otherwise the checksum advances by the byte modulo 256 and the hex pair and "+" are sent. The checksum keeps tracking the bytes written |
| Transmit.SerialFileWriter.WriteFile | Transmit/transmit.py:84-92 | the first 8192 bytes of the file are written in order and the checksum keeps track of them |
| Transmit.SerialFileWriter.Close | Transmit/transmit.py:94-97 | the checksum pair and then "=" are sent; before open it fails and sends nothing |
| Transmit.SerialFileWriter.Terminate | Transmit/transmit.py:99-102 | "$" is sent and the connector is closed |
| Transmit.FileBytes | Transmit/transmit.py:86 | at most 8192 bytes, a prefix of the file, all of a file that fits |
| Transmit.WriteFiles | Transmit/transmit.py:127-128 | the files' bytes in turn, with the checksum tracking them |
| Transmit.Send | Transmit/transmit.py:125-130 | the script sends exactly one upload of all the files' bytes, then "$", and closes the port |
| Transmit.BodyAppend | Transmit/transmit.py:90-91 | writing two byte runs in turn sends the two bodies in turn |
| Text.Decimal | Miscellany/bconv.py:12 | str(n): decimal digits with no leading zero |
| Text.DecimalRoundTrip | Miscellany/bconv.py:12 | str(n) reads back as n |
| Text.SignedDecimalRoundTrip | Miscellany/bconv.py:19 | str(address) of any integer, negative included, reads back as that integer |
| Text.SplitJoin | Miscellany/bconv.py:14 | splitting a join gives the parts back when no part holds the separator |
| Text.Decimals | Miscellany/bconv.py:11-12 | one digit string per byte, in order |
| Text.ListRoundTrip | Miscellany/bconv.py:14 | ",".join of the byte decimals reads back as the bytes |
| BinConvert.Chunk | Miscellany/bconv.py:8 | f.read(8192): at most 8192 bytes, a prefix of the file |
| BinConvert.Convert | Miscellany/bconv.py:5-20 | the append loop builds the data line and the exec line of the first 8192 bytes |
| BinConvert.DataRoundTrip | Miscellany/bconv.py:14-16 | the data line holds exactly those bytes, in order |
| BinConvert.ExecRoundTrip | Miscellany/bconv.py:19 | the exec line carries the size and the address, whatever its sign |
| BinConvert.ConvertSizes | Miscellany/bconv.py:13-19 | the exec line's size is the number of elements in the data line, at most 8192 |
| RomConvert.Patched | Generate/binaryconv.py:10-13 | the image with byte 0x1C set to 1 (fudge 1) or byte 0x3E set to 56 (fudge 2); every other byte is kept |
| RomConvert.ConvertFile | Generate/binaryconv.py:4-17 | the append loop, the patch and the output text, as RomConvert.ConvertText |
| RomConvert.ConvertFails | Generate/binaryconv.py:10-13 | the patch raises IndexError exactly when the image is too short for it |
| RomConvert.ElementsArePatched | Generate/binaryconv.py:10-13 | the patched element strings are the decimals of the patched image |
| RomConvert.PatchStrings | Generate/binaryconv.py:11-13 | "1" and "56" are the decimal strings of the patch values |
| RomConvert.ConvertRoundTrip | Generate/binaryconv.py:4-17 | the declaration reads back as the image's length and the patched image |

## Left out

- Display, files, logging and the serial port are not modelled. DBG_Draw,
  IF_DisplayScreen and the script's logger draw or print only. fopen/fread and
  open/read become byte-sequence parameters. The serial port is a connector that
  records the characters sent.
- The opcode handlers (cpu1802.h) are not modelled. They become the
  `InstructionSet` parameter. The parameter cannot change Cycles or State, which
  the handlers do not touch either.
- INTERRUPT() lives in macros1802.h, which is not part of this model. It is
  modelled as the CDP1802 interrupt response: T gets (X,P), X is 2, P is 1 and IE
  is cleared, all only when IE is 1.
- The host (SYSTEM_Command in system.c) is not modelled. Its answers to key reads
  (HWC_READKEYBOARD, HWC_SETKEYPAD followed by a read, HWC_READIKEY) are a
  `KeyState` value. It is constant during one CPU_Execute call. The commands sent to
  the host (HWC_UPDATEQ, HWC_FRAMESYNC, HWC_UPDATELED) are returned as a list. The
  real-time pacing of FRAMESYNC is not modelled. The model does not observe that the
  key scan happens after FRAMESYNC.
- The debugger reads the host keyboard through IF_KeyPressed and IF_ShiftPressed.
  Both are a `HostInput` value, constant during one call.
- The three CPU variants are run-time `Variant` values. In the C code the
  IS_COSMACVIP, IS_ELF, IS_STUDIO2 and COSMAC_BOOTS_MONITOR choices are made at
  compile time. The ROM images are parameters of the right sizes.
- PROGMEM and pgm_read_byte_near are not modelled. The Arduino and desktop builds
  read the same bytes.
- The debugger is modelled against the Arduino cpu.c model. The desktop cpu.c is
  not part of this model, and neither are the desktop's main.c loop and the
  debugger screen code.
- Processor.Cpu.Reset deliberately requires ramSize <= 0x8000 and a buffer of at
  least ramSize bytes. For a larger ramSize the WORD16 shift loop reaches 0 and
  never ends. The Studio 2 also needs a buffer of at least 512 bytes, because its
  RAM window is addressed without a bounds check.
- Screen pointers are offsets into the RAM buffer, not host pointers.
- The `scrollOffset *= 1` statement of CPU_GetScreenMemoryAddress changes nothing
  and is not modelled.
- The INT16 counter is an unbounded integer. Between calls Frame.Valid keeps it
  between 0 and 1876, and within a call it never goes below -2, so it never wraps.
- Frame.SteadyFrame: the 29-unit State 2 budget is spent in two-unit
  instructions, and a switch happens only when the counter goes negative. So the
  steady frame is 1906 units long, not the 1876 + 29 the comments suggest. The
  first frame after reset is one call longer than the steady frame.
- Debugger.Debugger.LoadFileToAddress: the C code copies the file name into a
  128-byte array without a bounds check. The model does not overflow it; a longer
  name is kept whole.
- Debugger.Debugger.LoadFileToAddress: each bad-format exit() becomes an Err
  result, and nothing is loaded.
- Debug.ScanHex: a "0x" with no hex digit after it is read as 0, as sscanf reads
  it. C int overflow of a very long hex address is not modelled: the number is
  unbounded, then truncated to 16 bits as the conversion to WORD16 does.
- Debug.Command: the code pointer, data pointer and breakpoint are C ints but
  always hold 16-bit values; they are modelled as words.
- Debug.Command: lower-case hex keys are never scanned, because DBG_Execute only
  scans ' ' to 'Z'. Only upper-case hex digits reach KeyCommand.
- Transmit.SerialFileWriter.Write: Python 2 `ord` of a file character is the byte
  itself, and the model writes bytes.
- Transmit.SerialFileWriter.Write: the failures are results rather than
  exceptions. A bad value raises before the checksum is touched. An unopened
  writer (the AttributeError on self.checksum) fails the same way.
- The SerialConnector's constructor (which opens /dev/ttyUSB0 and sleeps for the
  Arduino reset) is not modelled. `RecordingConnector` stands in for it.
- The converters' file I/O is left to the caller. The module-level calls with
  fixed file names, such as convert("chip8.rom", ...), are not modelled.
