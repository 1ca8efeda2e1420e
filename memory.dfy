/**
 * The three memory maps of the emulator (cpu.c, CPU_ReadMemory and
 * CPU_WriteMemory), chosen at run time by a Variant instead of at compile
 * time.  RAM is the caller's buffer, seen here as a sequence of bytes; the
 * monitor ROM (VIP) and the game ROM (Studio 2) are opaque images.
 */
module Memory {
  import opened Bits
  import opened Wrappers

  datatype Variant = Vip | Elf | Studio2

  const MonitorBase := 0x8000
  const MonitorSize := 512
  const Studio2RomSize := 0x800
  const Studio2RamBase := 0x800
  const Studio2RamEnd := 0xA00
  /** The largest RAM size for which the mask loop of CPU_Reset ends in WORD16 arithmetic. */
  const MaxRamSize := 0x8000

  /** The binding made by CPU_Reset: variant, ROM image, RAM size and the derived address mask. */
  datatype MemoryMap = MemoryMap(variant: Variant, rom: seq<byte>, size: word, mask: word)

  /** mask + 1 is the smallest power of two that is at least size. */
  ghost predicate IsRamMask(size: nat, mask: nat)
  {
    IsPow2(mask + 1) && size <= mask + 1 && (mask == 0 || (mask + 1) / 2 < size)
  }

  /** What the memory functions rely on: the mask is the one CPU_Reset computes, the
      buffer holds ramSize bytes (and the 512-byte Studio 2 window), the ROM images
      have their fixed sizes. */
  ghost predicate Valid(m: MemoryMap, ram: seq<byte>)
  {
    && m.size <= MaxRamSize
    && IsRamMask(m.size, m.mask)
    && m.size <= |ram|
    && (m.variant == Studio2 ==> |ram| >= Studio2RamEnd - Studio2RamBase)
    && (m.variant == Vip ==> |m.rom| == MonitorSize)
    && (m.variant == Studio2 ==> |m.rom| == Studio2RomSize)
  }

  /** WORD16 subtraction of the monitor base (address -= 0x8000 in the VIP read). */
  function MonitorOffset(a: word): word
  {
    (a - MonitorBase) % 0x1_0000
  }

  /** Studio 2 decodes only the low twelve address bits (address & 0xFFF). */
  function Studio2Address(a: word): nat
  {
    a % 0x1000
  }

  function Read(m: MemoryMap, ram: seq<byte>, a: word): byte
    requires Valid(m, ram)
  {
    match m.variant
    case Vip =>
      if a < m.size then ram[a]
      else if MonitorOffset(a) < MonitorSize then m.rom[MonitorOffset(a)]
      else 0
    case Elf =>
      var b := And(a, m.mask);
      if b < m.size then ram[b] else 0
    case Studio2 =>
      var b := Studio2Address(a);
      if b < Studio2RamBase then m.rom[b]
      else if Studio2RamBase <= b < Studio2RamEnd then ram[b - Studio2RamBase]
      else 0xFF
  }

  function Write(m: MemoryMap, ram: seq<byte>, a: word, v: byte): (r: seq<byte>)
    requires Valid(m, ram)
    ensures |r| == |ram|
  {
    match m.variant
    case Vip =>
      if a < m.size then ram[a := v] else ram
    case Elf =>
      var b := And(a, m.mask);
      if b < m.size then ram[b := v] else ram
    case Studio2 =>
      var b := Studio2Address(a);
      if Studio2RamBase <= b < Studio2RamEnd then ram[b - Studio2RamBase := v] else ram
  }

  /** The RAM index an address reaches, if any; two addresses with the same cell alias. */
  function Cell(m: MemoryMap, a: word): (c: Option<nat>)
  {
    match m.variant
    case Vip => if a < m.size then Some(a) else None
    case Elf => if And(a, m.mask) < m.size then Some(And(a, m.mask)) else None
    case Studio2 =>
      var b := Studio2Address(a);
      if Studio2RamBase <= b < Studio2RamEnd then Some(b - Studio2RamBase) else None
  }

  /** Every variant: a write reaches exactly the cell of its address; a write to an address
      with no RAM cell changes nothing; reading back a written address gives the value. */
  lemma WriteReadBack(m: MemoryMap, ram: seq<byte>, a: word, v: byte, b: word)
    requires Valid(m, ram)
    ensures Cell(m, a).None? ==> Write(m, ram, a, v) == ram
    ensures Cell(m, a).Some? && Cell(m, b) == Cell(m, a) ==> Read(m, Write(m, ram, a, v), b) == v
    ensures Cell(m, b) != Cell(m, a) ==> Read(m, Write(m, ram, a, v), b) == Read(m, ram, b)
  {
  }

  /** A write updates exactly the RAM cell of its address, and a read returns that cell. */
  lemma CellAccess(m: MemoryMap, ram: seq<byte>, a: word, v: byte)
    requires Valid(m, ram)
    ensures Cell(m, a).None? ==> Write(m, ram, a, v) == ram
    ensures Cell(m, a).Some? ==> Cell(m, a).value < |ram| && Write(m, ram, a, v) == ram[Cell(m, a).value := v]
    ensures Cell(m, a).Some? ==> Read(m, ram, a) == ram[Cell(m, a).value]
  {
  }

  // ---- VIP -------------------------------------------------------------------------

  /** VIP: an address below ramSize is RAM; write then read gives the value back. */
  lemma VipRamRoundTrip(m: MemoryMap, ram: seq<byte>, a: word, v: byte)
    requires Valid(m, ram) && m.variant == Vip && a < m.size
    ensures Read(m, Write(m, ram, a, v), a) == v
    ensures forall b: word :: b != a ==> Read(m, Write(m, ram, a, v), b) == Read(m, ram, b)
  {
  }

  /** VIP: 0x8000-0x81FF read the 512-byte monitor image; writes there change nothing. */
  lemma VipMonitorWindow(m: MemoryMap, ram: seq<byte>, a: word, v: byte)
    requires Valid(m, ram) && m.variant == Vip
    requires MonitorBase <= a < MonitorBase + MonitorSize
    ensures Read(m, ram, a) == m.rom[a - MonitorBase]
    ensures Write(m, ram, a, v) == ram
  {
  }

  /** VIP: every other address reads 0 and ignores writes (also below 0x8000, where the
      WORD16 subtraction wraps to a large offset). */
  lemma VipUnmapped(m: MemoryMap, ram: seq<byte>, a: word, v: byte)
    requires Valid(m, ram) && m.variant == Vip
    requires a >= m.size && !(MonitorBase <= a < MonitorBase + MonitorSize)
    ensures Read(m, ram, a) == 0
    ensures Write(m, ram, a, v) == ram
  {
  }

  // ---- ELF -------------------------------------------------------------------------

  /** ELF: the mask is applied before the bounds check, so a and a & ramMask are the same
      location for reads and for writes. */
  lemma ElfMirror(m: MemoryMap, ram: seq<byte>, a: word, v: byte)
    requires Valid(m, ram) && m.variant == Elf
    ensures And(a, m.mask) < 0x1_0000
    ensures Read(m, ram, a) == Read(m, ram, And(a, m.mask))
    ensures Write(m, ram, a, v) == Write(m, ram, And(a, m.mask), v)
  {
    AndIdempotent(a, m.mask);
  }

  /** ELF: a masked address at or above ramSize reads 0 and ignores writes. */
  lemma ElfOutsideRam(m: MemoryMap, ram: seq<byte>, a: word, v: byte)
    requires Valid(m, ram) && m.variant == Elf && And(a, m.mask) >= m.size
    ensures Read(m, ram, a) == 0
    ensures Write(m, ram, a, v) == ram
  {
  }

  /** ELF: below ramSize the mask is the identity, so RAM round-trips as on the VIP. */
  lemma ElfRamRoundTrip(m: MemoryMap, ram: seq<byte>, a: word, v: byte)
    requires Valid(m, ram) && m.variant == Elf && a < m.size
    ensures And(a, m.mask) == a
    ensures Read(m, Write(m, ram, a, v), a) == v
  {
    AndBelowPow2(a, m.mask + 1);
  }

  // ---- Studio 2 --------------------------------------------------------------------

  /** Studio 2: below 0x800 (of address & 0xFFF) is read-only ROM. */
  lemma Studio2Rom(m: MemoryMap, ram: seq<byte>, a: word, v: byte)
    requires Valid(m, ram) && m.variant == Studio2 && a % 0x1000 < Studio2RamBase
    ensures Read(m, ram, a) == m.rom[a % 0x1000]
    ensures Write(m, ram, a, v) == ram
  {
  }

  /** Studio 2: 0x800-0x9FF is RAM at offset a - 0x800, round-tripping writes. */
  lemma Studio2Ram(m: MemoryMap, ram: seq<byte>, a: word, v: byte)
    requires Valid(m, ram) && m.variant == Studio2
    requires Studio2RamBase <= a % 0x1000 < Studio2RamEnd
    ensures Read(m, ram, a) == ram[a % 0x1000 - Studio2RamBase]
    ensures Write(m, ram, a, v) == ram[a % 0x1000 - Studio2RamBase := v]
    ensures Read(m, Write(m, ram, a, v), a) == v
  {
  }

  /** Studio 2: the rest of the 4K window reads 0xFF and ignores writes. */
  lemma Studio2Unmapped(m: MemoryMap, ram: seq<byte>, a: word, v: byte)
    requires Valid(m, ram) && m.variant == Studio2 && a % 0x1000 >= Studio2RamEnd
    ensures Read(m, ram, a) == 0xFF
    ensures Write(m, ram, a, v) == ram
  {
  }

  // ---- The RAM mask ----------------------------------------------------------------

  /** Of two powers of two, the smaller is at most half the larger. */
  lemma {:induction false} Pow2Halving(p: nat, q: nat)
    requires IsPow2(p) && IsPow2(q) && p < q
    ensures 2 * p <= q
  {
    if p > 1 {
      Pow2Halving(p / 2, q / 2);
    }
  }

  /** ramMask + 1 is the smallest power of two that covers ramSize. */
  lemma RamMaskSmallest(size: nat, mask: nat, p: nat)
    requires IsRamMask(size, mask) && IsPow2(p) && p >= size
    ensures p >= mask + 1
  {
    if p < mask + 1 {
      Pow2Halving(p, mask + 1);
    }
  }

  /** Only one mask satisfies IsRamMask for a given size. */
  lemma RamMaskUnique(size: nat, m1: nat, m2: nat)
    requires IsRamMask(size, m1) && IsRamMask(size, m2)
    ensures m1 == m2
  {
    RamMaskSmallest(size, m1, m2 + 1);
    RamMaskSmallest(size, m2, m1 + 1);
  }
}
