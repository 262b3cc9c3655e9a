/** The command blocks built by `bus/scsi.c`, read back the way section 7.2 of SCSI-2
    (ANSI X3.131-1994) lays them out. */
module Scsi {
  import opened Bits
  import opened Machine

  // ---------- reading a command block ----------

  function Opcode(cdb: seq<int>): int
    requires |cdb| >= 6
  {
    cdb[0]
  }

  /** The logical unit, in the top three bits of the second byte. */
  function Lun(cdb: seq<int>): int
    requires |cdb| >= 6
  {
    cdb[1] / 32
  }

  /** The five bits below it: flags, or the top of a 6-byte command's address. */
  function Flags(cdb: seq<int>): int
    requires |cdb| >= 6
  {
    cdb[1] % 32
  }

  function Control(cdb: seq<int>): int
    requires |cdb| >= 6
  {
    cdb[|cdb| - 1]
  }

  /** The number in the big-endian bytes from `lo` up to `hi`. */
  function Number(cdb: seq<int>, lo: nat, hi: nat): int
    requires lo <= hi <= |cdb|
    decreases hi
  {
    if lo == hi then 0 else 0x100 * Number(cdb, lo, hi - 1) + cdb[hi - 1]
  }

  /** The 21-bit block address of a 6-byte command. */
  function Address6(cdb: seq<int>): int
    requires |cdb| == 6
  {
    0x1_0000 * Flags(cdb) + Number(cdb, 2, 4)
  }

  // ---------- numbers as bytes ----------

  lemma WordBytes(v: Word)
    ensures 0x100 * (v / 0x100) + v % 0x100 == v
  {}

  lemma LongBytes(v: Long)
    ensures 0x100 * (v / 0x100_0000) + v / 0x1_0000 % 0x100 == v / 0x1_0000
    ensures 0x100 * (v / 0x1_0000) + v / 0x100 % 0x100 == v / 0x100
    ensures 0x100 * (v / 0x100) + v % 0x100 == v
    ensures 0x100 * (0x100 * (v / 0x1_0000 % 0x100) + v / 0x100 % 0x100) + v % 0x100 == v % 0x100_0000
  {
    assert v / 0x1_0000 == v / 0x100 / 0x100;
    assert v / 0x100_0000 == v / 0x1_0000 / 0x100;
  }

  lemma LeftFew(v: nat)
    ensures Left(v, 0) == v && Left(v, 1) == 2 * v && Left(v, 2) == 4 * v
    ensures Left(v, 3) == 8 * v && Left(v, 4) == 16 * v && Left(v, 5) == 32 * v
    ensures Power(1) == 2 && Power(2) == 4 && Power(3) == 8 && Power(4) == 16 && Power(5) == 32
  {
    assert Left(v, 1) == 2 * Left(v, 0);
    assert Left(v, 2) == 2 * Left(v, 1);
    assert Left(v, 3) == 2 * Left(v, 2);
    assert Left(v, 4) == 2 * Left(v, 3);
  }

  /** `(lun & 7) << 5`, with bits or-ed in below: the logical unit is not disturbed. */
  method LunByte(lun: Byte, low: nat) returns (b: Byte)
    requires low < 32
    ensures b == 32 * (lun % 8) + low
  {
    LeftFew(lun % 8);
    OrApart(lun % 8, low, 5);
    b := Or(Left(lun % 8, 5), low);
  }

  /** Three single flags or-ed into a byte that is a multiple of 32. */
  method OrFlags(b: Byte, lun: nat, flag4: int, flag3: int, flag0: int) returns (r: Byte)
    requires b == 32 * lun && lun < 8
    ensures r == b + 16 * (flag4 % 2) + 8 * (flag3 % 2) + flag0 % 2
  {
    LeftFew(lun);
    var low := OrFlag(b, lun, 5, 16 * (flag4 % 2));
    LeftFew(2 * lun + flag4 % 2);
    low := OrFlag(low, 2 * lun + flag4 % 2, 4, 8 * (flag3 % 2));
    LeftFew(4 * lun + 2 * (flag4 % 2) + flag3 % 2);
    r := OrFlag(low, 4 * lun + 2 * (flag4 % 2) + flag3 % 2, 3, flag0 % 2);
  }

  /** `|=` of a number below the bits set so far. */
  method OrFlag(b: Byte, high: nat, n: nat, low: nat) returns (r: nat)
    requires 1 <= n <= 5 && low < Power(n)
    requires b == Left(high, n)
    ensures r == b + low
  {
    OrApart(high, low, n);
    r := Or(b, low);
  }

  // ---------- the command structures ----------

  datatype Device = Device(lun: Byte, control: Byte)

  /** `scsi_cmd6_t` */
  class Command6 {
    var operation: Byte
    var lun: Byte
    var block: Word
    var length: Byte
    var control: Byte

    /** The structure in the big-endian memory of the machine. */
    function Bytes(): (cdb: seq<int>)
      reads this
      ensures |cdb| == 6
    {
      Bytes6(operation, lun, block, length, control)
    }

    /** `scsi_initcmd6` */
    method Init(op: Byte, l: Byte, b: Long, len: Byte, ctl: Byte)
      modifies this
      ensures operation == op && lun == 32 * (l % 8) + b / 0x1_0000 % 32
      ensures block == b % 0x1_0000 && length == len && control == ctl
    {
      operation := op;
      lun := LunByte(l, b / 0x1_0000 % 32);
      block := b % 0x1_0000;
      length := len;
      control := ctl;
    }
  }

  function Bytes6(op: Byte, lun: Byte, block: Word, length: Byte, control: Byte): (cdb: seq<int>)
    ensures |cdb| == 6
  {
    [op, lun, block / 0x100, block % 0x100, length, control]
  }

  lemma Decoded6(op: Byte, lun: Byte, block: Word, length: Byte, control: Byte)
    ensures var cdb := Bytes6(op, lun, block, length, control);
            && Opcode(cdb) == op && cdb[1] == lun && Number(cdb, 2, 4) == block
            && cdb[4] == length && Control(cdb) == control
  {
    WordBytes(block);
    var cdb := Bytes6(op, lun, block, length, control);
    assert Number(cdb, 2, 3) == 0x100 * Number(cdb, 2, 2) + cdb[2];
  }

  lemma AddressSplit(b: Long)
    ensures 0x1_0000 * (b / 0x1_0000 % 32) + b % 0x1_0000 == b % 0x20_0000
  {
    var q, r := b / 0x20_0000, b % 0x20_0000;
    assert b / 0x1_0000 == 32 * q + r / 0x1_0000;
  }

  /** Decoding undoes the 6-byte initialiser: the logical unit modulo 8, the address modulo 2^21. */
  lemma Cdb6RoundTrip(op: Byte, l: Byte, b: Long, len: Byte, ctl: Byte)
    ensures var cdb := Bytes6(op, 32 * (l % 8) + b / 0x1_0000 % 32, b % 0x1_0000, len, ctl);
            && Opcode(cdb) == op && Lun(cdb) == l % 8 && Address6(cdb) == b % 0x20_0000
            && cdb[4] == len && Control(cdb) == ctl
  {
    Decoded6(op, 32 * (l % 8) + b / 0x1_0000 % 32, b % 0x1_0000, len, ctl);
    AddressSplit(b);
  }

  /** `scsi_cmd10_t` */
  class Command10 {
    var operation: Byte
    var lun: Byte
    var block: Long
    var reserved: Byte
    var length0: Byte
    var length1: Byte
    var control: Byte

    function Bytes(): (cdb: seq<int>)
      reads this
      ensures |cdb| == 10
    {
      Bytes10(operation, lun, block, reserved, length0, length1, control)
    }

    /** `scsi_initcmd10` */
    method Init(op: Byte, l: Byte, b: Long, len: Word, ctl: Byte)
      modifies this
      ensures operation == op && lun == 32 * (l % 8) && block == b && reserved == 0
      ensures length0 == len / 0x100 && length1 == len % 0x100 && control == ctl
    {
      operation := op;
      lun := LunByte(l, 0);
      block := b;
      reserved := 0;
      length0 := len / 0x100;
      length1 := len % 0x100;
      control := ctl;
    }
  }

  function Bytes10(op: Byte, lun: Byte, block: Long, reserved: Byte, length0: Byte, length1: Byte, control: Byte):
    (cdb: seq<int>)
    ensures |cdb| == 10
  {
    [op, lun, block / 0x100_0000, block / 0x1_0000 % 0x100, block / 0x100 % 0x100, block % 0x100,
     reserved, length0, length1, control]
  }

  /** The fields of a 10-byte command read back, also those that some commands split over
      the end of the address, the reserved byte and the length. */
  lemma Decoded10(op: Byte, lun: Byte, block: Long, reserved: Byte, length: Word, control: Byte)
    ensures var cdb := Bytes10(op, lun, block, reserved, length / 0x100, length % 0x100, control);
            && Opcode(cdb) == op && cdb[1] == lun && Control(cdb) == control
            && Number(cdb, 2, 6) == block && cdb[6] == reserved && Number(cdb, 7, 9) == length
            && cdb[2] == block / 0x100_0000 && Number(cdb, 3, 6) == block % 0x100_0000
            && Number(cdb, 6, 9) == 0x1_0000 * reserved + length
            && Number(cdb, 3, 7) == 0x100 * (block % 0x100_0000) + reserved
  {
    WordBytes(length);
    LongBytes(block);
    var cdb := Bytes10(op, lun, block, reserved, length / 0x100, length % 0x100, control);
    NumberFour(cdb, 2);
    NumberFour(cdb, 3);
    NumberThree(cdb, 3);
    NumberThree(cdb, 6);
    NumberTwo(cdb, 7);
  }

  /** Decoding undoes the 10-byte initialiser. */
  lemma Cdb10RoundTrip(op: Byte, l: Byte, b: Long, len: Word, ctl: Byte)
    ensures var cdb := Bytes10(op, 32 * (l % 8), b, 0, len / 0x100, len % 0x100, ctl);
            && Opcode(cdb) == op && Lun(cdb) == l % 8 && Flags(cdb) == 0
            && Number(cdb, 2, 6) == b && Number(cdb, 7, 9) == len && Control(cdb) == ctl
  {
    Decoded10(op, 32 * (l % 8), b, 0, len, ctl);
  }

  lemma NumberTwo(cdb: seq<int>, lo: nat)
    requires lo + 2 <= |cdb|
    ensures Number(cdb, lo, lo + 2) == 0x100 * cdb[lo] + cdb[lo + 1]
  {
    assert Number(cdb, lo, lo + 1) == 0x100 * Number(cdb, lo, lo) + cdb[lo];
  }

  lemma NumberThree(cdb: seq<int>, lo: nat)
    requires lo + 3 <= |cdb|
    ensures Number(cdb, lo, lo + 3) == 0x100 * (0x100 * cdb[lo] + cdb[lo + 1]) + cdb[lo + 2]
  {
    NumberTwo(cdb, lo);
  }

  lemma NumberFour(cdb: seq<int>, lo: nat)
    requires lo + 4 <= |cdb|
    ensures Number(cdb, lo, lo + 4)
         == 0x100 * (0x100 * (0x100 * cdb[lo] + cdb[lo + 1]) + cdb[lo + 2]) + cdb[lo + 3]
  {
    NumberThree(cdb, lo);
  }

  /** `scsi_cmd12_t` */
  class Command12 {
    var operation: Byte
    var lun: Byte
    var block: Long
    var length: Long
    var reserved: Byte
    var control: Byte

    function Bytes(): (cdb: seq<int>)
      reads this
      ensures |cdb| == 12
    {
      Bytes12(operation, lun, block, length, reserved, control)
    }

    /** `scsi_initcmd12` */
    method Init(op: Byte, l: Byte, b: Long, len: Long, ctl: Byte)
      modifies this
      ensures operation == op && lun == 32 * (l % 8) && block == b
      ensures length == len && reserved == 0 && control == ctl
    {
      operation := op;
      lun := LunByte(l, 0);
      block := b;
      length := len;
      reserved := 0;
      control := ctl;
    }
  }

  function Bytes12(op: Byte, lun: Byte, block: Long, length: Long, reserved: Byte, control: Byte): (cdb: seq<int>)
    ensures |cdb| == 12
  {
    [op, lun, block / 0x100_0000, block / 0x1_0000 % 0x100, block / 0x100 % 0x100, block % 0x100,
     length / 0x100_0000, length / 0x1_0000 % 0x100, length / 0x100 % 0x100, length % 0x100, reserved, control]
  }

  lemma Decoded12(op: Byte, lun: Byte, block: Long, length: Long, reserved: Byte, control: Byte)
    ensures var cdb := Bytes12(op, lun, block, length, reserved, control);
            && Opcode(cdb) == op && cdb[1] == lun && Control(cdb) == control && cdb[10] == reserved
            && Number(cdb, 2, 6) == block && Number(cdb, 6, 10) == length
  {
    LongBytes(block);
    LongBytes(length);
    var cdb := Bytes12(op, lun, block, length, reserved, control);
    NumberFour(cdb, 2);
    NumberFour(cdb, 6);
  }

  /** Decoding undoes the 12-byte initialiser. */
  lemma Cdb12RoundTrip(op: Byte, l: Byte, b: Long, len: Long, ctl: Byte)
    ensures var cdb := Bytes12(op, 32 * (l % 8), b, len, 0, ctl);
            && Opcode(cdb) == op && Lun(cdb) == l % 8 && Flags(cdb) == 0
            && Number(cdb, 2, 6) == b && Number(cdb, 6, 10) == len && Control(cdb) == ctl
  {
    Decoded12(op, 32 * (l % 8), b, len, 0, ctl);
  }

  // ---------- the functions that send them ----------

  /** `scsi_Read6`: the address is cut to 21 bits. */
  method Read6(dev: Device, numblock: Long, length: Byte) returns (c: Command6)
    ensures fresh(c)
    ensures var cdb := c.Bytes();
            && cdb[0] == 0x08 && cdb[1] / 32 == dev.lun % 8 && cdb[5] == dev.control
            && 0x1_0000 * (cdb[1] % 32) + 0x100 * cdb[2] + cdb[3] == numblock % 0x20_0000 && cdb[4] == length
  {
    c := new Command6;
    c.Init(0x08, dev.lun, numblock % 0x20_0000, length, dev.control);
    Cdb6RoundTrip(0x08, dev.lun, numblock % 0x20_0000, length, dev.control);
  }

  lemma PageFields(dbd: nat, pc: nat, page: nat, numblock: Long)
    requires dbd < 2 && pc < 4 && page < 64 && numblock == 0x8_0000 * dbd + 0x4000 * pc + 0x100 * page
    ensures numblock / 0x1_0000 % 32 == 8 * dbd
    ensures numblock % 0x1_0000 / 0x100 == 64 * pc + page && numblock % 0x1_0000 % 0x100 == 0
    ensures (64 * pc + page) / 64 == pc && (64 * pc + page) % 64 == page
  {}

  /** `scsi_ModeSense6`: the flag, the page control and the page code. */
  method ModeSense6(dev: Device, length: Byte, dbd: int, pc: int, pagecode: int) returns (c: Command6)
    ensures fresh(c)
    ensures var cdb := c.Bytes();
            && cdb[0] == 0x1a && cdb[1] / 32 == dev.lun % 8 && cdb[5] == dev.control
            && cdb[1] % 32 == 8 * (dbd % 2) && cdb[2] / 64 == pc % 4 && cdb[2] % 64 == pagecode % 64
            && cdb[3] == 0 && cdb[4] == length
  {
    c := new Command6;
    var numblock := 0x8_0000 * (dbd % 2) + 0x4000 * (pc % 4) + 0x100 * (pagecode % 64);
    c.Init(0x1a, dev.lun, numblock, length, dev.control);
    PageFields(dbd % 2, pc % 4, pagecode % 64, numblock);
    Decoded6(0x1a, c.lun, c.block, length, dev.control);
  }

  lemma DiagnosticFields(flags: nat, high: Byte)
    requires flags < 32
    ensures (0x1_0000 * flags + high) / 0x1_0000 % 32 == flags && (0x1_0000 * flags + high) % 0x1_0000 == high
  {}

  /** `scsi_SendDiagnostic`: four flags, and a length over two bytes. */
  method SendDiagnostic(dev: Device, length: Word, pf: int, selftest: int, devofl: int, unitofl: int)
    returns (c: Command6)
    ensures fresh(c)
    ensures var cdb := c.Bytes();
            && cdb[0] == 0x1d && cdb[1] / 32 == dev.lun % 8 && cdb[5] == dev.control
            && cdb[1] % 32 == 16 * (pf % 2) + 4 * (selftest % 2) + 2 * (devofl % 2) + unitofl % 2
            && cdb[2] == 0 && 0x100 * cdb[3] + cdb[4] == length
  {
    c := new Command6;
    var flags := 16 * (pf % 2) + 4 * (selftest % 2) + 2 * (devofl % 2) + unitofl % 2;
    DiagnosticFields(flags, length / 0x100);
    c.Init(0x1d, dev.lun, 0x1_0000 * flags + length / 0x100, length % 0x100, dev.control);
    NumberTwo(c.Bytes(), 3);
    WordBytes(length);
  }

  /** `scsi_Read10`: no flag disturbs the logical unit. */
  method Read10(dev: Device, numblock: Long, length: Word, dpo: int, fua: int, reladr: int) returns (c: Command10)
    ensures fresh(c)
    ensures var cdb := c.Bytes();
            && cdb[0] == 0x28 && cdb[1] / 32 == dev.lun % 8 && cdb[9] == dev.control
            && cdb[1] % 32 == 16 * (dpo % 2) + 8 * (fua % 2) + reladr % 2
            && 0x100_0000 * cdb[2] + 0x1_0000 * cdb[3] + 0x100 * cdb[4] + cdb[5] == numblock && cdb[6] == 0
            && 0x100 * cdb[7] + cdb[8] == length
  {
    c := new Command10;
    c.Init(0x28, dev.lun, numblock, length, dev.control);
    c.lun := OrFlags(c.lun, dev.lun % 8, dpo, fua, reladr);
    Decoded10(0x28, c.lun, numblock, 0, length, dev.control);
  }

  lemma BufferFields(id: Byte, offset: nat, length: Long)
    requires offset < 0x100_0000
    ensures (0x100_0000 * id + offset) / 0x100_0000 == id && (0x100_0000 * id + offset) % 0x100_0000 == offset
    ensures 0x1_0000 * (length / 0x1_0000 % 0x100) + length % 0x1_0000 == length % 0x100_0000
  {}

  /** `scsi_ReadBuffer`: the buffer's number and offset share the address, and the length
      runs over the reserved byte. */
  method ReadBuffer(dev: Device, length: Long, offset: Long, bufferid: int, mode: int) returns (c: Command10)
    ensures fresh(c)
    ensures var cdb := c.Bytes();
            && cdb[0] == 0x3c && cdb[1] / 32 == dev.lun % 8 && cdb[9] == dev.control
            && cdb[1] % 32 == mode % 8 && cdb[2] == bufferid % 0x100
            && 0x1_0000 * cdb[3] + 0x100 * cdb[4] + cdb[5] == offset % 0x100_0000
            && 0x1_0000 * cdb[6] + 0x100 * cdb[7] + cdb[8] == length % 0x100_0000
  {
    c := new Command10;
    var numblock := 0x100_0000 * (bufferid % 0x100) + offset % 0x100_0000;
    BufferFields(bufferid % 0x100, offset % 0x100_0000, length);
    c.Init(0x3c, dev.lun, numblock, length % 0x1_0000, dev.control);
    c.reserved := length / 0x1_0000 % 0x100;
    LeftFew(dev.lun % 8);
    c.lun := OrFlag(c.lun, dev.lun % 8, 5, mode % 8);
    Decoded10(0x3c, c.lun, numblock, c.reserved, length % 0x1_0000, dev.control);
  }

  /** `scsi_Locate`: the 32-bit address lies one byte lower, its end in the reserved byte. */
  method Locate(dev: Device, numblock: Long, partition: Byte, bt: int, cp: int, immed: int) returns (c: Command10)
    ensures fresh(c)
    ensures var cdb := c.Bytes();
            && cdb[0] == 0x2b && cdb[1] / 32 == dev.lun % 8 && cdb[9] == dev.control
            && cdb[1] % 32 == 4 * (bt % 2) + 2 * (cp % 2) + immed % 2
            && cdb[2] == 0 && 0x100_0000 * cdb[3] + 0x1_0000 * cdb[4] + 0x100 * cdb[5] + cdb[6] == numblock
            && cdb[7] == 0 && cdb[8] == partition
  {
    c := new Command10;
    c.Init(0x2b, dev.lun, numblock / 0x100, partition, dev.control);
    LeftFew(dev.lun % 8);
    c.lun := OrFlag(c.lun, dev.lun % 8, 5, 4 * (bt % 2));
    LeftFew(8 * (dev.lun % 8) + bt % 2);
    c.lun := OrFlag(c.lun, 8 * (dev.lun % 8) + bt % 2, 2, 2 * (cp % 2));
    LeftFew(16 * (dev.lun % 8) + 2 * (bt % 2) + cp % 2);
    c.lun := OrFlag(c.lun, 16 * (dev.lun % 8) + 2 * (bt % 2) + cp % 2, 1, immed % 2);
    c.reserved := numblock % 0x100;
    Decoded10(0x2b, c.lun, numblock / 0x100, c.reserved, partition, dev.control);
  }

  /** `scsi_PlayAudioMsf`: two addresses of three bytes; the end fits when it has three. */
  method PlayAudioMsf(dev: Device, start: Long, end: Long) returns (c: Command10)
    ensures fresh(c)
    ensures var cdb := c.Bytes();
            && cdb[0] == 0x47 && cdb[1] / 32 == dev.lun % 8 && cdb[9] == dev.control
            && cdb[1] % 32 == 0 && cdb[2] == 0
            && 0x1_0000 * cdb[3] + 0x100 * cdb[4] + cdb[5] == start % 0x100_0000
            && 0x1_0000 * cdb[6] + 0x100 * cdb[7] + cdb[8] == end % 0x100_0000
  {
    c := new Command10;
    c.Init(0x47, dev.lun, start % 0x100_0000, end % 0x1_0000, dev.control);
    c.reserved := end / 0x1_0000 % 0x100;
    Decoded10(0x47, c.lun, start % 0x100_0000, c.reserved, end % 0x1_0000, dev.control);
    NumberThree(c.Bytes(), 3);
    NumberThree(c.Bytes(), 6);
    BufferFields(0, start % 0x100_0000, end);
  }

  /** `scsi_Read12` */
  method Read12(dev: Device, numblock: Long, length: Long, dpo: int, fua: int, reladr: int) returns (c: Command12)
    ensures fresh(c)
    ensures var cdb := c.Bytes();
            && cdb[0] == 0xa8 && cdb[1] / 32 == dev.lun % 8 && cdb[11] == dev.control
            && cdb[1] % 32 == 16 * (dpo % 2) + 8 * (fua % 2) + reladr % 2
            && 0x100_0000 * cdb[2] + 0x1_0000 * cdb[3] + 0x100 * cdb[4] + cdb[5] == numblock
            && 0x100_0000 * cdb[6] + 0x1_0000 * cdb[7] + 0x100 * cdb[8] + cdb[9] == length && cdb[10] == 0
  {
    c := new Command12;
    c.Init(0xa8, dev.lun, numblock, length, dev.control);
    c.lun := OrFlags(c.lun, dev.lun % 8, dpo, fua, reladr);
    Decoded12(0xa8, c.lun, numblock, length, 0, dev.control);
  }
}
