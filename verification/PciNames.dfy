/** The six scanners over a loaded `pci.ids` buffer, which they only read. */
module PciNames {
  import opened PciIdsScan
  import opened PciIdsText

  // ---------- the buffer holds a file ----------

  ghost predicate Holds(buffer: array<char>, length: int, lines: seq<Line>)
    reads buffer
  {
    0 <= length <= buffer.Length && buffer[..length] == Text(lines) && AllWellFormed(lines)
  }

  lemma LineChars(buffer: array<char>, length: int, lines: seq<Line>, k: nat)
    requires Holds(buffer, length, lines) && k < |lines|
    ensures Offset(lines, k) + |LineText(lines[k])| == Offset(lines, k + 1) <= length
    ensures forall m | 0 <= m < |LineText(lines[k])| ::
              LineText(lines[k])[m] == buffer[Offset(lines, k) + m]
  {
    LineAt(lines, k);
    forall m | 0 <= m < |LineText(lines[k])|
      ensures LineText(lines[k])[m] == buffer[Offset(lines, k) + m]
    {
      assert buffer[..length][Offset(lines, k) + m] == buffer[Offset(lines, k) + m];
    }
  }

  /** A line of the buffer ends in its only newline. */
  lemma LineEnd(buffer: array<char>, length: int, lines: seq<Line>, k: nat)
    requires Holds(buffer, length, lines) && k < |lines|
    ensures Offset(lines, k) < Offset(lines, k + 1) <= length
    ensures buffer[Offset(lines, k + 1) - 1] == '\n'
    ensures forall p | Offset(lines, k) <= p < Offset(lines, k + 1) - 1 :: buffer[p] != '\n'
  {
    LineChars(buffer, length, lines, k);
    LineEnds(lines[k]);
    var t := LineText(lines[k]);
    assert buffer[Offset(lines, k) + (|t| - 1)] == t[|t| - 1];
    forall p | Offset(lines, k) <= p < Offset(lines, k + 1) - 1 ensures buffer[p] != '\n' {
      assert t[p - Offset(lines, k)] == buffer[Offset(lines, k) + (p - Offset(lines, k))];
    }
  }

  /** Reading stops at the end of the buffer exactly when no line is left. */
  lemma AtEnd(buffer: array<char>, length: int, lines: seq<Line>, k: nat)
    requires Holds(buffer, length, lines) && k <= |lines|
    ensures Offset(lines, k) <= length
    ensures Offset(lines, k) == length <==> k == |lines|
  {
    TextLength(lines);
    if k < |lines| {
      LineEnd(buffer, length, lines, k);
    }
  }

  /** What the first two characters of a line say about it. */
  lemma LineKind(buffer: array<char>, length: int, lines: seq<Line>, k: nat)
    requires Holds(buffer, length, lines) && k < |lines|
    ensures Offset(lines, k) < Offset(lines, k + 1) <= length
    ensures lines[k].Blank? ==> Offset(lines, k) + 1 == Offset(lines, k + 1)
    ensures var c := buffer[Offset(lines, k)];
            match lines[k]
            case Blank => c == '\n'
            case Comment(_) => c == '#'
            case Entry(rank, _, _, _, _) =>
              && Offset(lines, k) + 1 < length
              && var d := buffer[Offset(lines, k) + 1];
                 match rank
                 case Vendor => IsHexDigit(c) && d != ' '
                 case Device | Subclass => c == '\t' && d != '\t'
                 case Subdevice | ProgIf => c == '\t' && d == '\t'
                 case Class => c == 'C' && d == ' '
  {
    LineChars(buffer, length, lines, k);
    var t := LineText(lines[k]);
    assert t[0] == buffer[Offset(lines, k) + 0];
    if lines[k].Entry? {
      EntryParts(lines[k]);
      var id, p := lines[k].id, |Prefix(lines[k].rank)|;
      assert t[1] == buffer[Offset(lines, k) + 1];
      assert id[0] == t[p..p + |id|][0] && id[1] == t[p..p + |id|][1];
      assert p > 0 ==> t[..p][0] == t[0];
      assert p > 1 ==> t[..p][1] == t[1];
      if lines[k].rank.Subdevice? {
        assert id[..4][0] == id[0];
      }
    }
  }

  /** A part of a text is where the text is. */
  lemma PartChars(buffer: array<char>, o: nat, t: string, p: nat, n: nat)
    requires o + |t| <= buffer.Length && p + n <= |t|
    requires forall m | 0 <= m < |t| :: t[m] == buffer[o + m]
    ensures buffer[o + p..o + p + n] == t[p..p + n]
  {
    var a, b := buffer[o + p..o + p + n], t[p..p + n];
    forall i | 0 <= i < n ensures a[i] == b[i] {
      assert b[i] == t[p + i] == buffer[o + (p + i)];
    }
  }

  /** Where the identifier of an entry is. */
  lemma IdChars(buffer: array<char>, length: int, lines: seq<Line>, k: nat)
    requires Holds(buffer, length, lines) && k < |lines| && lines[k].Entry?
    ensures var at := Offset(lines, k) + |Prefix(lines[k].rank)|; var n := |lines[k].id|;
            at + n <= NameOffset(lines, k) < length && buffer[at..at + n] == lines[k].id
  {
    LineChars(buffer, length, lines, k);
    EntryParts(lines[k]);
    PartChars(buffer, Offset(lines, k), LineText(lines[k]), |Prefix(lines[k].rank)|, |lines[k].id|);
  }

  /** Only spaces separate the identifier of an entry from its name. */
  lemma GapChars(buffer: array<char>, length: int, lines: seq<Line>, k: nat)
    requires Holds(buffer, length, lines) && k < |lines| && lines[k].Entry?
    ensures var after := Offset(lines, k) + |Prefix(lines[k].rank)| + |lines[k].id|;
            && after <= NameOffset(lines, k) < Offset(lines, k + 1) <= length
            && (forall p | after <= p < NameOffset(lines, k) :: buffer[p] == ' ')
            && buffer[NameOffset(lines, k)] != ' '
  {
    LineChars(buffer, length, lines, k);
    EntryParts(lines[k]);
    SpacesThere(buffer, Offset(lines, k), LineText(lines[k]), NameColumn(lines[k]), lines[k].gap);
  }

  lemma SpacesThere(buffer: array<char>, o: nat, t: string, c: nat, gap: nat)
    requires o + |t| <= buffer.Length && gap <= c < |t|
    requires forall m | 0 <= m < |t| :: t[m] == buffer[o + m]
    requires forall m | c - gap <= m < c :: t[m] == ' '
    requires t[c] != ' '
    ensures forall p | o + (c - gap) <= p < o + c :: buffer[p] == ' '
    ensures buffer[o + c] != ' '
  {
    forall p | o + (c - gap) <= p < o + c ensures buffer[p] == ' ' {
      assert t[p - o] == buffer[o + (p - o)];
    }
    assert t[c] == buffer[o + c];
  }

  // ---------- the steps all scanners share ----------

  /** Goes from inside line `k` to the start of the next. */
  method SkipLine(buffer: array<char>, length: int, position: nat, ghost lines: seq<Line>, ghost k: nat)
    returns (next: nat)
    requires Holds(buffer, length, lines) && k < |lines|
    requires Offset(lines, k) <= position < Offset(lines, k + 1)
    ensures next == Offset(lines, k + 1)
  {
    LineEnd(buffer, length, lines, k);
    next := PassNewline(buffer, position, Offset(lines, k + 1));
  }

  /** Goes behind the next newline. */
  method PassNewline(buffer: array<char>, position: nat, ghost end: nat) returns (next: nat)
    requires position < end <= buffer.Length && buffer[end - 1] == '\n'
    requires forall p | position <= p < end - 1 :: buffer[p] != '\n'
    ensures next == end
  {
    next := position;
    while buffer[next] != '\n'
      invariant position <= next < end
      decreases end - next
    {
      next := next + 1;
    }
    next := next + 1;
  }

  /** Goes from behind the identifier of entry `k` to its name. */
  method SkipSpaces(buffer: array<char>, length: int, position: nat, ghost lines: seq<Line>, ghost k: nat)
    returns (next: nat)
    requires Holds(buffer, length, lines) && k < |lines| && lines[k].Entry?
    requires position == Offset(lines, k) + |Prefix(lines[k].rank)| + |lines[k].id|
    ensures next == NameOffset(lines, k)
    ensures Offset(lines, k) <= next < Offset(lines, k + 1)
  {
    GapChars(buffer, length, lines, k);
    ghost var name := NameOffset(lines, k);
    next := position;
    while buffer[next] == ' '
      invariant position <= next <= name < length
      decreases name - next
    {
      next := next + 1;
    }
  }

  lemma DigitInWord(h: int)
    requires 0 <= h < 16
    ensures (h as bv16) < 16 && (h as bv16) as int == h
  {}

  lemma NibblesInWord(a: bv16, b: bv16, c: bv16, d: bv16)
    requires a < 16 && b < 16 && c < 16 && d < 16
    ensures ((a << 12) | (b << 8) | (c << 4) | d) as int
         == ((a as int * 16 + b as int) * 16 + c as int) * 16 + d as int
  {}

  lemma NibblesInByte(a: bv16, b: bv16)
    requires a < 16 && b < 16
    ensures ((a << 4) | b) as int == a as int * 16 + b as int
  {}

  method ReadId4(buffer: array<char>, position: nat) returns (id: nat, next: nat)
    requires position + 4 <= buffer.Length && IsHex(buffer[position..position + 4])
    ensures id == HexValue(buffer[position..position + 4]) < 0x1_0000 && next == position + 4
  {
    ghost var s := buffer[position..position + 4];
    HexOf4(s);
    next := position;
    var a, b, c, d;
    a, next := ReadDigit(buffer, next);
    b, next := ReadDigit(buffer, next);
    c, next := ReadDigit(buffer, next);
    d, next := ReadDigit(buffer, next);
    NibblesInWord(a, b, c, d);
    id := ((a << 12) | (b << 8) | (c << 4) | d) as int;
  }

  method ReadId2(buffer: array<char>, position: nat) returns (id: nat, next: nat)
    requires position + 2 <= buffer.Length && IsHex(buffer[position..position + 2])
    ensures id == HexValue(buffer[position..position + 2]) < 0x100 && next == position + 2
  {
    ghost var s := buffer[position..position + 2];
    HexOf2(s);
    next := position;
    var a, b;
    a, next := ReadDigit(buffer, next);
    b, next := ReadDigit(buffer, next);
    NibblesInByte(a, b);
    id := ((a << 4) | b) as int;
  }

  method ReadDigit(buffer: array<char>, position: nat) returns (digit: bv16, next: nat)
    requires position < buffer.Length && IsHexDigit(buffer[position])
    ensures digit < 16 && digit as int == Htoi(buffer[position]) && next == position + 1
  {
    DigitInWord(Htoi(buffer[position]));
    digit, next := Htoi(buffer[position]) as bv16, position + 1;
  }

  /** Reads the four digits of the entry of line `k`. */
  method ReadKey4(buffer: array<char>, length: int, position: nat, ghost lines: seq<Line>, ghost k: nat)
    returns (id: nat, next: nat)
    requires Holds(buffer, length, lines) && k < |lines|
    requires lines[k].Entry? && (lines[k].rank.Vendor? || lines[k].rank.Device?)
    requires position == Offset(lines, k) + |Prefix(lines[k].rank)|
    ensures id == lines[k].key && next == position + |lines[k].id|
  {
    IdChars(buffer, length, lines, k);
    assert WellFormed(lines[k]);
    id, next := ReadId4(buffer, position);
  }

  // ---------- vendor, device, subdevice ----------

  // Each `...Line` method is the body of its scanner's loop, on one line of the buffer.

  /** A line as the vendor scanner sees it. */
  method VendorLine(buffer: array<char>, length: int, start: nat, vendorid: nat, ghost lines: seq<Line>, ghost k: nat)
    returns (step: Step, position: nat)
    requires Holds(buffer, length, lines) && k < |lines| && start == Offset(lines, k)
    ensures step == Outcome(Vendor, lines[k], vendorid)
    ensures step.Skip? ==> position == Offset(lines, k + 1)
    ensures step.Found? ==> position == NameOffset(lines, k)
  {
    LineKind(buffer, length, lines, k);
    position := start;
    if buffer[position] == '\n' {
      return Skip, position + 1;
    }
    if buffer[position] == '#' {
      position := SkipLine(buffer, length, position, lines, k);
      return Skip, position;
    }
    if buffer[position] == 'C' && buffer[position + 1] == ' ' {
      return Stop, position;
    }
    if buffer[position] == '\t' {
      position := SkipLine(buffer, length, position, lines, k);
      return Skip, position;
    }
    var id;
    id, position := ReadKey4(buffer, length, position, lines, k);
    if id > vendorid {
      return Stop, position;
    }
    position := SkipSpaces(buffer, length, position, lines, k);
    if id == vendorid {
      return Found, position;
    }
    position := SkipLine(buffer, length, position, lines, k);
    return Skip, position;
  }

  method SearchVendor(buffer: array<char>, length: int, vendorid: nat, ghost lines: seq<Line>)
    returns (r: int)
    requires Holds(buffer, length, lines)
    ensures r == Position(lines, Hit(Vendor, lines, 0, vendorid))
  {
    ghost var hit := Hit(Vendor, lines, 0, vendorid);
    TopReadable(Vendor, lines, 0);
    var position := 0;
    ghost var k := 0;
    while position < length
      invariant k <= |lines| && position == Offset(lines, k)
      invariant Readable(Vendor, lines, k)
      invariant Hit(Vendor, lines, k, vendorid) == hit
      decreases |lines| - k
    {
      AtEnd(buffer, length, lines, k);
      NotMisread(Vendor, lines, k);
      var step;
      step, position := VendorLine(buffer, length, position, vendorid, lines, k);
      StepTaken(Vendor, lines, k, vendorid, hit, step);
      if step.Stop? {
        return -1;
      }
      if step.Found? {
        return position;
      }
      k := k + 1;
    }
    AtEnd(buffer, length, lines, k);
    return -1;
  }

  /** A line as the device scanner sees it. */
  method DeviceLine(buffer: array<char>, length: int, start: nat, deviceid: nat, ghost lines: seq<Line>, ghost k: nat)
    returns (step: Step, position: nat)
    requires Holds(buffer, length, lines) && k < |lines| && start == Offset(lines, k)
    requires !Judge(Device, lines[k]).Misread?
    ensures step == Outcome(Device, lines[k], deviceid)
    ensures step.Skip? ==> position == Offset(lines, k + 1)
    ensures step.Found? ==> position == NameOffset(lines, k)
  {
    LineKind(buffer, length, lines, k);
    position := start;
    if buffer[position] == '\n' {
      return Skip, position + 1;
    }
    if buffer[position] == '#' {
      position := SkipLine(buffer, length, position, lines, k);
      return Skip, position;
    }
    if buffer[position] == 'C' && buffer[position + 1] == ' ' {
      return Stop, position;
    }
    if buffer[position] != '\t' {
      return Stop, position;
    }
    if buffer[position + 1] == '\t' {
      position := SkipLine(buffer, length, position, lines, k);
      return Skip, position;
    }
    position := position + 1;
    var id;
    id, position := ReadKey4(buffer, length, position, lines, k);
    if id > deviceid {
      return Stop, position;
    }
    position := SkipSpaces(buffer, length, position, lines, k);
    if id == deviceid {
      return Found, position;
    }
    position := SkipLine(buffer, length, position, lines, k);
    return Skip, position;
  }

  /** The loop over the devices, from the start of a line on. */
  method ScanDevices(buffer: array<char>, length: int, start: nat, deviceid: nat, ghost lines: seq<Line>,
                     ghost from: nat)
    returns (r: int)
    requires Holds(buffer, length, lines) && from <= |lines| && start == Offset(lines, from)
    requires Readable(Device, lines, from)
    ensures r == Position(lines, Hit(Device, lines, from, deviceid))
  {
    ghost var hit := Hit(Device, lines, from, deviceid);
    var position := start;
    ghost var k := from;
    while position < length
      invariant k <= |lines| && position == Offset(lines, k)
      invariant Readable(Device, lines, k)
      invariant Hit(Device, lines, k, deviceid) == hit
      decreases |lines| - k
    {
      AtEnd(buffer, length, lines, k);
      NotMisread(Device, lines, k);
      var step;
      step, position := DeviceLine(buffer, length, position, deviceid, lines, k);
      StepTaken(Device, lines, k, deviceid, hit, step);
      if step.Stop? {
        return -1;
      }
      if step.Found? {
        return position;
      }
      k := k + 1;
    }
    AtEnd(buffer, length, lines, k);
    return -1;
  }

  method SearchDevice(buffer: array<char>, length: int, start: nat, deviceid: nat,
                         ghost lines: seq<Line>, ghost at: nat)
    returns (r: int)
    requires Holds(buffer, length, lines) && at < |lines|
    requires Offset(lines, at) <= start < Offset(lines, at + 1)
    requires Readable(Device, lines, at + 1)
    ensures r == Position(lines, Hit(Device, lines, at + 1, deviceid))
  {
    var position := SkipLine(buffer, length, start, lines, at);
    r := ScanDevices(buffer, length, position, deviceid, lines, at + 1);
  }

  /** Reads the subvendor digits of the entry of line `k`. */
  method ReadSubvendor(buffer: array<char>, length: int, position: nat, ghost lines: seq<Line>, ghost k: nat)
    returns (id: nat, next: nat)
    requires Holds(buffer, length, lines) && k < |lines|
    requires lines[k].Entry? && lines[k].rank.Subdevice?
    requires position == Offset(lines, k) + 2
    ensures id == SubvendorOf(lines[k]) && next == position + 4
    ensures Offset(lines, k) <= next < Offset(lines, k + 1)
  {
    SubIdChars(buffer, length, lines, k, position);
    id, next := ReadId4(buffer, position);
  }

  /** Reads the subdevice digits of the entry of line `k`, behind the separator. */
  method ReadSubdevice(buffer: array<char>, length: int, position: nat, ghost lines: seq<Line>, ghost k: nat)
    returns (id: nat, next: nat)
    requires Holds(buffer, length, lines) && k < |lines|
    requires lines[k].Entry? && lines[k].rank.Subdevice?
    requires position == Offset(lines, k) + 7
    ensures id == SubdeviceOf(lines[k]) && next == Offset(lines, k) + 2 + |lines[k].id|
  {
    SubIdChars(buffer, length, lines, k, position - 5);
    id, next := ReadId4(buffer, position);
  }

  /** Where the two halves of a subdevice's identifier are. */
  lemma SubIdChars(buffer: array<char>, length: int, lines: seq<Line>, k: nat, at: nat)
    requires Holds(buffer, length, lines) && k < |lines|
    requires lines[k].Entry? && lines[k].rank.Subdevice? && at == Offset(lines, k) + 2
    ensures WellFormed(lines[k]) && |lines[k].id| == 9
    ensures at + 9 < Offset(lines, k + 1) <= length
    ensures IsHex(buffer[at..at + 4]) && HexValue(buffer[at..at + 4]) == SubvendorOf(lines[k])
    ensures IsHex(buffer[at + 5..at + 9]) && HexValue(buffer[at + 5..at + 9]) == SubdeviceOf(lines[k])
  {
    IdChars(buffer, length, lines, k);
    GapChars(buffer, length, lines, k);
    assert WellFormed(lines[k]);
    HalvesThere(buffer, at, lines[k].id);
  }

  lemma HalvesThere(buffer: array<char>, at: nat, id: string)
    requires at + 9 <= buffer.Length && |id| == 9 && buffer[at..at + 9] == id
    ensures buffer[at..at + 4] == id[..4] && buffer[at + 5..at + 9] == id[5..]
  {
    var whole := buffer[at..at + 9];
    assert buffer[at..at + 4] == whole[..4] && buffer[at + 5..at + 9] == whole[5..];
  }

  function SubvendorOf(line: Line): nat
    requires WellFormed(line) && line.Entry? && line.rank.Subdevice?
  {
    HexValue(line.id[..4])
  }

  function SubdeviceOf(line: Line): nat
    requires WellFormed(line) && line.Entry? && line.rank.Subdevice?
  {
    HexValue(line.id[5..])
  }

  /** The key of a subdevice orders by subvendor first, then subdevice. */
  lemma SubKeyOrder(line: Line, subvendor: nat, subdevice: nat)
    requires WellFormed(line) && line.Entry? && line.rank.Subdevice? && subdevice < 0x1_0000
    ensures var q := SubKey(subvendor, subdevice);
            && (SubvendorOf(line) > subvendor ==> line.key > q)
            && (SubvendorOf(line) < subvendor ==> line.key < q)
            && (SubvendorOf(line) == subvendor ==>
                  && (SubdeviceOf(line) > subdevice <==> line.key > q)
                  && (SubdeviceOf(line) == subdevice <==> line.key == q))
  {
    HexOf4(line.id[..4]);
    HexOf4(line.id[5..]);
  }

  /** A line as the subdevice scanner sees it. */
  method SubdeviceLine(buffer: array<char>, length: int, start: nat, subvendorid: nat, subdeviceid: nat,
                       ghost lines: seq<Line>, ghost k: nat)
    returns (step: Step, position: nat)
    requires Holds(buffer, length, lines) && k < |lines| && start == Offset(lines, k)
    requires !Judge(Subdevice, lines[k]).Misread?
    requires subdeviceid < 0x1_0000
    ensures step == Outcome(Subdevice, lines[k], SubKey(subvendorid, subdeviceid))
    ensures step.Skip? ==> position == Offset(lines, k + 1)
    ensures step.Found? ==> position == NameOffset(lines, k)
  {
    LineKind(buffer, length, lines, k);
    position := start;
    if buffer[position] == '\n' {
      return Skip, position + 1;
    }
    if buffer[position] == '#' {
      position := SkipLine(buffer, length, position, lines, k);
      return Skip, position;
    }
    if buffer[position] == 'C' && buffer[position + 1] == ' ' {
      return Stop, position;
    }
    if buffer[position] != '\t' {
      return Stop, position;
    }
    if buffer[position] == '\t' && buffer[position + 1] != '\t' {
      return Stop, position;
    }
    SubKeyOrder(lines[k], subvendorid, subdeviceid);
    position := position + 2;
    var subvendor, subdevice;
    subvendor, position := ReadSubvendor(buffer, length, position, lines, k);
    if subvendor > subvendorid {
      return Stop, position;
    }
    if subvendor != subvendorid {
      position := SkipLine(buffer, length, position, lines, k);
      return Skip, position;
    }
    position := position + 1;
    subdevice, position := ReadSubdevice(buffer, length, position, lines, k);
    if subdevice > subdeviceid {
      return Stop, position;
    }
    position := SkipSpaces(buffer, length, position, lines, k);
    if subdevice == subdeviceid {
      return Found, position;
    }
    position := SkipLine(buffer, length, position, lines, k);
    return Skip, position;
  }

  /** The loop over the subdevices, from the start of a line on. */
  method ScanSubdevices(buffer: array<char>, length: int, start: nat, subvendorid: nat, subdeviceid: nat,
                        ghost lines: seq<Line>, ghost from: nat)
    returns (r: int)
    requires Holds(buffer, length, lines) && from <= |lines| && start == Offset(lines, from)
    requires Readable(Subdevice, lines, from) && subdeviceid < 0x1_0000
    ensures r == Position(lines, Hit(Subdevice, lines, from, SubKey(subvendorid, subdeviceid)))
  {
    ghost var hit := Hit(Subdevice, lines, from, SubKey(subvendorid, subdeviceid));
    var position := start;
    ghost var k := from;
    while position < length
      invariant k <= |lines| && position == Offset(lines, k)
      invariant Readable(Subdevice, lines, k)
      invariant Hit(Subdevice, lines, k, SubKey(subvendorid, subdeviceid)) == hit
      decreases |lines| - k
    {
      AtEnd(buffer, length, lines, k);
      NotMisread(Subdevice, lines, k);
      var step;
      step, position := SubdeviceLine(buffer, length, position, subvendorid, subdeviceid, lines, k);
      StepTaken(Subdevice, lines, k, SubKey(subvendorid, subdeviceid), hit, step);
      if step.Stop? {
        return -1;
      }
      if step.Found? {
        return position;
      }
      k := k + 1;
    }
    AtEnd(buffer, length, lines, k);
    return -1;
  }

  method SearchSubdevice(buffer: array<char>, length: int, start: nat, subvendorid: nat, subdeviceid: nat,
                         ghost lines: seq<Line>, ghost at: nat)
    returns (r: int)
    requires Holds(buffer, length, lines) && at < |lines|
    requires Offset(lines, at) <= start < Offset(lines, at + 1)
    requires Readable(Subdevice, lines, at + 1) && subdeviceid < 0x1_0000
    ensures r == Position(lines, Hit(Subdevice, lines, at + 1, SubKey(subvendorid, subdeviceid)))
  {
    var position := SkipLine(buffer, length, start, lines, at);
    r := ScanSubdevices(buffer, length, position, subvendorid, subdeviceid, lines, at + 1);
  }

  // ---------- class, subclass, programming interface ----------

  /** Reads the two digits of the entry of line `k`. */
  method ReadKey2(buffer: array<char>, length: int, position: nat, ghost lines: seq<Line>, ghost k: nat)
    returns (id: nat, next: nat)
    requires Holds(buffer, length, lines) && k < |lines|
    requires lines[k].Entry? && (lines[k].rank.Class? || lines[k].rank.Subclass? || lines[k].rank.ProgIf?)
    requires position == Offset(lines, k) + |Prefix(lines[k].rank)|
    ensures id == lines[k].key && next == position + |lines[k].id|
  {
    IdChars(buffer, length, lines, k);
    assert WellFormed(lines[k]);
    id, next := ReadId2(buffer, position);
  }

  /** A line as the class scanner sees it. */
  method ClassLine(buffer: array<char>, length: int, start: nat, classid: nat, ghost lines: seq<Line>, ghost k: nat)
    returns (step: Step, position: nat)
    requires Holds(buffer, length, lines) && k < |lines| && start == Offset(lines, k)
    ensures step == Outcome(Class, lines[k], classid)
    ensures step.Skip? ==> position == Offset(lines, k + 1)
    ensures step.Found? ==> position == NameOffset(lines, k)
  {
    LineKind(buffer, length, lines, k);
    position := start;
    if buffer[position] == '\n' {
      return Skip, position + 1;
    }
    if buffer[position] == '#' {
      position := SkipLine(buffer, length, position, lines, k);
      return Skip, position;
    }
    if buffer[position] != 'C' {
      position := SkipLine(buffer, length, position, lines, k);
      return Skip, position;
    }
    if buffer[position + 1] != ' ' {
      position := SkipLine(buffer, length, position, lines, k);
      return Skip, position;
    }
    position := position + 2;
    var id;
    id, position := ReadKey2(buffer, length, position, lines, k);
    if id > classid {
      return Stop, position;
    }
    position := SkipSpaces(buffer, length, position, lines, k);
    if id == classid {
      return Found, position;
    }
    position := SkipLine(buffer, length, position, lines, k);
    return Skip, position;
  }

  method SearchClass(buffer: array<char>, length: int, classid: nat, ghost lines: seq<Line>)
    returns (r: int)
    requires Holds(buffer, length, lines)
    ensures r == Position(lines, Hit(Class, lines, 0, classid))
  {
    ghost var hit := Hit(Class, lines, 0, classid);
    TopReadable(Class, lines, 0);
    var position := 0;
    ghost var k := 0;
    while position < length
      invariant k <= |lines| && position == Offset(lines, k)
      invariant Readable(Class, lines, k)
      invariant Hit(Class, lines, k, classid) == hit
      decreases |lines| - k
    {
      AtEnd(buffer, length, lines, k);
      NotMisread(Class, lines, k);
      var step;
      step, position := ClassLine(buffer, length, position, classid, lines, k);
      StepTaken(Class, lines, k, classid, hit, step);
      if step.Stop? {
        return -1;
      }
      if step.Found? {
        return position;
      }
      k := k + 1;
    }
    AtEnd(buffer, length, lines, k);
    return -1;
  }

  /** A line as the subclass scanner sees it. */
  method SubclassLine(buffer: array<char>, length: int, start: nat, subclassid: nat,
                      ghost lines: seq<Line>, ghost k: nat)
    returns (step: Step, position: nat)
    requires Holds(buffer, length, lines) && k < |lines| && start == Offset(lines, k)
    requires !Judge(Subclass, lines[k]).Misread?
    ensures step == Outcome(Subclass, lines[k], subclassid)
    ensures step.Skip? ==> position == Offset(lines, k + 1)
    ensures step.Found? ==> position == NameOffset(lines, k)
  {
    LineKind(buffer, length, lines, k);
    position := start;
    if buffer[position] == '\n' {
      return Skip, position + 1;
    }
    if buffer[position] == '#' {
      position := SkipLine(buffer, length, position, lines, k);
      return Skip, position;
    }
    if buffer[position] == 'C' {
      return Stop, position;
    }
    if buffer[position] == '\t' {
      if buffer[position + 1] == '\t' {
        position := SkipLine(buffer, length, position, lines, k);
        return Skip, position;
      }
    }
    position := position + 1;
    var id;
    id, position := ReadKey2(buffer, length, position, lines, k);
    if id > subclassid {
      return Stop, position;
    }
    position := SkipSpaces(buffer, length, position, lines, k);
    if id == subclassid {
      return Found, position;
    }
    position := SkipLine(buffer, length, position, lines, k);
    return Skip, position;
  }

  /** The loop over the subclasses, from the start of a line on. */
  method ScanSubclasses(buffer: array<char>, length: int, start: nat, subclassid: nat, ghost lines: seq<Line>,
                        ghost from: nat)
    returns (r: int)
    requires Holds(buffer, length, lines) && from <= |lines| && start == Offset(lines, from)
    requires Readable(Subclass, lines, from)
    ensures r == Position(lines, Hit(Subclass, lines, from, subclassid))
  {
    ghost var hit := Hit(Subclass, lines, from, subclassid);
    var position := start;
    ghost var k := from;
    while position < length
      invariant k <= |lines| && position == Offset(lines, k)
      invariant Readable(Subclass, lines, k)
      invariant Hit(Subclass, lines, k, subclassid) == hit
      decreases |lines| - k
    {
      AtEnd(buffer, length, lines, k);
      NotMisread(Subclass, lines, k);
      var step;
      step, position := SubclassLine(buffer, length, position, subclassid, lines, k);
      StepTaken(Subclass, lines, k, subclassid, hit, step);
      if step.Stop? {
        return -1;
      }
      if step.Found? {
        return position;
      }
      k := k + 1;
    }
    AtEnd(buffer, length, lines, k);
    return -1;
  }

  method SearchSubclass(buffer: array<char>, length: int, start: nat, subclassid: nat,
                         ghost lines: seq<Line>, ghost at: nat)
    returns (r: int)
    requires Holds(buffer, length, lines) && at < |lines|
    requires Offset(lines, at) <= start < Offset(lines, at + 1)
    requires Readable(Subclass, lines, at + 1)
    ensures r == Position(lines, Hit(Subclass, lines, at + 1, subclassid))
  {
    var position := SkipLine(buffer, length, start, lines, at);
    r := ScanSubclasses(buffer, length, position, subclassid, lines, at + 1);
  }

  /** A line as the programming-interface scanner sees it. */
  method ProgifLine(buffer: array<char>, length: int, start: nat, progifid: nat, ghost lines: seq<Line>, ghost k: nat)
    returns (step: Step, position: nat)
    requires Holds(buffer, length, lines) && k < |lines| && start == Offset(lines, k)
    requires !Judge(ProgIf, lines[k]).Misread?
    ensures step == Outcome(ProgIf, lines[k], progifid)
    ensures step.Skip? ==> position == Offset(lines, k + 1)
    ensures step.Found? ==> position == NameOffset(lines, k)
  {
    LineKind(buffer, length, lines, k);
    position := start;
    if buffer[position] == '\n' {
      return Skip, position + 1;
    }
    if buffer[position] == '#' {
      position := SkipLine(buffer, length, position, lines, k);
      return Skip, position;
    }
    if buffer[position] == 'C' {
      return Stop, position;
    }
    if buffer[position] == '\t' {
      if buffer[position + 1] != '\t' {
        return Stop, position;
      }
    }
    position := position + 2;
    var id;
    id, position := ReadKey2(buffer, length, position, lines, k);
    if id > progifid {
      return Stop, position;
    }
    position := SkipSpaces(buffer, length, position, lines, k);
    if id == progifid {
      return Found, position;
    }
    position := SkipLine(buffer, length, position, lines, k);
    return Skip, position;
  }

  /** The loop over the programming interfaces, from the start of a line on. */
  method ScanProgifs(buffer: array<char>, length: int, start: nat, progifid: nat, ghost lines: seq<Line>,
                     ghost from: nat)
    returns (r: int)
    requires Holds(buffer, length, lines) && from <= |lines| && start == Offset(lines, from)
    requires Readable(ProgIf, lines, from)
    ensures r == Position(lines, Hit(ProgIf, lines, from, progifid))
  {
    ghost var hit := Hit(ProgIf, lines, from, progifid);
    var position := start;
    ghost var k := from;
    while position < length
      invariant k <= |lines| && position == Offset(lines, k)
      invariant Readable(ProgIf, lines, k)
      invariant Hit(ProgIf, lines, k, progifid) == hit
      decreases |lines| - k
    {
      AtEnd(buffer, length, lines, k);
      NotMisread(ProgIf, lines, k);
      var step;
      step, position := ProgifLine(buffer, length, position, progifid, lines, k);
      StepTaken(ProgIf, lines, k, progifid, hit, step);
      if step.Stop? {
        return -1;
      }
      if step.Found? {
        return position;
      }
      k := k + 1;
    }
    AtEnd(buffer, length, lines, k);
    return -1;
  }

  method SearchProgif(buffer: array<char>, length: int, start: nat, progifid: nat,
                         ghost lines: seq<Line>, ghost at: nat)
    returns (r: int)
    requires Holds(buffer, length, lines) && at < |lines|
    requires Offset(lines, at) <= start < Offset(lines, at + 1)
    requires Readable(ProgIf, lines, at + 1)
    ensures r == Position(lines, Hit(ProgIf, lines, at + 1, progifid))
  {
    var position := SkipLine(buffer, length, start, lines, at);
    r := ScanProgifs(buffer, length, position, progifid, lines, at + 1);
  }
}
