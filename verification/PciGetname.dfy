/** The three look-ups that fill a caller's name buffers from a loaded `pci.ids`. */
module PciGetname {
  import opened Machine
  import opened PciIdsScan
  import opened PciIdsText
  import opened PciIdsTree
  import opened PciNames

  const UNKNOWN_VENDOR := "Unknown vendor"
  const UNKNOWN_DEVICE := "Unknown device"
  const UNKNOWN_CLASS := "Unknown class"
  const UNKNOWN_SUBCLASS := "Unknown subclass"
  const UNKNOWN_PROGIF := "Unknown progif"

  /** The value of `ENOSYS` in the C library's <mint/errno.h>; only its sign matters. */
  const ENOSYS := 32

  // ---------- what a name buffer holds ----------

  function UpToNul(s: string): string {
    if s == [] || s[0] == '\0' then [] else [s[0]] + UpToNul(s[1..])
  }

  function Zeros(n: nat): (s: string)
    ensures |s| == n && forall i | 0 <= i < n :: s[i] == '\0'
  {
    seq(n, _ => '\0')
  }

  /** A buffer of `maxlen` characters holding a text as a C string, cut to what fits. */
  function Fitted(text: string, maxlen: nat): (s: string)
    requires maxlen >= 1
    ensures |s| == maxlen && s[maxlen - 1] == '\0'
    decreases maxlen
  {
    if maxlen == 1 then ['\0']
    else if text == [] || text[0] == '\0' then ['\0'] + Fitted([], maxlen - 1)
    else [text[0]] + Fitted(text[1..], maxlen - 1)
  }

  /** A name buffer that holds the default text. */
  predicate Defaulted(s: string, maxlen: nat, text: string) {
    1 <= maxlen <= |s| && s == Fitted(text, maxlen) + s[maxlen..]
  }

  /** The name on the line a search reached, or the default text when it reached none. */
  function NameAt(lines: seq<Line>, hit: Option<nat>, fallback: string): string {
    if hit.Some? && hit.value < |lines| && lines[hit.value].Entry? then lines[hit.value].name else fallback
  }

  /** What a look-up leaves in a name buffer that held `was`. */
  function Filled(lines: seq<Line>, hit: Option<nat>, fallback: string, maxlen: nat, was: string): string
    requires 1 <= maxlen <= |was|
  {
    Fitted(NameAt(lines, hit, fallback), maxlen) + was[maxlen..]
  }

  // ---------- filling a name buffer ----------

  /** The default name: `strncpy`, then a terminator in the last place. */
  method StoreDefault(dst: array<char>, maxlen: nat, text: string)
    requires 1 <= maxlen <= dst.Length && '\0' !in text
    modifies dst
    ensures dst[..] == Fitted(text, maxlen) + old(dst[maxlen..]) && Defaulted(dst[..], maxlen, text)
  {
    var i := 0;
    while i < maxlen
      invariant i <= maxlen
      invariant forall j | 0 <= j < i :: dst[j] == if j < |text| then text[j] else '\0'
      invariant forall j | maxlen <= j < dst.Length :: dst[j] == old(dst[j])
    {
      dst[i] := if i < |text| then text[i] else '\0';
      i := i + 1;
    }
    dst[maxlen - 1] := '\0';
    FittedFrom(dst[..], text, maxlen, |text|);
    assert dst[..] == dst[..maxlen] + dst[maxlen..];
  }

  /** A buffer is a fitted text when it agrees with it up to `n`, is zero behind, and `n` is
      where the text or the space ends. */
  lemma {:induction false} FittedFrom(s: string, text: string, maxlen: nat, n: nat)
    requires 1 <= maxlen <= |s| && n <= |text|
    requires forall j | 0 <= j < n :: text[j] != '\0'
    requires forall j | 0 <= j < maxlen :: s[j] == if j < n && j < maxlen - 1 then text[j] else '\0'
    requires n == |text| || text[n] == '\0' || n >= maxlen - 1
    ensures s[..maxlen] == Fitted(text, maxlen)
    decreases maxlen
  {
    assert s[..maxlen] == [s[0]] + s[1..][..maxlen - 1];
    if maxlen > 1 {
      if n == 0 {
        FittedFrom(s[1..], [], maxlen - 1, 0);
      } else {
        FittedFrom(s[1..], text[1..], maxlen - 1, n - 1);
      }
    }
  }

  /** That is the text up to its first NUL, or as much of it as leaves room for one, and zeros. */
  lemma FittedIsCut(text: string, maxlen: nat)
    requires maxlen >= 1
    ensures var t := UpToNul(text);
            var shown := if |t| < maxlen then t else t[..maxlen - 1];
            Fitted(text, maxlen) == shown + Zeros(maxlen - |shown|)
  {
    var t := UpToNul(text);
    var shown := if |t| < maxlen then t else t[..maxlen - 1];
    var s := shown + Zeros(maxlen - |shown|);
    UpToNulPrefix(text);
    FittedFrom(s, text, maxlen, |t|);
    assert s[..maxlen] == s;
  }

  lemma {:induction false} UpToNulPrefix(s: string)
    ensures var t := UpToNul(s);
            && t <= s && '\0' !in t && (|t| < |s| ==> s[|t|] == '\0')
  {
    if s != [] && s[0] != '\0' {
      UpToNulPrefix(s[1..]);
    }
  }

  /** `memset` to zero. */
  method Clear(dst: array<char>, maxlen: nat)
    requires maxlen <= dst.Length
    modifies dst
    ensures forall j | 0 <= j < maxlen :: dst[j] == '\0'
    ensures forall j | maxlen <= j < dst.Length :: dst[j] == old(dst[j])
  {
    var i := 0;
    while i < maxlen
      invariant i <= maxlen
      invariant forall j | 0 <= j < i :: dst[j] == '\0'
      invariant forall j | maxlen <= j < dst.Length :: dst[j] == old(dst[j])
    {
      dst[i] := '\0';
      i := i + 1;
    }
  }

  /** A name is in the buffer, and a newline ends it. */
  ghost predicate Reads(buffer: array<char>, position: nat, name: string)
    reads buffer
  {
    position + |name| < buffer.Length && buffer[position + |name|] == '\n'
    && forall i | 0 <= i < |name| :: name[i] == buffer[position + i] != '\n'
  }

  /** Copies a text that ends at a newline, up to its NUL, its end, or the space left. */
  method CopyText(buffer: array<char>, position: nat, dst: array<char>, maxlen: nat, ghost name: string)
    requires Reads(buffer, position, name) && 1 <= maxlen <= dst.Length && dst != buffer
    modifies dst
    ensures dst[..] == Fitted(name, maxlen) + old(dst[maxlen..])
  {
    Clear(dst, maxlen);
    var src := position;
    var pos := 0;
    while buffer[src] != '\0' && buffer[src] != '\n' && pos < maxlen - 1
      invariant 0 <= pos <= |name| && pos <= maxlen - 1 && src == position + pos
      invariant forall j | 0 <= j < pos :: name[j] != '\0' && dst[j] == name[j]
      invariant forall j | pos <= j < maxlen :: dst[j] == '\0'
      invariant forall j | maxlen <= j < dst.Length :: dst[j] == old(dst[j])
      decreases maxlen - pos
    {
      assert pos < |name| ==> name[pos] == buffer[position + pos];
      dst[pos] := buffer[src];
      pos := pos + 1;
      src := src + 1;
    }
    assert pos < |name| ==> name[pos] == buffer[position + pos];
    FittedFrom(dst[..], name, maxlen, pos);
    assert dst[..] == dst[..maxlen] + dst[maxlen..];
  }

  /** Where the name of an entry is. */
  lemma NameChars(buffer: array<char>, length: int, lines: seq<Line>, k: nat)
    requires Holds(buffer, length, lines) && k < |lines| && lines[k].Entry?
    ensures Reads(buffer, NameOffset(lines, k), lines[k].name)
  {
    LineChars(buffer, length, lines, k);
    NameTail(lines[k]);
    TailChars(buffer, Offset(lines, k), LineText(lines[k]), NameColumn(lines[k]), lines[k].name);
  }

  lemma NameTail(line: Line)
    requires WellFormed(line) && line.Entry?
    ensures NameColumn(line) <= |LineText(line)|
    ensures LineText(line)[NameColumn(line)..] == line.name + "\n" && '\n' !in line.name
  {
    EntryParts(line);
  }

  lemma TailChars(buffer: array<char>, o: nat, t: string, c: nat, name: string)
    requires o + |t| <= buffer.Length && forall m | 0 <= m < |t| :: t[m] == buffer[o + m]
    requires c <= |t| && t[c..] == name + "\n" && '\n' !in name
    ensures Reads(buffer, o + c, name)
  {
    assert |t[c..]| == |name| + 1;
    assert t[c + |name|] == (name + "\n")[|name|];
    assert t[c + |name|] == buffer[o + (c + |name|)];
    forall i | 0 <= i < |name| ensures name[i] == buffer[o + c + i] != '\n' {
      assert t[c..][i] == t[c + i];
      assert t[c + i] == buffer[o + (c + i)];
    }
  }

  /** The name at an entry's name offset. */
  method CopyName(buffer: array<char>, length: int, position: nat, dst: array<char>, maxlen: nat,
                  ghost lines: seq<Line>, ghost k: nat)
    requires Holds(buffer, length, lines) && k < |lines| && lines[k].Entry?
    requires position == NameOffset(lines, k) && 1 <= maxlen <= dst.Length && dst != buffer
    modifies dst
    ensures dst[..] == Fitted(lines[k].name, maxlen) + old(dst[maxlen..])
  {
    NameChars(buffer, length, lines, k);
    CopyText(buffer, position, dst, maxlen, lines[k].name);
  }

  // ---------- chains of searches ----------

  /** A position is where the name on line `at` begins. */
  ghost predicate StartsAt(lines: seq<Line>, at: nat, position: int) {
    at < |lines| && lines[at].Entry? && position == NameOffset(lines, at)
  }

  /** The position of the name on the line found, or a negative number. */
  ghost predicate FoundAt(lines: seq<Line>, hit: Option<nat>, position: int) {
    (position < 0 <==> hit.None?) && (hit.Some? ==> StartsAt(lines, hit.value, position))
  }

  lemma NameInLine(buffer: array<char>, length: int, lines: seq<Line>, k: nat)
    requires Holds(buffer, length, lines) && k < |lines| && lines[k].Entry?
    ensures Offset(lines, k) <= NameOffset(lines, k) < Offset(lines, k + 1)
  {
    GapChars(buffer, length, lines, k);
  }

  // Each scanner, started on the line the one before it found.

  method FindVendor(buffer: array<char>, length: int, id: nat, ghost lines: seq<Line>)
    returns (position: int, ghost hit: Option<nat>)
    requires Holds(buffer, length, lines)
    ensures hit == Hit(Vendor, lines, 0, id) && FoundAt(lines, hit, position)
  {
    hit := Hit(Vendor, lines, 0, id);
    HitInRange(Vendor, lines, 0, id);
    position := SearchVendor(buffer, length, id, lines);
  }

  method FindDevice(buffer: array<char>, length: int, start: int, id: nat,
                    ghost lines: seq<Line>, ghost at: nat) returns (position: int, ghost hit: Option<nat>)
    requires Holds(buffer, length, lines) && StartsAt(lines, at, start) && Readable(Device, lines, at + 1)
    ensures hit == Hit(Device, lines, at + 1, id) && FoundAt(lines, hit, position)
  {
    hit := Hit(Device, lines, at + 1, id);
    HitInRange(Device, lines, at + 1, id);
    NameInLine(buffer, length, lines, at);
    position := SearchDevice(buffer, length, start, id, lines, at);
  }

  method FindSubdevice(buffer: array<char>, length: int, start: int, subvendor: nat, subdevice: nat,
                    ghost lines: seq<Line>, ghost at: nat) returns (position: int, ghost hit: Option<nat>)
    requires Holds(buffer, length, lines) && StartsAt(lines, at, start)
    requires Readable(Subdevice, lines, at + 1) && subdevice < 0x1_0000
    ensures hit == Hit(Subdevice, lines, at + 1, SubKey(subvendor, subdevice)) && FoundAt(lines, hit, position)
  {
    hit := Hit(Subdevice, lines, at + 1, SubKey(subvendor, subdevice));
    HitInRange(Subdevice, lines, at + 1, SubKey(subvendor, subdevice));
    NameInLine(buffer, length, lines, at);
    position := SearchSubdevice(buffer, length, start, subvendor, subdevice, lines, at);
  }

  method FindClass(buffer: array<char>, length: int, id: nat, ghost lines: seq<Line>)
    returns (position: int, ghost hit: Option<nat>)
    requires Holds(buffer, length, lines)
    ensures hit == Hit(Class, lines, 0, id) && FoundAt(lines, hit, position)
  {
    hit := Hit(Class, lines, 0, id);
    HitInRange(Class, lines, 0, id);
    position := SearchClass(buffer, length, id, lines);
  }

  method FindSubclass(buffer: array<char>, length: int, start: int, id: nat,
                    ghost lines: seq<Line>, ghost at: nat) returns (position: int, ghost hit: Option<nat>)
    requires Holds(buffer, length, lines) && StartsAt(lines, at, start) && Readable(Subclass, lines, at + 1)
    ensures hit == Hit(Subclass, lines, at + 1, id) && FoundAt(lines, hit, position)
  {
    hit := Hit(Subclass, lines, at + 1, id);
    HitInRange(Subclass, lines, at + 1, id);
    NameInLine(buffer, length, lines, at);
    position := SearchSubclass(buffer, length, start, id, lines, at);
  }

  method FindProgif(buffer: array<char>, length: int, start: int, id: nat,
                    ghost lines: seq<Line>, ghost at: nat) returns (position: int, ghost hit: Option<nat>)
    requires Holds(buffer, length, lines) && StartsAt(lines, at, start) && Readable(ProgIf, lines, at + 1)
    ensures hit == Hit(ProgIf, lines, at + 1, id) && FoundAt(lines, hit, position)
  {
    hit := Hit(ProgIf, lines, at + 1, id);
    HitInRange(ProgIf, lines, at + 1, id);
    NameInLine(buffer, length, lines, at);
    position := SearchProgif(buffer, length, start, id, lines, at);
  }

  lemma PathOfOne(rank: Rank, lines: seq<Line>, from: nat, key: nat)
    requires from <= |lines|
    ensures ScanPath(rank, lines, from, [key]) == Hit(rank, lines, from, key)
    ensures PathReadable(rank, lines, from, [key]) == Readable(rank, lines, from)
  {}

  /** Two searches, the second on from the line the first one found. */
  function HitBelow(rank: Rank, child: Rank, lines: seq<Line>, from: nat, k0: nat, k1: nat): Option<nat>
    requires from <= |lines|
  {
    var hit := Hit(rank, lines, from, k0);
    if hit.None? || hit.value >= |lines| then None else Hit(child, lines, hit.value + 1, k1)
  }

  /** Neither of them misreads a line. */
  predicate ReadableBelow(rank: Rank, child: Rank, lines: seq<Line>, from: nat, k0: nat)
    requires from <= |lines|
  {
    && Readable(rank, lines, from)
    && var hit := Hit(rank, lines, from, k0);
       hit.Some? && hit.value < |lines| ==> Readable(child, lines, hit.value + 1)
  }

  lemma PathOfTwo(rank: Rank, lines: seq<Line>, from: nat, k0: nat, k1: nat, child: Rank)
    requires from <= |lines| && ChildRank(rank) == Some(child)
    ensures ScanPath(rank, lines, from, [k0, k1]) == HitBelow(rank, child, lines, from, k0, k1)
    ensures PathReadable(rank, lines, from, [k0, k1]) == ReadableBelow(rank, child, lines, from, k0)
  {
    HitInRange(rank, lines, from, k0);
    var hit := Hit(rank, lines, from, k0);
    assert [k0, k1][1..] == [k1];
    if hit.Some? {
      PathOfOne(child, lines, hit.value + 1, k1);
    }
  }

  /** A path of three keys goes on below what its first one reached. */
  lemma PathOfThree(rank: Rank, lines: seq<Line>, from: nat, k0: nat, k1: nat, k2: nat, child: Rank, last: Rank)
    requires from <= |lines| && ChildRank(rank) == Some(child) && ChildRank(child) == Some(last)
    ensures var hit := Hit(rank, lines, from, k0);
            hit.Some? ==>
              && hit.value < |lines|
              && ScanPath(rank, lines, from, [k0, k1, k2])
                 == HitBelow(child, last, lines, hit.value + 1, k1, k2)
              && (PathReadable(rank, lines, from, [k0, k1, k2]) ==>
                    ReadableBelow(child, last, lines, hit.value + 1, k1))
    ensures Hit(rank, lines, from, k0).None? ==> ScanPath(rank, lines, from, [k0, k1, k2]).None?
  {
    HitInRange(rank, lines, from, k0);
    var hit := Hit(rank, lines, from, k0);
    assert [k0, k1, k2][1..] == [k1, k2];
    if hit.Some? {
      PathOfTwo(child, lines, hit.value + 1, k1, k2, last);
    }
  }

  // ---------- the three look-ups ----------

  /** The file, if it could be loaded, is the text of some lines. */
  ghost predicate FileOf(buffer: array?<char>, length: int, lines: seq<Line>)
    reads buffer
  {
    buffer != null ==> 0 <= length <= buffer.Length && buffer[..length] == Text(lines) && AllWellFormed(lines)
  }

  method PciDeviceGetname(buffer: array?<char>, length: int,
                          vendorid: nat, vendorname: array<char>, vendornameMaxlen: nat,
                          deviceid: nat, devicename: array<char>, devicenameMaxlen: nat,
                          ghost lines: seq<Line>)
    returns (result: int)
    requires FileOf(buffer, length, lines)
    requires deviceid != 0xffff ==> PathReadable(Vendor, lines, 0, [vendorid, deviceid])
    requires 1 <= vendornameMaxlen <= vendorname.Length && 1 <= devicenameMaxlen <= devicename.Length
    requires vendorname != devicename && vendorname != buffer && devicename != buffer
    modifies vendorname, devicename
    ensures result == if buffer == null then -ENOSYS else 0
    ensures buffer == null ==> vendorname[..] == old(vendorname[..]) && devicename[..] == old(devicename[..])
    ensures buffer != null ==>
              && vendorname[..] == Filled(lines, ScanPath(Vendor, lines, 0, [vendorid]), "Unknown vendor",
                                          vendornameMaxlen, old(vendorname[..]))
              && devicename[..] == Filled(lines,
                                          if deviceid == 0xffff then None
                                          else ScanPath(Vendor, lines, 0, [vendorid, deviceid]),
                                          "Unknown device", devicenameMaxlen, old(devicename[..]))
  {
    if buffer == null {
      return -ENOSYS;
    }
    StoreDefault(vendorname, vendornameMaxlen, UNKNOWN_VENDOR);
    StoreDefault(devicename, devicenameMaxlen, UNKNOWN_DEVICE);
    PathOfOne(Vendor, lines, 0, vendorid);
    PathOfTwo(Vendor, lines, 0, vendorid, deviceid, Device);
    FillDeviceNames(buffer, length, vendorid, vendorname, vendornameMaxlen, deviceid, devicename, devicenameMaxlen,
                    lines, UNKNOWN_VENDOR, UNKNOWN_DEVICE);
    return 0;
  }

  /** The vendor's and the device's name, over buffers that hold the default texts. */
  method FillDeviceNames(buffer: array<char>, length: int,
                         vendorid: nat, vendorname: array<char>, vendornameMaxlen: nat,
                         deviceid: nat, devicename: array<char>, devicenameMaxlen: nat,
                         ghost lines: seq<Line>, ghost unknownVendor: string, ghost unknown: string)
    requires Holds(buffer, length, lines)
    requires deviceid != 0xffff ==> ReadableBelow(Vendor, Device, lines, 0, vendorid)
    requires 1 <= vendornameMaxlen <= vendorname.Length && 1 <= devicenameMaxlen <= devicename.Length
    requires vendorname != devicename && vendorname != buffer && devicename != buffer
    requires Defaulted(vendorname[..], vendornameMaxlen, unknownVendor)
    requires Defaulted(devicename[..], devicenameMaxlen, unknown)
    modifies vendorname, devicename
    ensures vendorname[..] == Filled(lines, Hit(Vendor, lines, 0, vendorid), unknownVendor,
                                     vendornameMaxlen, old(vendorname[..]))
    ensures devicename[..] == Filled(lines, if deviceid == 0xffff then None
                                            else HitBelow(Vendor, Device, lines, 0, vendorid, deviceid),
                                     unknown, devicenameMaxlen, old(devicename[..]))
  {
    var vendorPosition, devicePosition;
    ghost var v, d;

    vendorPosition, v := FindVendor(buffer, length, vendorid, lines);
    if vendorPosition < 0 {
      return;
    }
    CopyName(buffer, length, vendorPosition, vendorname, vendornameMaxlen, lines, v.value);

    if deviceid == 0xffff {
      return;
    }
    devicePosition, d := FindDevice(buffer, length, vendorPosition, deviceid, lines, v.value);
    if devicePosition < 0 {
      return;
    }
    CopyName(buffer, length, devicePosition, devicename, devicenameMaxlen, lines, d.value);
  }

  /** The three class levels, once the class code is taken apart, over buffers that hold the
      default texts. */
  method FillClassNames(buffer: array<char>, length: int, c: nat, s: nat, p: nat,
                        classname: array<char>, classnameMaxlen: nat,
                        subclassname: array<char>, subclassnameMaxlen: nat,
                        progifname: array<char>, progifnameMaxlen: nat,
                        ghost lines: seq<Line>, ghost i: Option<nat>,
                        ghost unknownClass: string, ghost unknown: string, ghost unknownProgif: string)
    requires Holds(buffer, length, lines) && i == Hit(Class, lines, 0, c)
    requires i.Some? ==> i.value < |lines| && ReadableBelow(Subclass, ProgIf, lines, i.value + 1, s)
    requires 1 <= classnameMaxlen <= classname.Length && 1 <= subclassnameMaxlen <= subclassname.Length
    requires 1 <= progifnameMaxlen <= progifname.Length
    requires classname != subclassname && classname != progifname && subclassname != progifname
    requires classname != buffer && subclassname != buffer && progifname != buffer
    requires Defaulted(classname[..], classnameMaxlen, unknownClass)
    requires Defaulted(subclassname[..], subclassnameMaxlen, unknown)
    requires Defaulted(progifname[..], progifnameMaxlen, unknownProgif)
    modifies classname, subclassname, progifname
    ensures classname[..] == Filled(lines, i, unknownClass, classnameMaxlen, old(classname[..]))
    ensures subclassname[..]
         == Filled(lines, if i.None? then None else Hit(Subclass, lines, i.value + 1, s), unknown,
                   subclassnameMaxlen, old(subclassname[..]))
    ensures progifname[..]
         == Filled(lines, if i.None? then None else HitBelow(Subclass, ProgIf, lines, i.value + 1, s, p),
                   unknownProgif, progifnameMaxlen, old(progifname[..]))
  {
    var classPosition;
    ghost var hit;

    classPosition, hit := FindClass(buffer, length, c, lines);
    if classPosition < 0 {
      return;
    }
    CopyName(buffer, length, classPosition, classname, classnameMaxlen, lines, i.value);
    FillLowerNames(buffer, length, classPosition, s, p, subclassname, subclassnameMaxlen,
                   progifname, progifnameMaxlen, lines, i.value, unknown, unknownProgif);
  }

  /** The two levels below a class, over buffers that hold the default texts. */
  method FillLowerNames(buffer: array<char>, length: int, classPosition: int, s: nat, p: nat,
                        subclassname: array<char>, subclassnameMaxlen: nat,
                        progifname: array<char>, progifnameMaxlen: nat,
                        ghost lines: seq<Line>, ghost i: nat, ghost unknown: string, ghost unknownProgif: string)
    requires Holds(buffer, length, lines) && StartsAt(lines, i, classPosition)
    requires ReadableBelow(Subclass, ProgIf, lines, i + 1, s)
    requires 1 <= subclassnameMaxlen <= subclassname.Length && 1 <= progifnameMaxlen <= progifname.Length
    requires subclassname != progifname && subclassname != buffer && progifname != buffer
    requires Defaulted(subclassname[..], subclassnameMaxlen, unknown)
    requires Defaulted(progifname[..], progifnameMaxlen, unknownProgif)
    modifies subclassname, progifname
    ensures subclassname[..] == Filled(lines, Hit(Subclass, lines, i + 1, s), unknown,
                                       subclassnameMaxlen, old(subclassname[..]))
    ensures progifname[..] == Filled(lines, HitBelow(Subclass, ProgIf, lines, i + 1, s, p), unknownProgif,
                                     progifnameMaxlen, old(progifname[..]))
  {
    var subclassPosition, progifPosition;
    ghost var j, k;

    subclassPosition, j := FindSubclass(buffer, length, classPosition, s, lines, i);
    if subclassPosition < 0 {
      return;
    }
    CopyName(buffer, length, subclassPosition, subclassname, subclassnameMaxlen, lines, j.value);

    progifPosition, k := FindProgif(buffer, length, subclassPosition, p, lines, j.value);
    if progifPosition < 0 {
      return;
    }
    CopyName(buffer, length, progifPosition, progifname, progifnameMaxlen, lines, k.value);
  }

  /** The three bytes of a class code. */
  lemma CodeBytes(classcode: nat, c: nat, s: nat, p: nat)
    requires c < 0x100 && s < 0x100 && p < 0x100
    requires classcode % 0x100_0000 == 0x1_0000 * c + 0x100 * s + p
    ensures classcode / 0x1_0000 % 0x100 == c && classcode / 0x100 % 0x100 == s && classcode % 0x100 == p
  {
    TakenApart(classcode, classcode / 0x100_0000, c, s, p);
  }

  lemma TakenApart(classcode: nat, q: nat, c: nat, s: nat, p: nat)
    requires c < 0x100 && s < 0x100 && p < 0x100
    requires classcode == 0x100_0000 * q + 0x1_0000 * c + 0x100 * s + p
    ensures classcode / 0x1_0000 % 0x100 == c && classcode / 0x100 % 0x100 == s && classcode % 0x100 == p
  {
    assert classcode / 0x1_0000 == 0x100 * q + c;
    assert classcode / 0x100 == 0x1_0000 * q + 0x100 * c + s;
  }

  /** `c`, `s` and `p` are the bytes of the class code, from the third one down; what is above
      them is not looked at. */
  method PciClassGetname(buffer: array?<char>, length: int, classcode: nat,
                         classname: array<char>, classnameMaxlen: nat,
                         subclassname: array<char>, subclassnameMaxlen: nat,
                         progifname: array<char>, progifnameMaxlen: nat,
                         ghost lines: seq<Line>, ghost c: nat, ghost s: nat, ghost p: nat)
    returns (result: int)
    requires c < 0x100 && s < 0x100 && p < 0x100
    requires classcode % 0x100_0000 == 0x1_0000 * c + 0x100 * s + p
    requires FileOf(buffer, length, lines)
    requires PathReadable(Class, lines, 0, [c, s, p])
    requires 1 <= classnameMaxlen <= classname.Length && 1 <= subclassnameMaxlen <= subclassname.Length
    requires 1 <= progifnameMaxlen <= progifname.Length
    requires classname != subclassname && classname != progifname && subclassname != progifname
    requires classname != buffer && subclassname != buffer && progifname != buffer
    modifies classname, subclassname, progifname
    ensures result == if buffer == null then -ENOSYS else 0
    ensures buffer == null ==>
              && classname[..] == old(classname[..]) && subclassname[..] == old(subclassname[..])
              && progifname[..] == old(progifname[..])
    ensures buffer != null ==>
              && classname[..] == Filled(lines, ScanPath(Class, lines, 0, [c]), "Unknown class",
                                         classnameMaxlen, old(classname[..]))
              && subclassname[..] == Filled(lines, ScanPath(Class, lines, 0, [c, s]), "Unknown subclass",
                                            subclassnameMaxlen, old(subclassname[..]))
              && progifname[..] == Filled(lines, ScanPath(Class, lines, 0, [c, s, p]), "Unknown progif",
                                          progifnameMaxlen, old(progifname[..]))
  {
    if buffer == null {
      return -ENOSYS;
    }
    CodeBytes(classcode, c, s, p);
    ClassNamesOf(buffer, length, classcode / 0x1_0000 % 0x100, classcode / 0x100 % 0x100, classcode % 0x100,
                 classname, classnameMaxlen, subclassname, subclassnameMaxlen,
                 progifname, progifnameMaxlen, lines);
    return 0;
  }

  /** The same for a class code taken apart. */
  method ClassNamesOf(buffer: array<char>, length: int, c: nat, s: nat, p: nat,
                      classname: array<char>, classnameMaxlen: nat,
                      subclassname: array<char>, subclassnameMaxlen: nat,
                      progifname: array<char>, progifnameMaxlen: nat,
                      ghost lines: seq<Line>)
    requires Holds(buffer, length, lines) && PathReadable(Class, lines, 0, [c, s, p])
    requires 1 <= classnameMaxlen <= classname.Length && 1 <= subclassnameMaxlen <= subclassname.Length
    requires 1 <= progifnameMaxlen <= progifname.Length
    requires classname != subclassname && classname != progifname && subclassname != progifname
    requires classname != buffer && subclassname != buffer && progifname != buffer
    modifies classname, subclassname, progifname
    ensures classname[..] == Filled(lines, ScanPath(Class, lines, 0, [c]), UNKNOWN_CLASS,
                                    classnameMaxlen, old(classname[..]))
    ensures subclassname[..] == Filled(lines, ScanPath(Class, lines, 0, [c, s]), UNKNOWN_SUBCLASS,
                                       subclassnameMaxlen, old(subclassname[..]))
    ensures progifname[..] == Filled(lines, ScanPath(Class, lines, 0, [c, s, p]), UNKNOWN_PROGIF,
                                     progifnameMaxlen, old(progifname[..]))
  {
    StoreDefault(classname, classnameMaxlen, UNKNOWN_CLASS);
    StoreDefault(subclassname, subclassnameMaxlen, UNKNOWN_SUBCLASS);
    StoreDefault(progifname, progifnameMaxlen, UNKNOWN_PROGIF);
    PathOfOne(Class, lines, 0, c);
    PathOfTwo(Class, lines, 0, c, s, Subclass);
    PathOfThree(Class, lines, 0, c, s, p, Subclass, ProgIf);
    FillClassNames(buffer, length, c, s, p, classname, classnameMaxlen, subclassname, subclassnameMaxlen,
                   progifname, progifnameMaxlen, lines, Hit(Class, lines, 0, c),
                   UNKNOWN_CLASS, UNKNOWN_SUBCLASS, UNKNOWN_PROGIF);
  }

  method PciSubdeviceGetname(buffer: array?<char>, length: int,
                             vendorid: nat, deviceid: nat,
                             subvendorid: nat, vendorname: array<char>, vendornameMaxlen: nat,
                             subdeviceid: nat, devicename: array<char>, devicenameMaxlen: nat,
                             ghost lines: seq<Line>)
    returns (result: int)
    requires FileOf(buffer, length, lines) && subdeviceid < 0x1_0000
    requires PathReadable(Vendor, lines, 0, [vendorid, deviceid, SubKey(subvendorid, subdeviceid)])
    requires 1 <= vendornameMaxlen <= vendorname.Length && 1 <= devicenameMaxlen <= devicename.Length
    requires vendorname != devicename && vendorname != buffer && devicename != buffer
    modifies vendorname, devicename
    ensures result == if buffer == null then -ENOSYS else 0
    ensures buffer == null ==> vendorname[..] == old(vendorname[..]) && devicename[..] == old(devicename[..])
    ensures buffer != null ==>
              && vendorname[..] == Filled(lines, ScanPath(Vendor, lines, 0, [subvendorid]), "Unknown vendor",
                                          vendornameMaxlen, old(vendorname[..]))
              && devicename[..] == Filled(lines, ScanPath(Vendor, lines, 0,
                                                          [vendorid, deviceid, SubKey(subvendorid, subdeviceid)]),
                                          "Unknown device", devicenameMaxlen, old(devicename[..]))
  {
    if buffer == null {
      return -ENOSYS;
    }
    SubdeviceNamesOf(buffer, length, vendorid, deviceid, subvendorid, vendorname, vendornameMaxlen,
                     subdeviceid, devicename, devicenameMaxlen, lines, SubKey(subvendorid, subdeviceid));
    return 0;
  }

  /** The same once the file is there. */
  method SubdeviceNamesOf(buffer: array<char>, length: int, vendorid: nat, deviceid: nat,
                          subvendorid: nat, vendorname: array<char>, vendornameMaxlen: nat,
                          subdeviceid: nat, devicename: array<char>, devicenameMaxlen: nat,
                          ghost lines: seq<Line>, ghost key: nat)
    requires Holds(buffer, length, lines) && subdeviceid < 0x1_0000 && key == SubKey(subvendorid, subdeviceid)
    requires PathReadable(Vendor, lines, 0, [vendorid, deviceid, key])
    requires 1 <= vendornameMaxlen <= vendorname.Length && 1 <= devicenameMaxlen <= devicename.Length
    requires vendorname != devicename && vendorname != buffer && devicename != buffer
    modifies vendorname, devicename
    ensures vendorname[..] == Filled(lines, ScanPath(Vendor, lines, 0, [subvendorid]), UNKNOWN_VENDOR,
                                     vendornameMaxlen, old(vendorname[..]))
    ensures devicename[..] == Filled(lines, ScanPath(Vendor, lines, 0, [vendorid, deviceid, key]), UNKNOWN_DEVICE,
                                     devicenameMaxlen, old(devicename[..]))
  {
    StoreDefault(vendorname, vendornameMaxlen, UNKNOWN_VENDOR);
    StoreDefault(devicename, devicenameMaxlen, UNKNOWN_DEVICE);
    PathOfOne(Vendor, lines, 0, subvendorid);
    FillVendorName(buffer, length, subvendorid, vendorname, vendornameMaxlen, lines, UNKNOWN_VENDOR);
    PathOfThree(Vendor, lines, 0, vendorid, deviceid, key, Device, Subdevice);
    FillSubdeviceName(buffer, length, vendorid, deviceid, subvendorid, subdeviceid,
                      devicename, devicenameMaxlen, lines, Hit(Vendor, lines, 0, vendorid), UNKNOWN_DEVICE);
  }

  /** The name of a vendor, over a buffer with the default text. */
  method FillVendorName(buffer: array<char>, length: int, id: nat, name: array<char>, maxlen: nat,
                        ghost lines: seq<Line>, ghost unknown: string)
    requires Holds(buffer, length, lines) && 1 <= maxlen <= name.Length && name != buffer
    requires Defaulted(name[..], maxlen, unknown)
    modifies name
    ensures name[..] == Filled(lines, Hit(Vendor, lines, 0, id), unknown, maxlen, old(name[..]))
  {
    var position;
    ghost var hit;
    position, hit := FindVendor(buffer, length, id, lines);
    if position >= 0 {
      CopyName(buffer, length, position, name, maxlen, lines, hit.value);
    }
  }

  /** The name of the subdevice, below its vendor and device, over a buffer with the default text. */
  method FillSubdeviceName(buffer: array<char>, length: int, vendorid: nat, deviceid: nat,
                           subvendorid: nat, subdeviceid: nat, devicename: array<char>, devicenameMaxlen: nat,
                           ghost lines: seq<Line>, ghost v: Option<nat>, ghost unknown: string)
    requires Holds(buffer, length, lines) && subdeviceid < 0x1_0000 && v == Hit(Vendor, lines, 0, vendorid)
    requires v.Some? ==> v.value < |lines| && ReadableBelow(Device, Subdevice, lines, v.value + 1, deviceid)
    requires 1 <= devicenameMaxlen <= devicename.Length && devicename != buffer
    requires Defaulted(devicename[..], devicenameMaxlen, unknown)
    modifies devicename
    ensures devicename[..]
         == Filled(lines, if v.None? then None
                          else HitBelow(Device, Subdevice, lines, v.value + 1,
                                        deviceid, SubKey(subvendorid, subdeviceid)),
                   unknown, devicenameMaxlen, old(devicename[..]))
  {
    var vendorPosition;
    ghost var hit;

    vendorPosition, hit := FindVendor(buffer, length, vendorid, lines);
    if vendorPosition < 0 {
      return;
    }
    FillBelowVendor(buffer, length, vendorPosition, deviceid, subvendorid, subdeviceid,
                    devicename, devicenameMaxlen, lines, v.value, unknown);
  }

  /** The two levels below a vendor. */
  method FillBelowVendor(buffer: array<char>, length: int, vendorPosition: int, deviceid: nat,
                         subvendorid: nat, subdeviceid: nat, devicename: array<char>, devicenameMaxlen: nat,
                         ghost lines: seq<Line>, ghost v: nat, ghost unknown: string)
    requires Holds(buffer, length, lines) && StartsAt(lines, v, vendorPosition) && subdeviceid < 0x1_0000
    requires ReadableBelow(Device, Subdevice, lines, v + 1, deviceid)
    requires 1 <= devicenameMaxlen <= devicename.Length && devicename != buffer
    requires Defaulted(devicename[..], devicenameMaxlen, unknown)
    modifies devicename
    ensures devicename[..]
         == Filled(lines, HitBelow(Device, Subdevice, lines, v + 1, deviceid, SubKey(subvendorid, subdeviceid)),
                   unknown, devicenameMaxlen, old(devicename[..]))
  {
    var devicePosition, subdevicePosition;
    ghost var d, k;

    devicePosition, d := FindDevice(buffer, length, vendorPosition, deviceid, lines, v);
    if devicePosition < 0 {
      return;
    }
    subdevicePosition, k := FindSubdevice(buffer, length, devicePosition, subvendorid, subdeviceid, lines, d.value);
    if subdevicePosition < 0 {
      return;
    }
    CopyName(buffer, length, subdevicePosition, devicename, devicenameMaxlen, lines, k.value);
  }

  // ---------- the names in a file of nested entries ----------

  /** The name of a node, or the default text when there is none. */
  function NameOr(at: Forest, fallback: string): string {
    if at.Tree? && at.head.Entry? then at.head.name else fallback
  }

  lemma LocatedName(lines: seq<Line>, hit: Option<nat>, at: Forest, fallback: string)
    requires Locates(lines, hit, at)
    ensures NameAt(lines, hit, fallback) == NameOr(at, fallback)
  {}

  /** Vendors, devices and subdevices: no scanner misreads a line of such a file, and the names
      are those of the walk; in ascending order, of the nodes with these keys. */
  lemma DeviceNames(doc: Document, keys: seq<nat>, fallback: string)
    requires NestedDocument(doc) && 1 <= |keys| <= 3
    ensures var lines := DocumentLines(doc);
            && PathReadable(Vendor, lines, 0, keys)
            && NameAt(lines, ScanPath(Vendor, lines, 0, keys), fallback) == NameOr(Walk(doc.vendors, keys), fallback)
            && (Ascending(doc.vendors) ==> Walk(doc.vendors, keys) == LookupPath(doc.vendors, keys))
  {
    DevicePath(doc, keys);
    LocatedName(DocumentLines(doc), ScanPath(Vendor, DocumentLines(doc), 0, keys), Walk(doc.vendors, keys), fallback);
    if Ascending(doc.vendors) {
      WalkIsLookup(doc.vendors, keys);
    }
  }

  /** Classes, subclasses and programming interfaces likewise. */
  lemma ClassNames(doc: Document, keys: seq<nat>, fallback: string)
    requires NestedDocument(doc) && 1 <= |keys| <= 3
    ensures var lines := DocumentLines(doc);
            && PathReadable(Class, lines, 0, keys)
            && NameAt(lines, ScanPath(Class, lines, 0, keys), fallback) == NameOr(Walk(doc.classes, keys), fallback)
            && (Ascending(doc.classes) ==> Walk(doc.classes, keys) == LookupPath(doc.classes, keys))
  {
    ClassPath(doc, keys);
    LocatedName(DocumentLines(doc), ScanPath(Class, DocumentLines(doc), 0, keys), Walk(doc.classes, keys), fallback);
    if Ascending(doc.classes) {
      WalkIsLookup(doc.classes, keys);
    }
  }
}
