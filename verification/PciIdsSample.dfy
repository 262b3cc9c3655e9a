/** A small `pci.ids` spelt out character by character, and what is looked up in it: the notation
    of the file, tied to its literal text. */
module PciIdsSample {
  import opened PciGetname
  import opened PciIdsText
  import opened PciIdsTree

  const INTEL := Entry(Vendor, 0x8086, "8086", 2, "Intel")
  const CARD := Entry(Device, 0x12aF, "12aF", 2, "82557")
  const MODEL := Entry(Subdevice, 0x103c_0001, "103c 0001", 2, "NetServer")
  const SERIAL := Entry(Class, 0x0c, "0c", 2, "Serial bus")
  const USB := Entry(Subclass, 0x03, "03", 2, "USB")
  const OHCI := Entry(ProgIf, 0x10, "10", 2, "OHCI")

  function Sample(): Document {
    Document(Tree([Comment(" Vendors"), Blank], INTEL, Tree([], CARD, Tree([], MODEL, Bare, Bare), Bare), Bare),
             Tree([Blank], SERIAL, Tree([], USB, Tree([], OHCI, Bare, Bare), Bare), Bare), [])
  }

  lemma Digits()
    ensures Htoi('0') == 0 && Htoi('1') == 1 && Htoi('2') == 2 && Htoi('3') == 3 && Htoi('6') == 6
    ensures Htoi('8') == 8 && Htoi('a') == 10 && Htoi('F') == 15 && Htoi('c') == 12
  {}

  lemma WellFormedVendor()
    ensures WellFormed(INTEL)
  {
    Digits();
    HexOf4("8086");
  }

  lemma WellFormedDevice()
    ensures WellFormed(CARD)
  {
    Digits();
    HexOf4("12aF");
  }

  lemma WellFormedModel()
    ensures WellFormed(MODEL)
  {
    Digits();
    var id := "103c 0001";
    assert id[..4] == "103c" && id[5..] == "0001";
    HexOf4("103c");
    HexOf4("0001");
  }

  lemma WellFormedClass()
    ensures WellFormed(SERIAL)
  {
    Digits();
    HexOf2("0c");
  }

  lemma WellFormedLower()
    ensures WellFormed(USB) && WellFormed(OHCI)
  {
    Digits();
    HexOf2("03");
    HexOf2("10");
  }

  lemma SampleLines()
    ensures DocumentLines(Sample()) == [Comment(" Vendors"), Blank, INTEL, CARD, MODEL, Blank, SERIAL, USB, OHCI]
  {}

  lemma VendorTexts()
    ensures LineText(Comment(" Vendors")) == "# Vendors\n" && LineText(Blank) == "\n"
    ensures LineText(INTEL) == "8086  Intel\n" && LineText(CARD) == "\t12aF  82557\n"
    ensures LineText(MODEL) == "\t\t103c 0001  NetServer\n"
  {
    assert Spaces(2) == "  ";
  }

  lemma ClassTexts()
    ensures LineText(SERIAL) == "C 0c  Serial bus\n"
    ensures LineText(USB) == "\t03  USB\n" && LineText(OHCI) == "\t\t10  OHCI\n"
  {
    assert Spaces(2) == "  ";
  }

  lemma JoinedMore(parts: seq<string>, part: string)
    ensures Joined(parts + [part]) == Joined(parts) + part
  {
    assert (parts + [part])[..|parts|] == parts;
  }

  lemma JoinedThree(before: seq<string>, a: string, b: string, c: string)
    ensures Joined(before + [a, b, c]) == Joined(before) + a + b + c
  {
    assert before + [a] + [b] + [c] == before + [a, b, c];
    JoinedMore(before, a);
    JoinedMore(before + [a], b);
    JoinedMore(before + [a] + [b], c);
  }

  lemma JoinedNine(a: string, b: string, c: string, d: string, e: string, f: string, g: string, h: string, i: string)
    ensures Joined([a, b, c, d, e, f, g, h, i]) == a + b + c + d + e + f + g + h + i
  {
    assert [] + [a, b, c] == [a, b, c] && [a, b, c] + [d, e, f] == [a, b, c, d, e, f];
    assert [a, b, c, d, e, f] + [g, h, i] == [a, b, c, d, e, f, g, h, i];
    JoinedThree([], a, b, c);
    JoinedThree([a, b, c], d, e, f);
    JoinedThree([a, b, c, d, e, f], g, h, i);
  }

  lemma TextsOfNine(a: Line, b: Line, c: Line, d: Line, e: Line, f: Line, g: Line, h: Line, i: Line)
    ensures Text([a, b, c, d, e, f, g, h, i])
         == LineText(a) + LineText(b) + LineText(c) + LineText(d) + LineText(e)
          + LineText(f) + LineText(g) + LineText(h) + LineText(i)
  {
    assert Texts([a, b, c, d, e, f, g, h, i])
        == [LineText(a), LineText(b), LineText(c), LineText(d), LineText(e),
            LineText(f), LineText(g), LineText(h), LineText(i)];
    JoinedNine(LineText(a), LineText(b), LineText(c), LineText(d), LineText(e),
               LineText(f), LineText(g), LineText(h), LineText(i));
  }

  /** The notation, character by character: these lines are that text. */
  lemma SampleText(lines: seq<Line>)
    requires lines == DocumentLines(Sample())
    ensures Text(lines) == "# Vendors\n" + "\n" + "8086  Intel\n" + "\t12aF  82557\n" + "\t\t103c 0001  NetServer\n"
                         + "\n" + "C 0c  Serial bus\n" + "\t03  USB\n" + "\t\t10  OHCI\n"
  {
    SampleLines();
    VendorTexts();
    ClassTexts();
    TextsOfNine(Comment(" Vendors"), Blank, INTEL, CARD, MODEL, Blank, SERIAL, USB, OHCI);
  }

  lemma SampleWellFormed(lines: seq<Line>)
    requires lines == DocumentLines(Sample())
    ensures AllWellFormed(lines)
  {
    SampleLines();
    WellFormedVendor();
    WellFormedDevice();
    WellFormedModel();
    WellFormedClass();
    WellFormedLower();
    AllOfNine(lines, Comment(" Vendors"), Blank, INTEL, CARD, MODEL, Blank, SERIAL, USB, OHCI);
  }

  lemma AllOfNine(lines: seq<Line>, a: Line, b: Line, c: Line, d: Line, e: Line, f: Line, g: Line, h: Line, i: Line)
    requires lines == [a, b, c, d, e, f, g, h, i]
    requires WellFormed(a) && WellFormed(b) && WellFormed(c) && WellFormed(d) && WellFormed(e)
    requires WellFormed(f) && WellFormed(g) && WellFormed(h) && WellFormed(i)
    ensures AllWellFormed(lines)
  {}

  lemma SampleNested()
    ensures NestedDocument(Sample())
  {}

  lemma SampleWalks()
    ensures NameOr(Walk(Sample().vendors, [0x8086]), "") == "Intel"
    ensures NameOr(Walk(Sample().vendors, [0x8086, 0x12af]), "") == "82557"
    ensures NameOr(Walk(Sample().vendors, [0x8086, 0x12af, 0x103c_0001]), "") == "NetServer"
    ensures NameOr(Walk(Sample().classes, [0x0c, 0x03]), "") == "USB"
    ensures NameOr(Walk(Sample().classes, [0x0c, 0x03, 0x10]), "") == "OHCI"
    ensures NameOr(Walk(Sample().classes, [0x0c, 0x10, 0x03]), "none") == "none"
  {}

  /** What the look-ups find in it; subclass and programming interface are not mixed up. */
  lemma SampleNames(lines: seq<Line>)
    requires lines == DocumentLines(Sample())
    ensures NameAt(lines, ScanPath(Vendor, lines, 0, [0x8086]), "") == "Intel"
    ensures NameAt(lines, ScanPath(Vendor, lines, 0, [0x8086, 0x12af]), "") == "82557"
    ensures NameAt(lines, ScanPath(Vendor, lines, 0, [0x8086, 0x12af, SubKey(0x103c, 1)]), "") == "NetServer"
    ensures NameAt(lines, ScanPath(Class, lines, 0, [0x0c, 0x03]), "") == "USB"
    ensures NameAt(lines, ScanPath(Class, lines, 0, [0x0c, 0x03, 0x10]), "") == "OHCI"
    ensures NameAt(lines, ScanPath(Class, lines, 0, [0x0c, 0x10, 0x03]), "none") == "none"
  {
    SampleNested();
    SampleWalks();
    DeviceNames(Sample(), [0x8086], "");
    DeviceNames(Sample(), [0x8086, 0x12af], "");
    DeviceNames(Sample(), [0x8086, 0x12af, SubKey(0x103c, 1)], "");
    ClassNames(Sample(), [0x0c, 0x03], "");
    ClassNames(Sample(), [0x0c, 0x03, 0x10], "");
    ClassNames(Sample(), [0x0c, 0x10, 0x03], "none");
  }
}
