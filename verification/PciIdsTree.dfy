/** The three-level trees a `pci.ids` file spells out, and the proof that scanning the file
    is walking the tree, and in a sorted one looking a path up. */
module PciIdsTree {
  import opened Machine
  import opened PciIdsScan
  import opened PciIdsText

  /** Sibling entries in file order: the blank lines and comments before the first one, its
      entry line, the entries below it, and its later siblings. */
  datatype Forest =
    | Bare
    | Tree(lead: seq<Line>, head: Line, children: Forest, rest: Forest)

  /** A whole file: vendors, then classes, then closing blank lines and comments. */
  datatype Document = Document(vendors: Forest, classes: Forest, tail: seq<Line>)

  // ---------- well-formed trees ----------

  function ChildRank(rank: Rank): Option<Rank> {
    match rank
    case Vendor => Some(Device)
    case Device => Some(Subdevice)
    case Class => Some(Subclass)
    case Subclass => Some(ProgIf)
    case _ => None
  }

  predicate Filler(lines: seq<Line>) {
    forall i | 0 <= i < |lines| :: !lines[i].Entry?
  }

  predicate EntryOf(rank: Rank, line: Line) {
    line.Entry? && line.rank == rank
  }

  /** Every entry lies below one of the next higher rank, in whatever order siblings are. */
  predicate Nested(rank: Rank, f: Forest)
    decreases f
  {
    f.Tree? ==>
      && Filler(f.lead)
      && EntryOf(rank, f.head)
      && (match ChildRank(rank)
          case None => f.children.Bare?
          case Some(child) => Nested(child, f.children))
      && Nested(rank, f.rest)
  }

  predicate NestedDocument(doc: Document) {
    Nested(Vendor, doc.vendors) && Nested(Class, doc.classes) && Filler(doc.tail)
  }

  /** The keys of siblings do not fall, at any level. */
  predicate Ascending(f: Forest)
    decreases f
  {
    f.Tree? ==>
      && f.head.Entry? && (f.rest.Tree? ==> f.rest.head.Entry? && f.head.key <= f.rest.head.key)
      && Ascending(f.children) && Ascending(f.rest)
  }

  // ---------- rendering and lookup ----------

  function ForestLines(f: Forest): seq<Line> {
    if f.Bare? then [] else f.lead + ([f.head] + (ForestLines(f.children) + ForestLines(f.rest)))
  }

  function Height(f: Forest): nat {
    |ForestLines(f)|
  }

  function DocumentLines(doc: Document): seq<Line> {
    ForestLines(doc.vendors) + (ForestLines(doc.classes) + doc.tail)
  }

  /** The siblings from the one with this key on, as a scanner that gives up at a greater key
      picks it; `Bare` when it picks none. */
  function Pick(f: Forest, key: nat): Forest {
    if f.Bare? || !f.head.Entry? || f.head.key > key then Bare
    else if f.head.key == key then f
    else Pick(f.rest, key)
  }

  /** The entry line of that sibling, when the forest is rendered from line `base` on. */
  function Place(f: Forest, base: nat, key: nat): Option<nat> {
    if f.Bare? || !f.head.Entry? || f.head.key > key then None
    else if f.head.key == key then Some(base + |f.lead|)
    else Place(f.rest, base + |f.lead| + 1 + Height(f.children), key)
  }

  /** The node at the end of a path of keys; `Bare` if the path breaks off. */
  function Walk(f: Forest, keys: seq<nat>): Forest
    requires keys != []
    decreases |keys|
  {
    var at := Pick(f, keys[0]);
    if at.Bare? || |keys| == 1 then at else Walk(at.children, keys[1..])
  }

  /** The entry line of that node. */
  function WalkPlace(f: Forest, base: nat, keys: seq<nat>): Option<nat>
    requires keys != []
    decreases |keys|
  {
    var place := Place(f, base, keys[0]);
    if place.None? || |keys| == 1 || Pick(f, keys[0]).Bare? then place
    else WalkPlace(Pick(f, keys[0]).children, place.value + 1, keys[1..])
  }

  // ---------- looking a path up ----------

  /** The siblings from the one with this key on, wherever it is. */
  function Lookup(f: Forest, key: nat): Forest {
    if f.Bare? || (f.head.Entry? && f.head.key == key) then f else Lookup(f.rest, key)
  }

  /** The node with this path of keys; `Bare` if there is none. */
  function LookupPath(f: Forest, keys: seq<nat>): Forest
    requires keys != []
    decreases |keys|
  {
    var at := Lookup(f, keys[0]);
    if at.Bare? || |keys| == 1 then at else LookupPath(at.children, keys[1..])
  }

  lemma {:induction false} NoneBehind(f: Forest, key: nat)
    requires Ascending(f) && (f.Tree? ==> f.head.key > key)
    ensures Lookup(f, key) == Bare
    decreases f
  {
    if f.Tree? {
      NoneBehind(f.rest, key);
    }
  }

  lemma {:induction false} PickIsLookup(f: Forest, key: nat)
    requires Ascending(f)
    ensures Pick(f, key) == Lookup(f, key) && Ascending(Lookup(f, key))
    decreases f
  {
    if f.Tree? {
      PickIsLookup(f.rest, key);
      if f.head.key > key {
        NoneBehind(f, key);
      }
    }
  }

  /** In ascending trees giving up early loses nothing: the walk is the look-up. */
  lemma {:induction false} WalkIsLookup(f: Forest, keys: seq<nat>)
    requires Ascending(f) && keys != []
    ensures Walk(f, keys) == LookupPath(f, keys)
    decreases |keys|
  {
    PickIsLookup(f, keys[0]);
    if Lookup(f, keys[0]).Tree? && |keys| > 1 {
      WalkIsLookup(Lookup(f, keys[0]).children, keys[1..]);
    }
  }

  // ---------- lines in place ----------

  /** The lines from `base` on are those of `part`. */
  ghost predicate RendersAt(lines: seq<Line>, base: nat, part: seq<Line>) {
    base + |part| <= |lines| && forall k | 0 <= k < |part| :: part[k] == lines[base + k]
  }

  lemma RendersBoth(lines: seq<Line>, base: nat, a: seq<Line>, b: seq<Line>)
    requires RendersAt(lines, base, a + b)
    ensures RendersAt(lines, base, a) && RendersAt(lines, base + |a|, b)
  {
    forall k | 0 <= k < |a| ensures a[k] == lines[base + k] {
      assert a[k] == (a + b)[k];
    }
    forall k | 0 <= k < |b| ensures b[k] == lines[base + |a| + k] {
      assert b[k] == (a + b)[|a| + k];
    }
  }

  /** Where the parts of a rendered forest are. */
  lemma Parts(lines: seq<Line>, base: nat, f: Forest)
    requires f.Tree? && RendersAt(lines, base, ForestLines(f))
    ensures RendersAt(lines, base, f.lead)
    ensures base + |f.lead| < |lines| && lines[base + |f.lead|] == f.head
    ensures RendersAt(lines, base + |f.lead| + 1, ForestLines(f.children))
    ensures RendersAt(lines, base + |f.lead| + 1 + Height(f.children), ForestLines(f.rest))
    ensures Height(f) == |f.lead| + 1 + Height(f.children) + Height(f.rest)
  {
    var below := ForestLines(f.children) + ForestLines(f.rest);
    RendersBoth(lines, base, f.lead, [f.head] + below);
    RendersBoth(lines, base + |f.lead|, [f.head], below);
    RendersBoth(lines, base + |f.lead| + 1, ForestLines(f.children), ForestLines(f.rest));
    assert [f.head][0] == lines[base + |f.lead|];
  }

  // ---------- passing over lines, and stopping ----------

  lemma {:induction false} PassRun(scan: Rank, lines: seq<Line>, from: nat, to: nat, query: nat)
    requires from <= to <= |lines|
    requires forall j | from <= j < to :: Judge(scan, lines[j]).Pass?
    ensures Hit(scan, lines, from, query) == Hit(scan, lines, to, query)
    ensures Readable(scan, lines, from) == Readable(scan, lines, to)
    decreases |lines| - from
  {
    if from < to {
      PassRun(scan, lines, from + 1, to, query);
    }
  }

  lemma PassPart(scan: Rank, lines: seq<Line>, base: nat, part: seq<Line>, query: nat)
    requires RendersAt(lines, base, part)
    requires forall k | 0 <= k < |part| :: Judge(scan, part[k]).Pass?
    ensures Hit(scan, lines, base, query) == Hit(scan, lines, base + |part|, query)
    ensures Readable(scan, lines, base) == Readable(scan, lines, base + |part|)
  {
    forall j | base <= j < base + |part| ensures Judge(scan, lines[j]).Pass? {
      assert part[j - base] == lines[j];
    }
    PassRun(scan, lines, base, base + |part|, query);
  }

  /** From here the scanner meets nothing to compare before it is stopped. */
  predicate Quiet(scan: Rank, lines: seq<Line>, from: nat)
    requires from <= |lines|
    decreases |lines| - from
  {
    from == |lines| || Judge(scan, lines[from]).Halt?
    || (Judge(scan, lines[from]).Pass? && Quiet(scan, lines, from + 1))
  }

  lemma {:induction false} QuietFindsNothing(scan: Rank, lines: seq<Line>, from: nat, query: nat)
    requires from <= |lines| && Quiet(scan, lines, from)
    ensures Hit(scan, lines, from, query) == None && Readable(scan, lines, from)
    decreases |lines| - from
  {
    if from < |lines| && Judge(scan, lines[from]).Pass? {
      QuietFindsNothing(scan, lines, from + 1, query);
    }
  }

  /** The scanner of this rank and those of all lower ranks are quiet. */
  predicate AllQuiet(rank: Rank, lines: seq<Line>, from: nat)
    requires from <= |lines|
  {
    && Quiet(rank, lines, from)
    && match rank
       case Vendor => Quiet(Device, lines, from) && Quiet(Subdevice, lines, from)
       case Device => Quiet(Subdevice, lines, from)
       case Class => Quiet(Subclass, lines, from) && Quiet(ProgIf, lines, from)
       case Subclass => Quiet(ProgIf, lines, from)
       case _ => true
  }

  lemma {:induction false} QuietBefore(scan: Rank, lines: seq<Line>, from: nat, lead: seq<Line>)
    requires Filler(lead) && RendersAt(lines, from, lead)
    requires from + |lead| < |lines| ==> Judge(scan, lines[from + |lead|]).Halt?
    ensures Quiet(scan, lines, from)
    decreases |lead|
  {
    if lead != [] {
      assert lead == lead[..1] + lead[1..];
      RendersBoth(lines, from, lead[..1], lead[1..]);
      assert lead[0] == lines[from];
      QuietBefore(scan, lines, from + 1, lead[1..]);
    }
  }

  /** An entry stops every scanner of a lower rank of its own family. */
  lemma HeadStopsLower(rank: Rank, lines: seq<Line>, base: nat, f: Forest)
    requires ChildRank(rank).Some? && Nested(rank, f) && f.Tree? && RendersAt(lines, base, ForestLines(f))
    ensures AllQuiet(ChildRank(rank).value, lines, base)
  {
    Parts(lines, base, f);
    QuietBefore(ChildRank(rank).value, lines, base, f.lead);
    if ChildRank(ChildRank(rank).value).Some? {
      QuietBefore(ChildRank(ChildRank(rank).value).value, lines, base, f.lead);
    }
  }

  // ---------- one forest ----------

  /** A forest rendered at `base`, with what stops its scanners behind it. */
  ghost predicate Scannable(rank: Rank, lines: seq<Line>, base: nat, f: Forest) {
    Nested(rank, f) && RendersAt(lines, base, ForestLines(f)) && AllQuiet(rank, lines, base + Height(f))
  }

  lemma ScannableRest(rank: Rank, lines: seq<Line>, base: nat, f: Forest)
    requires Scannable(rank, lines, base, f) && f.Tree?
    ensures Scannable(rank, lines, base + |f.lead| + 1 + Height(f.children), f.rest)
  {
    Parts(lines, base, f);
    assert base + Height(f) == base + |f.lead| + 1 + Height(f.children) + Height(f.rest);
  }

  /** The children of an entry are ready for the scanner of the next rank, started behind
      the entry's own line. */
  lemma ScannableChildren(rank: Rank, lines: seq<Line>, base: nat, f: Forest)
    requires Scannable(rank, lines, base, f) && f.Tree? && ChildRank(rank).Some?
    ensures Scannable(ChildRank(rank).value, lines, base + |f.lead| + 1, f.children)
  {
    Parts(lines, base, f);
    if f.rest.Tree? {
      HeadStopsLower(rank, lines, base + |f.lead| + 1 + Height(f.children), f.rest);
    } else {
      assert base + Height(f) == base + |f.lead| + 1 + Height(f.children);
    }
  }

  /** A scanner passes over everything below an entry of its own rank. */
  lemma {:induction false} ChildrenPass(rank: Rank, child: Rank, f: Forest)
    requires Nested(child, f)
    requires ChildRank(rank) == Some(child)
          || (ChildRank(rank).Some? && ChildRank(ChildRank(rank).value) == Some(child))
    ensures forall k | 0 <= k < Height(f) :: Judge(rank, ForestLines(f)[k]).Pass?
    decreases f
  {
    if f.Tree? {
      if ChildRank(child).Some? {
        ChildrenPass(rank, ChildRank(child).value, f.children);
      }
      ChildrenPass(rank, child, f.rest);
      assert Judge(rank, f.head).Pass?;
    }
  }

  /** What the first entry of a forest does to a scanner of its rank. */
  lemma ScanFirst(rank: Rank, lines: seq<Line>, base: nat, f: Forest, query: nat)
    requires Nested(rank, f) && f.Tree? && RendersAt(lines, base, ForestLines(f))
    ensures var after := base + |f.lead| + 1 + Height(f.children);
            && after <= |lines|
            && Hit(rank, lines, base, query)
               == (if f.head.key > query then None
                   else if f.head.key == query then Some(base + |f.lead|)
                   else Hit(rank, lines, after, query))
            && Readable(rank, lines, base) == Readable(rank, lines, after)
  {
    Parts(lines, base, f);
    PassPart(rank, lines, base, f.lead, query);
    if ChildRank(rank).Some? {
      ChildrenPass(rank, ChildRank(rank).value, f.children);
    }
    PassPart(rank, lines, base + |f.lead| + 1, ForestLines(f.children), query);
    assert Judge(rank, lines[base + |f.lead|]) == Compare(f.head.key);
  }

  /** Scanning a rendered forest misreads nothing and finds exactly the sibling picked. */
  lemma {:induction false} ScanForest(rank: Rank, lines: seq<Line>, base: nat, f: Forest, query: nat)
    requires Scannable(rank, lines, base, f)
    ensures Readable(rank, lines, base)
    ensures Hit(rank, lines, base, query) == Place(f, base, query)
    decreases f
  {
    if f.Bare? {
      QuietFindsNothing(rank, lines, base, query);
    } else {
      ScanFirst(rank, lines, base, f, query);
      ScannableRest(rank, lines, base, f);
      ScanForest(rank, lines, base + |f.lead| + 1 + Height(f.children), f.rest, query);
    }
  }

  /** The place of a key is the entry line of the node picked, whose children are ready to
      be scanned from the line after it. */
  lemma {:induction false} PlacePicks(rank: Rank, lines: seq<Line>, base: nat, f: Forest, key: nat)
    requires Scannable(rank, lines, base, f)
    ensures var place, at := Place(f, base, key), Pick(f, key);
            && place.Some? == at.Tree?
            && (at.Tree? ==>
                  && place.value < |lines| && lines[place.value] == at.head
                  && EntryOf(rank, at.head) && at.head.key == key
                  && (ChildRank(rank).Some? ==>
                        Scannable(ChildRank(rank).value, lines, place.value + 1, at.children)))
    decreases f
  {
    if f.Tree? {
      if f.head.key == key {
        Parts(lines, base, f);
        if ChildRank(rank).Some? {
          ScannableChildren(rank, lines, base, f);
        }
      } else if f.head.key < key {
        ScannableRest(rank, lines, base, f);
        PlacePicks(rank, lines, base + |f.lead| + 1 + Height(f.children), f.rest, key);
      }
    }
  }

  // ---------- whole files ----------

  /** The class scanner passes over the whole vendor section. */
  lemma {:induction false} VendorsPass(rank: Rank, f: Forest)
    requires Nested(rank, f) && (rank.Vendor? || rank.Device? || rank.Subdevice?)
    ensures forall k | 0 <= k < Height(f) :: Judge(Class, ForestLines(f)[k]).Pass?
    decreases f
  {
    if f.Tree? {
      if ChildRank(rank).Some? {
        VendorsPass(ChildRank(rank).value, f.children);
      }
      VendorsPass(rank, f.rest);
      assert Judge(Class, f.head).Pass?;
    }
  }

  lemma RendersThree(a: seq<Line>, b: seq<Line>, c: seq<Line>)
    ensures RendersAt(a + (b + c), 0, a)
    ensures RendersAt(a + (b + c), |a|, b)
    ensures RendersAt(a + (b + c), |a| + |b|, c)
    ensures |a + (b + c)| == |a| + |b| + |c|
  {
    RendersBoth(a + (b + c), 0, a, b + c);
    RendersBoth(a + (b + c), |a|, b, c);
  }

  /** The two sections of a file are ready for their scanners. */
  lemma Sections(doc: Document)
    requires NestedDocument(doc)
    ensures Scannable(Vendor, DocumentLines(doc), 0, doc.vendors)
    ensures Scannable(Class, DocumentLines(doc), Height(doc.vendors), doc.classes)
  {
    RendersThree(ForestLines(doc.vendors), ForestLines(doc.classes), doc.tail);
    SectionsRendered(DocumentLines(doc), Height(doc.vendors), doc.vendors, doc.classes, doc.tail);
  }

  lemma SectionsRendered(lines: seq<Line>, start: nat, vendors: Forest, classes: Forest, tail: seq<Line>)
    requires Nested(Vendor, vendors) && Nested(Class, classes) && Filler(tail) && start == Height(vendors)
    requires RendersAt(lines, 0, ForestLines(vendors)) && RendersAt(lines, start, ForestLines(classes))
    requires RendersAt(lines, start + Height(classes), tail) && start + Height(classes) + |tail| == |lines|
    ensures Scannable(Vendor, lines, 0, vendors) && Scannable(Class, lines, start, classes)
  {
    QuietSection(lines, start + Height(classes), tail);
    ClassesStopVendors(lines, start, classes);
  }

  lemma QuietSection(lines: seq<Line>, from: nat, lead: seq<Line>)
    requires Filler(lead) && RendersAt(lines, from, lead) && from + |lead| == |lines|
    ensures AllQuiet(Vendor, lines, from) && AllQuiet(Class, lines, from)
  {
    forall scan: Rank ensures Quiet(scan, lines, from) {
      QuietBefore(scan, lines, from, lead);
    }
  }

  lemma ClassesStopVendors(lines: seq<Line>, from: nat, f: Forest)
    requires Nested(Class, f) && RendersAt(lines, from, ForestLines(f))
    requires AllQuiet(Vendor, lines, from + Height(f))
    ensures AllQuiet(Vendor, lines, from)
  {
    if f.Tree? {
      Parts(lines, from, f);
      QuietBefore(Vendor, lines, from, f.lead);
      QuietBefore(Device, lines, from, f.lead);
      QuietBefore(Subdevice, lines, from, f.lead);
    }
  }

  lemma ClassStart(doc: Document, query: nat)
    requires NestedDocument(doc)
    ensures var lines, c := DocumentLines(doc), Height(doc.vendors);
            && c <= |lines|
            && Hit(Class, lines, 0, query) == Hit(Class, lines, c, query)
            && Readable(Class, lines, 0) == Readable(Class, lines, c)
  {
    RendersThree(ForestLines(doc.vendors), ForestLines(doc.classes), doc.tail);
    VendorsPass(Vendor, doc.vendors);
    PassPart(Class, DocumentLines(doc), 0, ForestLines(doc.vendors), query);
  }

  // ---------- whole paths ----------

  /** The line the chained scanners reach: the first from `start`, each next one from the
      line after what the one before it found. */
  function ScanPath(rank: Rank, lines: seq<Line>, start: nat, keys: seq<nat>): Option<nat>
    requires keys != [] && start <= |lines|
    decreases |keys|
  {
    var hit := Hit(rank, lines, start, keys[0]);
    if |keys| == 1 || hit.None? || hit.value >= |lines| || ChildRank(rank).None? then hit
    else ScanPath(ChildRank(rank).value, lines, hit.value + 1, keys[1..])
  }

  /** A line index that is the entry line of the node, or nothing when there is no node. */
  predicate Locates(lines: seq<Line>, hit: Option<nat>, at: Forest) {
    hit.Some? == at.Tree? && (at.Tree? ==> hit.value < |lines| && lines[hit.value] == at.head && at.head.Entry?)
  }

  /** No scanner along the way misreads a line. */
  predicate PathReadable(rank: Rank, lines: seq<Line>, start: nat, keys: seq<nat>)
    requires keys != [] && start <= |lines|
    decreases |keys|
  {
    && Readable(rank, lines, start)
    && var hit := Hit(rank, lines, start, keys[0]);
       (|keys| > 1 && hit.Some? && hit.value < |lines| && ChildRank(rank).Some? ==>
          PathReadable(ChildRank(rank).value, lines, hit.value + 1, keys[1..]))
  }

  /** The ranks from this one down. */
  function Levels(rank: Rank): nat {
    match rank
    case Vendor | Class => 3
    case Device | Subclass => 2
    case _ => 1
  }

  lemma {:induction false} ScanPathWalks(rank: Rank, lines: seq<Line>, base: nat, f: Forest, keys: seq<nat>)
    requires Scannable(rank, lines, base, f) && 1 <= |keys| <= Levels(rank)
    ensures PathReadable(rank, lines, base, keys)
    ensures ScanPath(rank, lines, base, keys) == WalkPlace(f, base, keys)
    ensures Locates(lines, WalkPlace(f, base, keys), Walk(f, keys))
    decreases |keys|
  {
    FirstOfPath(rank, lines, base, f, keys[0]);
    var at, place := Pick(f, keys[0]), Place(f, base, keys[0]);
    if |keys| > 1 && at.Tree? {
      ScanPathWalks(ChildRank(rank).value, lines, place.value + 1, at.children, keys[1..]);
      WalkOn(rank, lines, base, f, keys, keys[1..], at, place.value);
    }
  }

  /** Scanning and walking both go on from the first line found. */
  lemma WalkOn(rank: Rank, lines: seq<Line>, base: nat, f: Forest, keys: seq<nat>, rest: seq<nat>, at: Forest, k: nat)
    requires base <= |lines| && k < |lines| && ChildRank(rank).Some?
    requires |keys| > 1 && rest == keys[1..] && at == Pick(f, keys[0]) && at.Tree?
    requires Hit(rank, lines, base, keys[0]) == Some(k) == Place(f, base, keys[0]) && Readable(rank, lines, base)
    ensures Walk(f, keys) == Walk(at.children, rest) && WalkPlace(f, base, keys) == WalkPlace(at.children, k + 1, rest)
    ensures ScanPath(rank, lines, base, keys) == ScanPath(ChildRank(rank).value, lines, k + 1, rest)
    ensures PathReadable(rank, lines, base, keys) == PathReadable(ChildRank(rank).value, lines, k + 1, rest)
  {}

  /** The first search of a path, and that the next one can start from its line. */
  lemma FirstOfPath(rank: Rank, lines: seq<Line>, base: nat, f: Forest, key: nat)
    requires Scannable(rank, lines, base, f)
    ensures base <= |lines| && Readable(rank, lines, base)
    ensures var hit, at := Hit(rank, lines, base, key), Pick(f, key);
            && hit == Place(f, base, key) && Locates(lines, hit, at)
            && (at.Tree? && ChildRank(rank).Some? ==>
                  Scannable(ChildRank(rank).value, lines, hit.value + 1, at.children))
  {
    ScanForest(rank, lines, base, f, key);
    PlacePicks(rank, lines, base, f, key);
  }

  /** Vendor, device, subdevice: chaining the scanners over the file is walking the tree, also
      when its entries are not sorted. */
  lemma DevicePath(doc: Document, keys: seq<nat>)
    requires NestedDocument(doc) && 1 <= |keys| <= 3
    ensures PathReadable(Vendor, DocumentLines(doc), 0, keys)
    ensures ScanPath(Vendor, DocumentLines(doc), 0, keys) == WalkPlace(doc.vendors, 0, keys)
    ensures Locates(DocumentLines(doc), WalkPlace(doc.vendors, 0, keys), Walk(doc.vendors, keys))
  {
    Sections(doc);
    ScanPathWalks(Vendor, DocumentLines(doc), 0, doc.vendors, keys);
  }

  /** Class, subclass, programming interface: likewise, though the class scanner starts at
      the vendors. */
  lemma ClassPath(doc: Document, keys: seq<nat>)
    requires NestedDocument(doc) && 1 <= |keys| <= 3
    ensures PathReadable(Class, DocumentLines(doc), 0, keys)
    ensures ScanPath(Class, DocumentLines(doc), 0, keys)
         == WalkPlace(doc.classes, Height(doc.vendors), keys)
    ensures Locates(DocumentLines(doc), WalkPlace(doc.classes, Height(doc.vendors), keys),
                    Walk(doc.classes, keys))
  {
    Sections(doc);
    ClassStart(doc, keys[0]);
    ScanPathWalks(Class, DocumentLines(doc), Height(doc.vendors), doc.classes, keys);
  }
}
