/** The text of a `pci.ids` file: its lines, how each is spelt, and where each begins.

    A file is a sequence of lines. An entry line is the tabs (or "C ") of its rank, its
    fixed-width hexadecimal identifier, any number of spaces, a name, and a newline. */
module PciIdsText {
  datatype Rank = Vendor | Device | Subdevice | Class | Subclass | ProgIf

  /** `key` is the number an entry is sorted by and `id` its spelling; for a subdevice that
      is "ssss?dddd", subvendor and subdevice around one separator character. */
  datatype Line =
    | Blank
    | Comment(text: string)
    | Entry(rank: Rank, key: nat, id: string, gap: nat, name: string)

  // ---------- hexadecimal digits ----------

  predicate IsHexDigit(c: char) {
    '0' <= c <= '9' || 'A' <= c <= 'F' || 'a' <= c <= 'f'
  }

  function Htoi(car: char): (r: int)
    ensures IsHexDigit(car) ==>
              0 <= r < 16 && ("0123456789abcdef"[r] == car || "0123456789ABCDEF"[r] == car)
  {
    if 'A' <= car <= 'F' then car as int - 'A' as int + 10
    else if 'a' <= car <= 'f' then car as int - 'a' as int + 10
    else car as int - '0' as int
  }

  /** The digits, in either case. */
  lemma HexDigits(c: char)
    ensures IsHexDigit(c) <==> c in "0123456789abcdefABCDEF"
    ensures c in "0123456789" ==> "0123456789"[Htoi(c)] == c
  {
    var digits := "0123456789abcdefABCDEF";
    if IsHexDigit(c) {
      var k := if 'A' <= c <= 'F' then Htoi(c) + 6 else Htoi(c);
      assert digits[k] == c;
    }
  }

  predicate IsHex(s: string) {
    forall i | 0 <= i < |s| :: IsHexDigit(s[i])
  }

  /** The number a string of hexadecimal digits denotes. */
  function HexValue(s: string): nat
    requires IsHex(s)
  {
    if s == [] then 0 else 16 * HexValue(s[..|s| - 1]) + Htoi(s[|s| - 1])
  }

  lemma {:induction false} HexOf4(s: string)
    requires IsHex(s) && |s| == 4
    ensures HexValue(s) == ((Htoi(s[0]) * 16 + Htoi(s[1])) * 16 + Htoi(s[2])) * 16 + Htoi(s[3])
    ensures HexValue(s) < 0x1_0000
  {
    assert s[..3][..2] == s[..2];
    HexOf2(s[..2]);
    assert HexValue(s[..3]) == 16 * HexValue(s[..2]) + Htoi(s[2]);
  }

  lemma {:induction false} HexOf2(s: string)
    requires IsHex(s) && |s| == 2
    ensures HexValue(s) == Htoi(s[0]) * 16 + Htoi(s[1])
    ensures HexValue(s) < 0x100
  {
    assert HexValue(s[..1]) == Htoi(s[0]);
  }

  // ---------- lines ----------

  function Prefix(rank: Rank): string {
    match rank
    case Vendor => ""
    case Device => "\t"
    case Subdevice => "\t\t"
    case Class => "C "
    case Subclass => "\t"
    case ProgIf => "\t\t"
  }

  predicate WellFormedId(rank: Rank, id: string) {
    match rank
    case Vendor | Device => |id| == 4 && IsHex(id)
    case Subdevice => |id| == 9 && IsHex(id[..4]) && id[4] != '\n' && IsHex(id[5..])
    case Class | Subclass | ProgIf => |id| == 2 && IsHex(id)
  }

  /** The number by which the list is sorted; a subdevice is ordered by subvendor first. */
  function Key(rank: Rank, id: string): nat
    requires WellFormedId(rank, id)
  {
    if rank.Subdevice? then SubKey(HexValue(id[..4]), HexValue(id[5..])) else HexValue(id)
  }

  function SubKey(subvendor: nat, subdevice: nat): nat {
    subvendor * 0x1_0000 + subdevice
  }

  predicate WellFormed(line: Line) {
    match line
    case Blank => true
    case Comment(text) => '\n' !in text
    case Entry(rank, key, id, _, name) =>
      WellFormedId(rank, id) && key == Key(rank, id) && '\n' !in name && (name != [] ==> name[0] != ' ')
  }

  function Spaces(n: nat): (s: string)
    ensures |s| == n && forall i | 0 <= i < n :: s[i] == ' '
  {
    seq(n, _ => ' ')
  }

  function LineText(line: Line): string {
    match line
    case Blank => "\n"
    case Comment(text) => "#" + text + "\n"
    case Entry(rank, _, id, gap, name) => Prefix(rank) + id + Spaces(gap) + name + "\n"
  }

  /** How far into its line the name of an entry starts. */
  function NameColumn(line: Line): nat
    requires line.Entry?
  {
    |Prefix(line.rank)| + |line.id| + line.gap
  }

  /** A line ends in its only newline. */
  lemma LineEnds(line: Line)
    requires WellFormed(line)
    ensures var t := LineText(line);
            |t| > 0 && t[|t| - 1] == '\n' && forall m | 0 <= m < |t| - 1 :: t[m] != '\n'
  {
    if line.Entry? {
      var Entry(rank, _, id, gap, name) := line;
      forall i | 0 <= i < |id| ensures id[i] != '\n' {
        if rank.Subdevice? {
          assert i < 4 ==> id[i] == id[..4][i];
          assert i > 4 ==> id[i] == id[5..][i - 5];
        }
      }
    }
  }

  lemma EntryParts(line: Line)
    requires WellFormed(line) && line.Entry?
    ensures var t := LineText(line); var p := |Prefix(line.rank)|; var c := NameColumn(line);
            && c < |t|
            && t[..p] == Prefix(line.rank)
            && t[p..p + |line.id|] == line.id
            && (forall m | p + |line.id| <= m < c :: t[m] == ' ')
            && t[c..] == line.name + "\n" && t[c] != ' '
  {
    var rest := line.name + "\n";
    FourParts(Prefix(line.rank), line.id, Spaces(line.gap), rest, LineText(line));
    assert rest[0] != ' ';
  }

  lemma FourParts(a: string, b: string, c: string, d: string, t: string)
    requires t == a + b + c + d && d != []
    ensures t[..|a|] == a && t[|a|..|a| + |b|] == b
    ensures forall m | |a| + |b| <= m < |a| + |b| + |c| :: t[m] == c[m - |a| - |b|]
    ensures t[|a| + |b| + |c|..] == d && t[|a| + |b| + |c|] == d[0]
  {}

  // ---------- files ----------

  predicate AllWellFormed(lines: seq<Line>) {
    forall i {:trigger WellFormed(lines[i])} | 0 <= i < |lines| :: WellFormed(lines[i])
  }

  // Pieces of text laid end to end.

  function Joined(parts: seq<string>): string {
    if parts == [] then "" else Joined(parts[..|parts| - 1]) + parts[|parts| - 1]
  }

  function Start(parts: seq<string>, k: nat): nat
    requires k <= |parts|
  {
    if k == 0 then 0 else Start(parts, k - 1) + |parts[k - 1]|
  }

  lemma {:induction false} StartPrefix(parts: seq<string>, n: nat, k: nat)
    requires k <= n <= |parts|
    ensures Start(parts[..n], k) == Start(parts, k)
  {
    if k > 0 {
      StartPrefix(parts, n, k - 1);
    }
  }

  lemma {:induction false} StartMonotone(parts: seq<string>, j: nat, k: nat)
    requires j <= k <= |parts|
    ensures Start(parts, j) <= Start(parts, k)
  {
    if j < k {
      StartMonotone(parts, j, k - 1);
    }
  }

  lemma {:induction false} JoinedLength(parts: seq<string>)
    ensures |Joined(parts)| == Start(parts, |parts|)
  {
    if parts != [] {
      var n := |parts| - 1;
      JoinedLength(parts[..n]);
      StartPrefix(parts, n, n);
    }
  }

  /** Each part occupies exactly the characters from its start. */
  lemma {:induction false} PartAt(parts: seq<string>, k: nat, m: nat)
    requires k < |parts| && m < |parts[k]|
    ensures Start(parts, k) + |parts[k]| == Start(parts, k + 1) <= |Joined(parts)|
    ensures Joined(parts)[Start(parts, k) + m] == parts[k][m]
    decreases |parts|
  {
    var n := |parts| - 1;
    JoinedLength(parts);
    JoinedLength(parts[..n]);
    StartPrefix(parts, n, n);
    StartMonotone(parts, k + 1, |parts|);
    if k < n {
      StartPrefix(parts, n, k);
      PartAt(parts[..n], k, m);
    }
  }

  lemma WholePartAt(parts: seq<string>, k: nat, part: string)
    requires k < |parts| && part == parts[k]
    ensures Start(parts, k) + |part| == Start(parts, k + 1) <= |Joined(parts)|
    ensures forall m | 0 <= m < |part| :: part[m] == Joined(parts)[Start(parts, k) + m]
  {
    JoinedLength(parts);
    StartMonotone(parts, k + 1, |parts|);
    forall m | 0 <= m < |part| ensures part[m] == Joined(parts)[Start(parts, k) + m] {
      PartAt(parts, k, m);
    }
  }

  function Texts(lines: seq<Line>): seq<string> {
    seq(|lines|, i requires 0 <= i < |lines| => LineText(lines[i]))
  }

  function Text(lines: seq<Line>): string {
    Joined(Texts(lines))
  }

  /** The buffer offset at which line `k` starts. */
  function Offset(lines: seq<Line>, k: nat): nat
    requires k <= |lines|
  {
    Start(Texts(lines), k)
  }

  function NameOffset(lines: seq<Line>, k: nat): nat
    requires k < |lines| && lines[k].Entry?
  {
    Offset(lines, k) + NameColumn(lines[k])
  }

  /** Line `k` occupies the characters from its offset up to the next one's. */
  lemma LineAt(lines: seq<Line>, k: nat)
    requires k < |lines|
    ensures Offset(lines, k) + |LineText(lines[k])| == Offset(lines, k + 1) <= |Text(lines)|
    ensures forall m | 0 <= m < |LineText(lines[k])| ::
              LineText(lines[k])[m] == Text(lines)[Offset(lines, k) + m]
  {
    WholePartAt(Texts(lines), k, LineText(lines[k]));
  }

  lemma TextLength(lines: seq<Line>)
    ensures |Text(lines)| == Offset(lines, |lines|)
  {
    JoinedLength(Texts(lines));
  }
}
