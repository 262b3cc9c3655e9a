/** What one pass of a scanner over the lines means: which lines it passes, which stop it,
    which it compares, and which line it therefore finds. */
module PciIdsScan {
  import opened Machine
  import opened PciIdsText

  /** `Misread` is a line whose text the scanner would take for an entry of its own rank. */
  datatype Verdict = Pass | Halt | Compare(key: nat) | Misread

  function Judge(scan: Rank, line: Line): Verdict
  {
    if !line.Entry? then Pass
    else if line.rank == scan then Compare(line.key)
    else
      match scan
      case Vendor => if line.rank.Class? then Halt else Pass
      case Device =>
        (match line.rank
         case Class | Vendor => Halt
         case Subdevice | ProgIf => Pass
         case _ => Misread)
      case Subdevice => if line.rank.ProgIf? then Misread else Halt
      case Class => Pass
      case Subclass =>
        (match line.rank
         case Class => Halt
         case Subdevice | ProgIf => Pass
         case _ => Misread)
      case ProgIf =>
        (match line.rank
         case Class | Subclass | Device => Halt
         case _ => Misread)
  }

  /** What a scanner does with one line: goes on to the next, gives up, or returns it. */
  datatype Step = Skip | Stop | Found

  function Outcome(scan: Rank, line: Line, query: nat): Step {
    match Judge(scan, line)
    case Pass => Skip
    case Halt | Misread => Stop
    case Compare(key) => if key > query then Stop else if key == query then Found else Skip
  }

  /** The scanner is stopped before it would misread a line. */
  predicate Readable(scan: Rank, lines: seq<Line>, from: nat)
    requires from <= |lines|
    decreases |lines| - from
  {
    from == |lines| || Judge(scan, lines[from]).Halt?
    || (!Judge(scan, lines[from]).Misread? && Readable(scan, lines, from + 1))
  }

  /** The line found from line `from` on, giving up as soon as a greater key is met. */
  function Hit(scan: Rank, lines: seq<Line>, from: nat, query: nat): Option<nat>
    requires from <= |lines|
    decreases |lines| - from
  {
    if from == |lines| then None
    else
      match Outcome(scan, lines[from], query)
      case Skip => Hit(scan, lines, from + 1, query)
      case Stop => None
      case Found => Some(from)
  }

  /** The same without giving up: what a scanner that knew nothing of the order would find. */
  function FullHit(scan: Rank, lines: seq<Line>, from: nat, query: nat): Option<nat>
    requires from <= |lines|
    decreases |lines| - from
  {
    if from == |lines| then None
    else
      match Judge(scan, lines[from])
      case Pass => FullHit(scan, lines, from + 1, query)
      case Halt | Misread => None
      case Compare(key) =>
        if key == query then Some(from) else FullHit(scan, lines, from + 1, query)
  }

  /** The buffer offset a scanner returns for what it found. */
  function Position(lines: seq<Line>, hit: Option<nat>): int {
    if hit.None? || hit.value >= |lines| || !lines[hit.value].Entry? then -1
    else NameOffset(lines, hit.value)
  }

  /** A line a scanner can get to is not misread. */
  lemma NotMisread(scan: Rank, lines: seq<Line>, k: nat)
    requires k < |lines| && Readable(scan, lines, k)
    ensures !Judge(scan, lines[k]).Misread?
  {}

  /** What one line settles: giving up there, the line is not in the file; finding it there, its
      name is; otherwise the search is the same from the next line on. */
  lemma StepTaken(scan: Rank, lines: seq<Line>, k: nat, query: nat, hit: Option<nat>, step: Step)
    requires k < |lines| && Readable(scan, lines, k) && hit == Hit(scan, lines, k, query)
    requires step == Outcome(scan, lines[k], query)
    ensures step.Stop? ==> Position(lines, hit) == -1
    ensures step.Found? ==> Position(lines, hit) == NameOffset(lines, k)
    ensures step.Skip? ==> Readable(scan, lines, k + 1) && Hit(scan, lines, k + 1, query) == hit
  {}

  /** The vendor and class scanners take no line for what it is not. */
  lemma {:induction false} TopReadable(scan: Rank, lines: seq<Line>, k: nat)
    requires k <= |lines| && (scan.Vendor? || scan.Class?)
    ensures Readable(scan, lines, k)
    decreases |lines| - k
  {
    if k < |lines| {
      TopReadable(scan, lines, k + 1);
    }
  }

  // ---------- exact meaning ----------

  ghost predicate Reached(scan: Rank, lines: seq<Line>, from: nat, i: nat)
    requires i <= |lines|
  {
    forall j | from <= j < i :: Judge(scan, lines[j]).Pass? || Judge(scan, lines[j]).Compare?
  }

  /** Line `i` is an entry the scanner reaches, with this key. */
  ghost predicate EntryAt(scan: Rank, lines: seq<Line>, from: nat, i: nat, key: nat)
    requires i < |lines|
  {
    from <= i && Reached(scan, lines, from, i) && Judge(scan, lines[i]) == Compare(key)
  }

  /** The scanner finds `i` exactly when `i` is an entry of its own rank with that key, and
      everything before it is passed over or has a smaller key. Sorted or not, a line that
      is found has the identifier asked for. */
  lemma {:induction false} HitExact(scan: Rank, lines: seq<Line>, from: nat, query: nat, i: nat)
    requires from <= |lines| && i < |lines|
    ensures Hit(scan, lines, from, query) == Some(i)
       <==> && EntryAt(scan, lines, from, i, query)
            && forall j | from <= j < i && Judge(scan, lines[j]).Compare? ::
                 Judge(scan, lines[j]).key < query
    decreases |lines| - from
  {
    if from < |lines| {
      HitExact(scan, lines, from + 1, query, i);
      HitInRange(scan, lines, from + 1, query);
    }
  }

  lemma {:induction false} HitInRange(scan: Rank, lines: seq<Line>, from: nat, query: nat)
    requires from <= |lines|
    ensures var r := Hit(scan, lines, from, query);
            r.Some? ==> from <= r.value < |lines| && lines[r.value].Entry? && lines[r.value].rank == scan
    decreases |lines| - from
  {
    if from < |lines| {
      HitInRange(scan, lines, from + 1, query);
    }
  }

  lemma {:induction false} FullHitExact(scan: Rank, lines: seq<Line>, from: nat, query: nat)
    requires from <= |lines|
    ensures var r := FullHit(scan, lines, from, query);
            && (r.Some? ==>
                  && r.value < |lines| && EntryAt(scan, lines, from, r.value, query)
                  && forall j | from <= j < r.value :: Judge(scan, lines[j]) != Compare(query))
            && (r.None? ==> forall i | from <= i < |lines| :: !EntryAt(scan, lines, from, i, query))
    decreases |lines| - from
  {
    if from < |lines| {
      FullHitExact(scan, lines, from + 1, query);
      var r := FullHit(scan, lines, from, query);
      forall i | from < i < |lines| && EntryAt(scan, lines, from, i, query)
        ensures EntryAt(scan, lines, from + 1, i, query)
      {
        assert Reached(scan, lines, from + 1, i);
      }
    }
  }

  /** The first entry of each key comes after smaller keys only. Ascending keys satisfy this. */
  ghost predicate FirstsAscend(scan: Rank, lines: seq<Line>, from: nat)
  {
    forall i: nat, key: nat | from <= i < |lines| && EntryAt(scan, lines, from, i, key) ::
      FirstOrAscending(scan, lines, from, i, key)
  }

  ghost predicate FirstOrAscending(scan: Rank, lines: seq<Line>, from: nat, i: nat, key: nat)
    requires i < |lines|
  {
    || (exists j :: from <= j < i && Judge(scan, lines[j]) == Compare(key))
    || forall j | from <= j < i && Judge(scan, lines[j]).Compare? :: Judge(scan, lines[j]).key < key
  }

  ghost predicate EarlyStopAgrees(scan: Rank, lines: seq<Line>, from: nat)
    requires from <= |lines|
  {
    forall query: nat :: Hit(scan, lines, from, query) == FullHit(scan, lines, from, query)
  }

  /** Stopping early loses nothing, for every query, exactly when first entries ascend. */
  lemma EarlyStopExact(scan: Rank, lines: seq<Line>, from: nat)
    requires from <= |lines|
    ensures EarlyStopAgrees(scan, lines, from) <==> FirstsAscend(scan, lines, from)
  {
    if EarlyStopAgrees(scan, lines, from) {
      forall i: nat, key: nat | from <= i < |lines| && EntryAt(scan, lines, from, i, key)
        ensures FirstOrAscending(scan, lines, from, i, key)
      {
        assert Hit(scan, lines, from, key) == FullHit(scan, lines, from, key);
        FullHitExact(scan, lines, from, key);
        HitExact(scan, lines, from, key, i);
      }
    }
    if FirstsAscend(scan, lines, from) {
      forall query: nat ensures Hit(scan, lines, from, query) == FullHit(scan, lines, from, query) {
        EarlyStopHarmless(scan, lines, from, query);
      }
    }
  }

  lemma EarlyStopHarmless(scan: Rank, lines: seq<Line>, from: nat, query: nat)
    requires from <= |lines|
    requires FirstsAscend(scan, lines, from)
    ensures Hit(scan, lines, from, query) == FullHit(scan, lines, from, query)
  {
    FullHitExact(scan, lines, from, query);
    HitInRange(scan, lines, from, query);
    var full, hit := FullHit(scan, lines, from, query), Hit(scan, lines, from, query);
    if full.Some? {
      assert FirstOrAscending(scan, lines, from, full.value, query);
      HitExact(scan, lines, from, query, full.value);
    } else if hit.Some? {
      HitExact(scan, lines, from, query, hit.value);
    }
  }
}
