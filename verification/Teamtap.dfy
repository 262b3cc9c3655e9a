/** The teamtap verdict of `joystick/joypad.c` and what it lets each pad report, over whole
    runs of frames. A frame is the four masked pad words of one port. */
module Teamtap {
  import opened Bits

  // ---------- keys ----------

  const UP: nat := 0x1
  const DOWN: nat := 0x2
  const LEFT: nat := 0x4
  const RIGHT: nat := 0x8
  const KPMULT: nat := 0x10
  const KP7: nat := 0x20
  const KP4: nat := 0x40
  const KP1: nat := 0x80
  const KP0: nat := 0x100
  const KP8: nat := 0x200
  const KP5: nat := 0x400
  const KP2: nat := 0x800
  const KPNUM: nat := 0x1000
  const KP9: nat := 0x2000
  const KP6: nat := 0x4000
  const KP3: nat := 0x8000
  const FIRE0: nat := 0x2_0000
  const FIRE1: nat := 0x8_0000
  const FIRE2: nat := 0x20_0000
  const OPTION: nat := 0x80_0000

  /** One row of the detection table: a key of the first pad, and the ghost keys the other
      three show for it when there is no teamtap. */
  datatype Row = Row(key: nat, ghosts1: nat, ghosts2: nat, ghosts3: nat)

  function RowAt(i: nat): Row
    requires i < 20
  {
    match i
    case 0 => Row(UP, UP + KP0, UP + KPNUM + KP0, KPMULT + KP0)
    case 1 => Row(DOWN, DOWN + KP8, DOWN + KP9 + KP8, KP7 + KP8)
    case 2 => Row(LEFT, LEFT + KP5, LEFT + KP6 + KP5, KP4 + KP5)
    case 3 => Row(RIGHT, RIGHT + KP2, RIGHT + KP3 + KP2, KP1 + KP2)
    case 4 => Row(OPTION, OPTION + FIRE1 + FIRE2, FIRE0 + FIRE1 + FIRE2, 0)
    case 5 => Row(FIRE0, FIRE2 + FIRE0, FIRE0 + OPTION + FIRE2, FIRE1 + FIRE2)
    case 6 => Row(FIRE1, FIRE0, OPTION + FIRE0 + FIRE1, FIRE0 + FIRE2)
    case 7 => Row(FIRE2, OPTION + FIRE0 + FIRE1 + FIRE2, OPTION, FIRE0 + FIRE1)
    case 8 => Row(KP1, RIGHT + KP1, RIGHT + KP1 + KP3, RIGHT + KP2)
    case 9 => Row(KP2, RIGHT + KP1 + KP2 + KP3, KP3, RIGHT + KP1)
    case 10 => Row(KP3, RIGHT + KP1 + KP2 + KP3, RIGHT + KP1 + KP2, 0)
    case 11 => Row(KP4, LEFT + KP4, LEFT + KP4 + KP6, LEFT + KP5)
    case 12 => Row(KP5, LEFT + KP4 + KP5 + KP6, KP6, LEFT + KP4)
    case 13 => Row(KP6, LEFT + KP4 + KP5 + KP6, LEFT + KP4 + KP5, 0)
    case 14 => Row(KP7, DOWN + KP7, DOWN + KP7 + KP9, DOWN + KP8)
    case 15 => Row(KP8, DOWN + KP7 + KP8 + KP9, KP9, DOWN + KP7)
    case 16 => Row(KP9, DOWN + KP7 + KP8 + KP9, DOWN + KP7 + KP8, 0)
    case 17 => Row(KPMULT, UP + KPMULT, UP + KPNUM, UP + KP0)
    case 18 => Row(KP0, UP + KPNUM + KPMULT + KP0, KPNUM, UP + KPMULT)
    case 19 => Row(KPNUM, UP + KPNUM + KPMULT + KP0, UP + KPMULT + KP0, 0)
  }

  // ---------- one frame ----------

  type Frame = f: seq<nat> | |f| == 4 witness [0, 0, 0, 0]

  datatype Verdict = Maybe | Yes | No

  /** A pad shows all of a set of keys. */
  predicate Shows(word: nat, keys: nat) {
    And(word, keys) == keys
  }

  predicate Ghosted(f: Frame, row: Row) {
    Shows(f[1], row.ghosts1) || Shows(f[2], row.ghosts2) || Shows(f[3], row.ghosts3)
  }

  /** Another pad is used while the first is idle. */
  predicate OtherPad(f: Frame) {
    f[0] == 0 && (f[1] != 0 || f[2] != 0 || f[3] != 0)
  }

  /** The first row from `i` on for the key pressed, or 20. */
  function FindRow(key: nat, i: nat): (r: nat)
    requires i <= 20
    ensures i <= r <= 20 && (r < 20 ==> RowAt(r).key == key)
    ensures forall j | i <= j < r :: RowAt(j).key != key
    decreases 20 - i
  {
    if i == 20 || RowAt(i).key == key then i else FindRow(key, i + 1)
  }

  /** What `detect_teamtap` makes of a frame while the verdict is open. */
  function Decide(f: Frame): Verdict {
    if OtherPad(f) then Yes
    else
      var r := FindRow(f[0], 0);
      if r == 20 then Maybe else if Ghosted(f, RowAt(r)) then No else Yes
  }

  lemma KeysDistinct(i: nat, j: nat)
    requires i < j < 20
    ensures RowAt(i).key != RowAt(j).key && RowAt(i).key != 0 && RowAt(j).key != 0
  {}

  lemma RowFound(i: nat)
    requires i < 20
    ensures FindRow(RowAt(i).key, 0) == i && RowAt(i).key != 0
  {
    var r := FindRow(RowAt(i).key, 0);
    if r < i {
      KeysDistinct(r, i);
    } else if i < 19 {
      KeysDistinct(i, 19);
    } else {
      KeysDistinct(0, i);
    }
  }

  /** The five rows with an empty set of ghosts. */
  predicate Lax(i: nat) {
    i == 4 || i == 10 || i == 13 || i == 16 || i == 19
  }

  lemma LaxRows(i: nat)
    requires i < 20
    ensures RowAt(i).ghosts1 != 0 && RowAt(i).ghosts2 != 0
    ensures RowAt(i).ghosts3 == 0 <==> Lax(i)
  {}

  /** With the other pads idle, one key of the first pad proves a teamtap exactly when its row
      is not lax; a lax row says there is none whatever the other pads show. */
  lemma LoneKey(f: Frame, i: nat)
    requires i < 20 && f[0] == RowAt(i).key
    ensures Lax(i) ==> Decide(f) == No
    ensures f[1] == 0 && f[2] == 0 && f[3] == 0 ==> Decide(f) == if Lax(i) then No else Yes
  {
    RowFound(i);
    LaxRows(i);
    AndBelow(f[3], 0);
  }

  /** With a key of the table down, the verdict is that there is no teamtap exactly when one of the
      other pads shows all of its ghosts, and that there is one otherwise. */
  lemma GhostsExactly(f: Frame, i: nat)
    requires i < 20 && f[0] == RowAt(i).key
    ensures Decide(f) != Maybe
    ensures Decide(f) == No <==>
              || Contains(f[1], RowAt(i).ghosts1)
              || Contains(f[2], RowAt(i).ghosts2)
              || Contains(f[3], RowAt(i).ghosts3)
  {
    RowFound(i);
    AndHolds(f[1], RowAt(i).ghosts1);
    AndHolds(f[2], RowAt(i).ghosts2);
    AndHolds(f[3], RowAt(i).ghosts3);
  }

  /** Keys of another pad while the first one is idle prove a teamtap. */
  lemma OtherPadProves(f: Frame)
    requires f[0] == 0 && (f[1] > 0 || f[2] > 0 || f[3] > 0)
    ensures Decide(f) == Yes
  {}

  /** When a frame leaves the question open: no pad is used, or the first pad shows something
      other than one key of the table. */
  lemma OpenFrames(f: Frame)
    ensures Decide(f) == Maybe <==>
            (f == [0, 0, 0, 0] || (f[0] != 0 && forall i | 0 <= i < 20 :: RowAt(i).key != f[0]))
  {
    var r := FindRow(f[0], 0);
    if r < 20 {
      RowFound(r);
    }
    assert f[1] == 0 && f[2] == 0 && f[3] == 0 && f[0] == 0 ==> f == [0, 0, 0, 0];
  }

  // ---------- whole runs ----------

  /** The frames of a run, the last one first to hand. */
  datatype Run = Start | Then(before: Run, last: Frame)

  function Settle(v: Verdict, f: Frame): Verdict {
    if v == Maybe then Decide(f) else v
  }

  function VerdictAfter(run: Run): Verdict {
    match run
    case Start => Maybe
    case Then(before, last) => Settle(VerdictAfter(before), last)
  }

  predicate Prefix(a: Run, b: Run) {
    a == b || (b.Then? && Prefix(a, b.before))
  }

  /** The verdict leaves `Maybe` at most once, and never changes afterwards. */
  lemma {:induction false} VerdictSettles(a: Run, b: Run)
    requires Prefix(a, b) && VerdictAfter(a) != Maybe
    ensures VerdictAfter(b) == VerdictAfter(a)
  {
    if a != b {
      VerdictSettles(a, b.before);
    }
  }

  predicate Open(run: Run) {
    run.Then? ==> Decide(run.last) == Maybe && Open(run.before)
  }

  /** It is what the first deciding frame says, and open while there is none. */
  lemma {:induction false} VerdictIsFirstDecision(run: Run, f: Frame, later: Run)
    requires Open(run) && Prefix(Then(run, f), later)
    ensures VerdictAfter(run) == Maybe
    ensures Decide(f) != Maybe ==> VerdictAfter(later) == Decide(f)
  {
    StaysOpen(run);
    if Decide(f) != Maybe {
      VerdictSettles(Then(run, f), later);
    }
  }

  lemma {:induction false} StaysOpen(run: Run)
    ensures VerdictAfter(run) == Maybe <==> Open(run)
  {
    if run.Then? {
      StaysOpen(run.before);
    }
  }

  // ---------- reports ----------

  /** Without a teamtap only the first pad is looked at. */
  predicate Looked(v: Verdict, pad: nat) {
    v != No || pad == 0
  }

  /** The word the program remembers for a pad. */
  function Remembered(run: Run, pad: nat): nat
    requires pad < 4
  {
    match run
    case Start => 0
    case Then(before, last) =>
      if Looked(VerdictAfter(run), pad) then last[pad] else Remembered(before, pad)
  }

  /** What the last frame of a run makes a pad report. */
  function Reported(run: Run, pad: nat): seq<nat>
    requires run.Then? && pad < 4
  {
    if Looked(VerdictAfter(run), pad) && run.last[pad] != Remembered(run.before, pad) then [run.last[pad]] else []
  }

  /** The words reported for a pad, in order. */
  function Reports(run: Run, pad: nat): seq<nat>
    requires pad < 4
  {
    if run.Start? then [] else Reports(run.before, pad) + Reported(run, pad)
  }

  /** What is remembered is what was last reported. */
  lemma {:induction false} RememberedIsLastReport(run: Run, pad: nat)
    requires pad < 4
    ensures Remembered(run, pad) == if Reports(run, pad) == [] then 0 else Reports(run, pad)[|Reports(run, pad)| - 1]
  {
    if run.Then? {
      RememberedIsLastReport(run.before, pad);
    }
  }

  /** The words of a pad, and the changes in a row of words that starts from nothing. */
  function Words(run: Run, pad: nat): seq<nat>
    requires pad < 4
  {
    if run.Start? then [] else Words(run.before, pad) + [run.last[pad]]
  }

  function Changes(words: seq<nat>): (c: seq<nat>)
    ensures |c| <= |words|
  {
    if words == [] then []
    else
      var n := |words| - 1;
      Changes(words[..n]) + (if words[n] != (if n == 0 then 0 else words[n - 1]) then [words[n]] else [])
  }

  /** The part of a run before the verdict that there is no teamtap. */
  function BeforeNo(run: Run): (r: Run)
    ensures Prefix(r, run) && VerdictAfter(r) != No
    ensures VerdictAfter(run) != No ==> r == run
  {
    if VerdictAfter(run) != No then run else BeforeNo(run.before)
  }

  lemma OneMoreChange(words: seq<nat>, w: nat)
    ensures Changes(words + [w])
         == Changes(words) + (if w != (if words == [] then 0 else words[|words| - 1]) then [w] else [])
  {
    assert (words + [w])[..|words|] == words;
  }

  lemma LastWord(run: Run, pad: nat)
    requires pad < 4
    ensures run.Start? <==> Words(run, pad) == []
    ensures run.Then? ==> Words(run, pad)[|Words(run, pad)| - 1] == run.last[pad]
  {}

  /** The first pad reports exactly its changes, over the whole run; the other pads theirs up
      to the verdict that there is no teamtap, and nothing from then on. */
  lemma {:induction false} ReportsAreChanges(run: Run, pad: nat)
    requires pad < 4
    ensures var seen := if pad == 0 then run else BeforeNo(run);
            && Reports(run, pad) == Changes(Words(seen, pad))
            && Remembered(run, pad) == if seen.Start? then 0 else seen.last[pad]
  {
    if run.Then? {
      ReportsAreChanges(run.before, pad);
      if Looked(VerdictAfter(run), pad) {
        LookedBefore(run, pad);
        LastWord(run.before, pad);
        OneMoreChange(Words(run.before, pad), run.last[pad]);
      }
    }
  }

  lemma LookedBefore(run: Run, pad: nat)
    requires run.Then? && pad < 4 && Looked(VerdictAfter(run), pad)
    ensures pad == 0 || (BeforeNo(run) == run && BeforeNo(run.before) == run.before)
  {}
}
