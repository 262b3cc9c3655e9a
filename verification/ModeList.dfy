/** The list of video modes that `video/xbios.c` builds, and its counts per depth. */
module ModeLists {
  import opened Framebuffers
  import opened ModeOrder

  // ---------- depths and their counters ----------

  const DEPTHS: seq<nat> := [1, 2, 4, 8, 15, 16, 24, 32]

  predicate Known(bpp: nat) {
    bpp == 1 || bpp == 2 || bpp == 4 || bpp == 8 || bpp == 15 || bpp == 16 || bpp == 24 || bpp == 32
  }

  /** The counter of a known depth. */
  function Slot(bpp: nat): (k: nat)
    requires Known(bpp)
    ensures k < 8 && DEPTHS[k] == bpp
  {
    match bpp
    case 1 => 0
    case 2 => 1
    case 4 => 2
    case 8 => 3
    case 15 => 4
    case 16 => 5
    case 24 => 6
    case _ => 7
  }

  /** The counter the `i`th mode is counted in: an unknown depth goes to the counter of the
      mode before it, or to the first. */
  function SlotAt(l: seq<Framebuffer>, i: nat): (k: nat)
    requires i < |l|
    ensures k < 8
  {
    if Known(l[i].bpp) then Slot(l[i].bpp) else if i == 0 then 0 else SlotAt(l, i - 1)
  }

  /** In other words: to the counter of the last known depth so far, or to the first one before
      there is any. */
  lemma {:induction false} SlotOfLastKnown(l: seq<Framebuffer>, i: nat, j: nat)
    requires j <= i < |l| && forall k | j < k <= i :: !Known(l[k].bpp)
    ensures Known(l[j].bpp) ==> [1, 2, 4, 8, 15, 16, 24, 32][SlotAt(l, i)] == l[j].bpp
    ensures j == 0 && !Known(l[0].bpp) ==> SlotAt(l, i) == 0
  {
    if i > j {
      SlotOfLastKnown(l, i - 1, j);
    }
  }

  /** How many of the first `n` modes go to counter `k`. */
  function Tally(l: seq<Framebuffer>, n: nat, k: nat): nat
    requires n <= |l|
  {
    if n == 0 then 0 else Tally(l, n - 1, k) + (if SlotAt(l, n - 1) == k then 1 else 0)
  }

  /** The modes of one depth, in list order. */
  function OfDepth(l: seq<Framebuffer>, n: nat, bpp: nat): seq<Framebuffer>
    requires n <= |l|
  {
    if n == 0 then []
    else OfDepth(l, n - 1, bpp) + (if l[n - 1].bpp == bpp then [l[n - 1]] else [])
  }

  predicate AllKnown(l: seq<Framebuffer>) {
    forall i | 0 <= i < |l| :: Known(l[i].bpp)
  }

  /** The eight counters add up to the length of the list, whatever its depths. */
  lemma {:induction false} CountersConserve(l: seq<Framebuffer>, n: nat)
    requires n <= |l|
    ensures Tally(l, n, 0) + Tally(l, n, 1) + Tally(l, n, 2) + Tally(l, n, 3)
            + Tally(l, n, 4) + Tally(l, n, 5) + Tally(l, n, 6) + Tally(l, n, 7) == n
  {
    if n > 0 {
      CountersConserve(l, n - 1);
    }
  }

  lemma {:induction false} TallyAtLeast(l: seq<Framebuffer>, n: nat, k: nat)
    requires n <= |l| && k < 8
    ensures Tally(l, n, k) >= |OfDepth(l, n, DEPTHS[k])|
    ensures (forall i | 0 <= i < n :: Known(l[i].bpp)) ==> Tally(l, n, k) == |OfDepth(l, n, DEPTHS[k])|
  {
    if n > 0 {
      TallyAtLeast(l, n - 1, k);
    }
  }

  lemma {:induction false} TallyExcess(l: seq<Framebuffer>, n: nat, i: nat)
    requires i < n <= |l| && !Known(l[i].bpp)
    ensures Tally(l, n, SlotAt(l, i)) > |OfDepth(l, n, DEPTHS[SlotAt(l, i)])|
  {
    if i < n - 1 {
      TallyExcess(l, n - 1, i);
    } else {
      TallyAtLeast(l, n - 1, SlotAt(l, i));
      assert l[i].bpp != DEPTHS[SlotAt(l, i)];
    }
  }

  /** Each counter is the number of modes of its depth exactly when every depth is known. */
  lemma CountersExact(l: seq<Framebuffer>)
    ensures (forall k | 0 <= k < 8 :: Tally(l, |l|, k) == |OfDepth(l, |l|, [1, 2, 4, 8, 15, 16, 24, 32][k])|)
       <==> (forall i | 0 <= i < |l| :: l[i].bpp in {1, 2, 4, 8, 15, 16, 24, 32})
  {
    forall k | 0 <= k < 8
      ensures AllKnown(l) ==> Tally(l, |l|, k) == |OfDepth(l, |l|, DEPTHS[k])|
    {
      TallyAtLeast(l, |l|, k);
    }
    if !AllKnown(l) {
      var i :| 0 <= i < |l| && !Known(l[i].bpp);
      TallyExcess(l, |l|, i);
    }
  }

  /** A list of one mode of six planes is counted as one of a single plane, which it has none of. */
  lemma SixPlanesMiscounted()
    ensures var l := [InitFramebuffer(320, 200, 6)];
            Tally(l, |l|, 0) == 1 && OfDepth(l, |l|, 1) == []
  {
    var l := [InitFramebuffer(320, 200, 6)];
    assert SlotAt(l, 0) == 0;
  }

  /** The modes among the first `n` whose depth is one of the first `k` known ones. */
  function KnownModes(l: seq<Framebuffer>, n: nat, k: nat): multiset<Framebuffer>
    requires n <= |l|
  {
    if n == 0 then multiset{}
    else KnownModes(l, n - 1, k)
         + (if Known(l[n - 1].bpp) && Slot(l[n - 1].bpp) < k then multiset{l[n - 1]} else multiset{})
  }

  /** The first `k` listings put together. */
  function Listed(l: seq<Framebuffer>, k: nat): multiset<Framebuffer>
    requires k <= 8
  {
    if k == 0 then multiset{} else Listed(l, k - 1) + multiset(OfDepth(l, |l|, DEPTHS[k - 1]))
  }

  lemma {:induction false} OneMoreListing(l: seq<Framebuffer>, n: nat, k: nat, bpp: nat)
    requires n <= |l| && k < 8 && bpp == DEPTHS[k]
    ensures KnownModes(l, n, k + 1) == KnownModes(l, n, k) + multiset(OfDepth(l, n, bpp))
  {
    if n > 0 {
      OneMoreListing(l, n - 1, k, bpp);
      var m := l[n - 1];
      DepthOfSlot(m.bpp, k);
      Regroup(KnownModes(l, n - 1, k), multiset(OfDepth(l, n - 1, bpp)), m,
              Known(m.bpp) && Slot(m.bpp) < k, m.bpp == bpp);
      ListedWith(OfDepth(l, n - 1, bpp), m);
    }
  }

  lemma ListedWith(s: seq<Framebuffer>, m: Framebuffer)
    ensures multiset(s + [m]) == multiset(s) + multiset{m} && multiset(s + []) == multiset(s)
  {
    assert s + [] == s;
  }

  /** A mode goes to one of two parts, or to neither. */
  lemma Regroup(a: multiset<Framebuffer>, b: multiset<Framebuffer>, m: Framebuffer, inA: bool, inB: bool)
    requires !(inA && inB)
    ensures a + b + (if inA || inB then multiset{m} else multiset{})
         == (a + (if inA then multiset{m} else multiset{})) + (b + (if inB then multiset{m} else multiset{}))
  {}

  lemma DepthOfSlot(bpp: nat, k: nat)
    requires k < 8
    ensures bpp == DEPTHS[k] <==> Known(bpp) && Slot(bpp) == k
  {}

  lemma {:induction false} NoneKnown(l: seq<Framebuffer>, n: nat)
    requires n <= |l|
    ensures KnownModes(l, n, 0) == multiset{}
  {
    if n > 0 {
      NoneKnown(l, n - 1);
    }
  }

  /** The listings together are the modes of known depth, each once. */
  lemma {:induction false} ListingsAreKnown(l: seq<Framebuffer>, k: nat)
    requires k <= 8
    ensures Listed(l, k) == KnownModes(l, |l|, k)
  {
    if k > 0 {
      ListingsAreKnown(l, k - 1);
      OneMoreListing(l, |l|, k - 1, DEPTHS[k - 1]);
    } else {
      NoneKnown(l, |l|);
    }
  }

  lemma {:induction false} KnownSize(l: seq<Framebuffer>, n: nat)
    requires n <= |l|
    ensures |KnownModes(l, n, 8)| <= n
    ensures |KnownModes(l, n, 8)| == n <==> forall i | 0 <= i < n :: Known(l[i].bpp)
  {
    if n > 0 {
      KnownSize(l, n - 1);
    }
  }

  lemma {:induction false} KnownModesAll(l: seq<Framebuffer>, n: nat)
    requires n <= |l| && AllKnown(l)
    ensures KnownModes(l, n, 8) == multiset(l[..n])
  {
    if n > 0 {
      KnownModesAll(l, n - 1);
      OneMoreMode(l, n);
    }
  }

  lemma OneMoreMode(l: seq<Framebuffer>, n: nat)
    requires 1 <= n <= |l|
    ensures multiset(l[..n]) == multiset(l[..n - 1]) + multiset{l[n - 1]}
  {
    assert l[..n] == l[..n - 1] + [l[n - 1]];
  }

  /** The eight listings partition the list exactly when every depth is known. */
  lemma ListingsPartition(l: seq<Framebuffer>)
    ensures Listed(l, 8) == multiset(l) <==> AllKnown(l)
  {
    ListingsAreKnown(l, 8);
    KnownSize(l, |l|);
    if AllKnown(l) {
      KnownModesAll(l, |l|);
      assert l[..|l|] == l;
    } else {
      assert |multiset(l)| == |l|;
    }
  }

  // ---------- the list ----------

  class ModeList {
    var videoModes: array<Framebuffer>
    var numVideoModes: nat
    const numBppModes: array<nat>

    ghost predicate Valid()
      reads this
    {
      videoModes.Length == numVideoModes && numBppModes.Length == 8
    }

    ghost function Modes(): seq<Framebuffer>
      reads this, videoModes
    {
      videoModes[..]
    }

    constructor ()
      ensures Valid() && Modes() == [] && fresh(videoModes) && fresh(numBppModes)
    {
      videoModes := new Framebuffer[0];
      numVideoModes := 0;
      numBppModes := new nat[8];
    }

    /** Grows the list by one place, finds the place by the three-stage search, moves what
        follows one place on, and writes the new mode. Returns the place. */
    method AddMode(width: nat, height: nat, bpp: nat) returns (curpos: nat)
      requires Valid()
      modifies this
      ensures Valid() && fresh(videoModes)
      ensures var m := InitFramebuffer(width, height, bpp);
              && curpos == Stage3(old(Modes()), m)
              && Modes() == Insert(old(Modes()), m)
    {
      ghost var l := Modes();
      ghost var m := InitFramebuffer(width, height, bpp);
      numVideoModes := numVideoModes + 1;
      var n := numVideoModes;
      var modes := Realloc(videoModes, n);
      curpos := FindPlace(modes, n - 1, width, height, bpp, l, m);
      PutAt(modes, curpos, InitFramebuffer(width, height, bpp), l);
      videoModes := modes;
    }

    /** Counts the modes of each depth and lists them depth by depth. */
    method CountBppModes() returns (listings: seq<seq<Framebuffer>>)
      requires Valid()
      modifies numBppModes
      ensures Valid() && Modes() == old(Modes())
      ensures forall k | 0 <= k < 8 :: numBppModes[k] == Tally(Modes(), |Modes()|, k)
      ensures |listings| == 8
      ensures forall k | 0 <= k < 8 :: listings[k] == OfDepth(Modes(), |Modes()|, [1, 2, 4, 8, 15, 16, 24, 32][k])
    {
      ghost var l := Modes();
      var spec := 0;
      var k := 0;
      while k < 8
        invariant 0 <= k <= 8 && forall j | 0 <= j < k :: numBppModes[j] == 0
      {
        numBppModes[k] := 0;
        k := k + 1;
      }
      var i := 0;
      while i < numVideoModes
        invariant 0 <= i <= numVideoModes && spec < 8
        invariant spec == if i == 0 then 0 else SlotAt(l, i - 1)
        invariant forall j | 0 <= j < 8 :: numBppModes[j] == Tally(l, i, j)
      {
        var bpp := videoModes[i].bpp;
        if Known(bpp) {
          spec := Slot(bpp);
        }
        numBppModes[spec] := numBppModes[spec] + 1;
        i := i + 1;
      }
      listings := [];
      k := 0;
      while k < 8
        invariant 0 <= k <= 8 && |listings| == k
        invariant forall j | 0 <= j < 8 :: numBppModes[j] == Tally(l, |l|, j)
        invariant forall j | 0 <= j < k :: listings[j] == OfDepth(l, |l|, DEPTHS[j])
      {
        var listing := DisplayBppModes(DEPTHS[k], k);
        listings := listings + [listing];
        k := k + 1;
      }
    }

    /** The modes of one depth, unless its counter is zero. */
    method DisplayBppModes(bpp: nat, spec: nat) returns (listing: seq<Framebuffer>)
      requires Valid() && spec < 8 && bpp == DEPTHS[spec]
      requires numBppModes[spec] == Tally(Modes(), |Modes()|, spec)
      ensures listing == OfDepth(Modes(), |Modes()|, bpp)
    {
      if numBppModes[spec] == 0 {
        TallyAtLeast(Modes(), |Modes()|, spec);
        return [];
      }
      listing := [];
      var i := 0;
      while i < numVideoModes
        invariant 0 <= i <= numVideoModes
        invariant listing == OfDepth(Modes(), i, bpp)
      {
        if videoModes[i].bpp == bpp {
          listing := listing + [videoModes[i]];
        }
        i := i + 1;
      }
    }
  }

  /** The three-stage search, each stage going on where the one before stopped. */
  method FindPlace(modes: array<Framebuffer>, last: nat, width: nat, height: nat, bpp: nat,
                   ghost l: seq<Framebuffer>, ghost m: Framebuffer)
    returns (curpos: nat)
    requires last <= modes.Length && modes[..last] == l
    requires m.width == width && m.height == height && m.bpp == bpp
    ensures curpos == Stage3(l, m)
  {
    curpos := PassDeeper(modes, last, bpp, l);
    curpos := PassWider(modes, last, width, curpos, l);
    curpos := PassTaller(modes, last, height, curpos, l);
  }

  /** Stage 1: to the first mode of equal or lower depth. */
  method PassDeeper(modes: array<Framebuffer>, last: nat, bpp: nat, ghost l: seq<Framebuffer>) returns (curpos: nat)
    requires last <= modes.Length && modes[..last] == l
    ensures curpos == SkipBpp(l, 0, bpp) <= last
  {
    curpos := 0;
    var i := 0;
    while i < last
      invariant 0 <= i <= last && curpos == i
      invariant SkipBpp(l, i, bpp) == SkipBpp(l, 0, bpp)
    {
      assert modes[i] == l[i];
      if modes[i].bpp <= bpp {
        break;
      }
      curpos := curpos + 1;
      i := i + 1;
    }
  }

  /** Stage 2: on to the first mode of equal or lower width. */
  method PassWider(modes: array<Framebuffer>, last: nat, width: nat, from: nat, ghost l: seq<Framebuffer>)
    returns (curpos: nat)
    requires from <= last <= modes.Length && modes[..last] == l
    ensures curpos == SkipWidth(l, from, width) <= last
  {
    curpos := from;
    var i := curpos;
    while i < last
      invariant from <= i <= last && curpos == i
      invariant SkipWidth(l, i, width) == SkipWidth(l, from, width)
    {
      assert modes[i] == l[i];
      if modes[i].width <= width {
        break;
      }
      curpos := curpos + 1;
      i := i + 1;
    }
  }

  /** Stage 3: on to the first mode of equal or lower height. */
  method PassTaller(modes: array<Framebuffer>, last: nat, height: nat, from: nat, ghost l: seq<Framebuffer>)
    returns (curpos: nat)
    requires from <= last <= modes.Length && modes[..last] == l
    ensures curpos == SkipHeight(l, from, height) <= last
  {
    curpos := from;
    var i := curpos;
    while i < last
      invariant from <= i <= last && curpos == i
      invariant SkipHeight(l, i, height) == SkipHeight(l, from, height)
    {
      assert modes[i] == l[i];
      if modes[i].height <= height {
        break;
      }
      curpos := curpos + 1;
      i := i + 1;
    }
  }

  /** A larger block with the same beginning. */
  method Realloc(a: array<Framebuffer>, n: nat) returns (b: array<Framebuffer>)
    requires n == a.Length + 1
    ensures fresh(b) && b.Length == n && b[..n - 1] == a[..]
  {
    b := new Framebuffer[n](i => InitFramebuffer(0, 0, 0));
    var i := 0;
    while i < a.Length
      invariant 0 <= i <= a.Length && b[..i] == a[..i]
    {
      b[i] := a[i];
      i := i + 1;
    }
  }

  /** Moves everything from `curpos` on one place further, last first, and writes there. */
  method PutAt(modes: array<Framebuffer>, curpos: nat, m: Framebuffer, ghost l: seq<Framebuffer>)
    requires modes.Length == |l| + 1 && curpos <= |l| && modes[..|l|] == l
    modifies modes
    ensures modes[..] == l[..curpos] + [m] + l[curpos..]
  {
    var i := modes.Length - 1;
    while i > curpos
      invariant curpos <= i <= |l|
      invariant forall j | 0 <= j <= i && j < |l| :: modes[j] == l[j]
      invariant forall j | i < j <= |l| :: modes[j] == l[j - 1]
    {
      modes[i] := modes[i - 1];
      i := i - 1;
    }
    modes[curpos] := m;
    Spliced(modes[..], l, curpos, m);
  }

  lemma Spliced(s: seq<Framebuffer>, l: seq<Framebuffer>, p: nat, m: Framebuffer)
    requires p <= |l| && |s| == |l| + 1 && s[p] == m
    requires forall j | 0 <= j < p :: s[j] == l[j]
    requires forall j | p < j <= |l| :: s[j] == l[j - 1]
    ensures s == l[..p] + [m] + l[p..]
  {}
}
