/** What inserting a video mode by the three-stage search does to the order of the list:
    exactly when it stays sorted, and for which modes it does so in every order of calls. */
module ModeOrder {
  import opened Framebuffers

  // ---------- the order the list is meant to have ----------

  /** Lexicographic in depth, width, height. */
  predicate AtLeast(a: Framebuffer, b: Framebuffer) {
    a.bpp > b.bpp
    || (a.bpp == b.bpp && (a.width > b.width || (a.width == b.width && a.height >= b.height)))
  }

  predicate Descending(l: seq<Framebuffer>) {
    forall i, j | 0 <= i < j < |l| :: AtLeast(l[i], l[j])
  }

  // ---------- the three-stage search ----------

  function SkipBpp(l: seq<Framebuffer>, i: nat, bpp: nat): (r: nat)
    requires i <= |l|
    ensures i <= r <= |l| && (r < |l| ==> l[r].bpp <= bpp)
    ensures forall j | i <= j < r :: l[j].bpp > bpp
    decreases |l| - i
  {
    if i == |l| || l[i].bpp <= bpp then i else SkipBpp(l, i + 1, bpp)
  }

  function SkipWidth(l: seq<Framebuffer>, i: nat, width: nat): (r: nat)
    requires i <= |l|
    ensures i <= r <= |l| && (r < |l| ==> l[r].width <= width)
    ensures forall j | i <= j < r :: l[j].width > width
    decreases |l| - i
  {
    if i == |l| || l[i].width <= width then i else SkipWidth(l, i + 1, width)
  }

  function SkipHeight(l: seq<Framebuffer>, i: nat, height: nat): (r: nat)
    requires i <= |l|
    ensures i <= r <= |l| && (r < |l| ==> l[r].height <= height)
    ensures forall j | i <= j < r :: l[j].height > height
    decreases |l| - i
  {
    if i == |l| || l[i].height <= height then i else SkipHeight(l, i + 1, height)
  }

  /** Where the first, second and third stage end for mode `m`. */
  function Stage1(l: seq<Framebuffer>, m: Framebuffer): (r: nat)
    ensures r <= |l|
  {
    SkipBpp(l, 0, m.bpp)
  }

  function Stage2(l: seq<Framebuffer>, m: Framebuffer): (r: nat)
    ensures Stage1(l, m) <= r <= |l|
  {
    SkipWidth(l, Stage1(l, m), m.width)
  }

  function Stage3(l: seq<Framebuffer>, m: Framebuffer): (r: nat)
    ensures Stage2(l, m) <= r <= |l|
  {
    SkipHeight(l, Stage2(l, m), m.height)
  }

  function Insert(l: seq<Framebuffer>, m: Framebuffer): (r: seq<Framebuffer>) {
    l[..Stage3(l, m)] + [m] + l[Stage3(l, m)..]
  }

  // ---------- one insertion ----------

  /** On a sorted list nothing from the insertion point on belongs before the new mode. */
  lemma NeverTooEarly(l: seq<Framebuffer>, m: Framebuffer)
    requires Descending(l)
    ensures forall j | Stage3(l, m) <= j < |l| :: AtLeast(m, l[j])
  {
    var s1, s2, s3 := Stage1(l, m), Stage2(l, m), Stage3(l, m);
    if s3 < |l| {
      assert AtLeast(m, l[s3]) by {
        assert s1 < s3 ==> AtLeast(l[s1], l[s3]);
        assert s2 < s3 ==> AtLeast(l[s2], l[s3]);
      }
    }
  }

  lemma SplicedDescending(l: seq<Framebuffer>, m: Framebuffer, p: nat, r: seq<Framebuffer>)
    requires Descending(l) && p <= |l| && r == l[..p] + [m] + l[p..]
    requires forall j | p <= j < |l| :: AtLeast(m, l[j])
    ensures Descending(r) <==> forall j | 0 <= j < p :: AtLeast(l[j], m)
  {
    assert forall j | 0 <= j < |r| :: r[j] == if j < p then l[j] else if j == p then m else l[j - 1];
    if Descending(r) {
      forall j | 0 <= j < p ensures AtLeast(l[j], m) {
        assert AtLeast(r[j], r[p]);
      }
    }
  }

  /** Inserting keeps the order exactly when everything before the place is at least `m`. */
  lemma InsertedDescending(l: seq<Framebuffer>, m: Framebuffer)
    requires Descending(l)
    ensures Descending(Insert(l, m)) <==> forall j | 0 <= j < Stage3(l, m) :: AtLeast(l[j], m)
  {
    NeverTooEarly(l, m);
    SplicedDescending(l, m, Stage3(l, m), Insert(l, m));
  }

  /** Every mode passed over in the second stage has the new depth, and every mode passed
      over in the third has the new depth and width. */
  predicate StaysInRun(l: seq<Framebuffer>, m: Framebuffer) {
    && (forall j | Stage1(l, m) <= j < Stage2(l, m) :: l[j].bpp == m.bpp)
    && (forall j | Stage2(l, m) <= j < Stage3(l, m) :: l[j].bpp == m.bpp && l[j].width == m.width)
  }

  /** The exact condition under which adding a mode keeps a sorted list sorted. */
  lemma SortedExactly(l: seq<Framebuffer>, m: Framebuffer)
    requires Descending(l)
    ensures Descending(Insert(l, m)) <==> StaysInRun(l, m)
  {
    InsertedDescending(l, m);
    var s1, s2, s3 := Stage1(l, m), Stage2(l, m), Stage3(l, m);
    if forall j | 0 <= j < s3 :: AtLeast(l[j], m) {
      forall j | s1 <= j < s2 ensures l[j].bpp == m.bpp {
        assert s1 < j ==> AtLeast(l[s1], l[j]);
      }
      forall j | s2 <= j < s3 ensures l[j].bpp == m.bpp && l[j].width == m.width {
        assert s1 < j ==> AtLeast(l[s1], l[j]);
        assert s2 < j ==> AtLeast(l[s2], l[j]);
      }
    }
  }

  // ---------- the same condition at one place of the list ----------

  /** The first place whose mode the new one is at least as great as. */
  function Boundary(l: seq<Framebuffer>, i: nat, m: Framebuffer): (f: nat)
    requires i <= |l|
    ensures i <= f <= |l| && (f < |l| ==> AtLeast(m, l[f]))
    ensures forall j | i <= j < f :: !AtLeast(m, l[j])
    decreases |l| - i
  {
    if i == |l| || AtLeast(m, l[i]) then i else Boundary(l, i + 1, m)
  }

  /** What a caller can look at before the call: the mode at the boundary is no taller than
      the new one, and no wider either unless it follows a mode of the new depth and width. */
  predicate BoundaryFits(l: seq<Framebuffer>, m: Framebuffer) {
    var f := Boundary(l, 0, m);
    f == |l|
    || (l[f].height <= m.height
        && (l[f].width <= m.width || (f > 0 && l[f - 1].bpp == m.bpp && l[f - 1].width == m.width)))
  }

  lemma SortedAtBoundary(l: seq<Framebuffer>, m: Framebuffer)
    requires Descending(l)
    ensures Descending(Insert(l, m)) <==> BoundaryFits(l, m)
  {
    InsertedDescending(l, m);
    BoundaryReached(l, m);
    var f, s3 := Boundary(l, 0, m), Stage3(l, m);
    assert s3 == f ==> forall j | 0 <= j < s3 :: AtLeast(l[j], m);
  }

  /** The search never stops before the boundary, and stops at it exactly when it fits. */
  lemma BoundaryReached(l: seq<Framebuffer>, m: Framebuffer)
    requires Descending(l)
    ensures Boundary(l, 0, m) <= Stage3(l, m)
    ensures Boundary(l, 0, m) == Stage3(l, m) <==> BoundaryFits(l, m)
  {
    NeverTooEarly(l, m);
    var f, s1 := Boundary(l, 0, m), Stage1(l, m);
    forall j | s1 <= j < f ensures l[j].bpp == m.bpp && l[j].width >= m.width {
      assert s1 < j ==> AtLeast(l[s1], l[j]);
      assert !AtLeast(m, l[j]);
    }
  }

  // ---------- runs of insertions ----------

  /** The list after adding the modes one after the other. */
  function AddAll(l: seq<Framebuffer>, ms: seq<Framebuffer>): seq<Framebuffer>
    decreases |ms|
  {
    if ms == [] then l else AddAll(Insert(l, ms[0]), ms[1..])
  }

  /** The ChangeLog says the list is created sorted. The two calls made for the colour ST
      already leave it in the order of the calls, shallower mode first. */
  lemma StColourUnsorted()
    ensures var med, low := InitFramebuffer(640, 200, 2), InitFramebuffer(320, 200, 4);
            AddAll([], [med, low]) == [med, low] && !Descending([med, low])
  {
    var med, low := InitFramebuffer(640, 200, 2), InitFramebuffer(320, 200, 4);
    assert Insert([], med) == [med];
    assert SkipBpp([med], 0, 4) == 0 && SkipWidth([med], 0, 320) == 1;
    assert Insert([med], low) == [med, low];
    assert [med, low][1..] == [low];
    assert AddAll([], [med, low]) == AddAll([med], [low]) == AddAll([med, low], []);
    assert !AtLeast([med, low][0], [med, low][1]);
  }

  lemma {:induction false} AddAllPermutes(l: seq<Framebuffer>, ms: seq<Framebuffer>)
    ensures multiset(AddAll(l, ms)) == multiset(l) + multiset(ms)
    decreases |ms|
  {
    if ms != [] {
      AddAllPermutes(Insert(l, ms[0]), ms[1..]);
      InsertPermutes(l, ms[0]);
      assert ms == [ms[0]] + ms[1..];
    }
  }

  lemma InsertPermutes(l: seq<Framebuffer>, m: Framebuffer)
    ensures multiset(Insert(l, m)) == multiset(l) + multiset{m}
  {
    assert l == l[..Stage3(l, m)] + l[Stage3(l, m)..];
  }

  /** Two modes already in the list stay in their order through every later call. */
  lemma {:induction false} OrderKept(l: seq<Framebuffer>, ms: seq<Framebuffer>, i: nat, j: nat)
    returns (i': nat, j': nat)
    requires i < j < |l|
    ensures i' < j' < |AddAll(l, ms)|
    ensures AddAll(l, ms)[i'] == l[i] && AddAll(l, ms)[j'] == l[j]
    decreases |ms|
  {
    if ms == [] {
      i', j' := i, j;
    } else {
      InsertMoves(l, ms[0], i);
      InsertMoves(l, ms[0], j);
      i', j' := OrderKept(Insert(l, ms[0]), ms[1..], Moved(l, ms[0], i), Moved(l, ms[0], j));
    }
  }

  /** Where the mode at `i` is after `m` was inserted. */
  function Moved(l: seq<Framebuffer>, m: Framebuffer, i: nat): nat {
    if i < Stage3(l, m) then i else i + 1
  }

  lemma InsertMoves(l: seq<Framebuffer>, m: Framebuffer, i: nat)
    requires i < |l|
    ensures Moved(l, m, i) < |Insert(l, m)| && Insert(l, m)[Moved(l, m, i)] == l[i]
  {}

  /** A list out of order stays so, whatever is added. */
  lemma UnsortedStays(l: seq<Framebuffer>, ms: seq<Framebuffer>)
    requires !Descending(l)
    ensures !Descending(AddAll(l, ms))
  {
    var i: nat, j: nat :| i < j < |l| && !AtLeast(l[i], l[j]);
    var i', j' := OrderKept(l, ms, i, j);
  }

  /** Every mode of a sequence of calls fits the list it is added to. */
  predicate FitsAll(l: seq<Framebuffer>, ms: seq<Framebuffer>)
    decreases |ms|
  {
    ms == [] || (BoundaryFits(l, ms[0]) && FitsAll(Insert(l, ms[0]), ms[1..]))
  }

  /** Which given sequence of calls creates a sorted list: exactly one that starts from a
      sorted list and whose modes all fit when they are added. */
  lemma {:induction false} CallsExactly(l: seq<Framebuffer>, ms: seq<Framebuffer>)
    ensures Descending(AddAll(l, ms)) <==> Descending(l) && FitsAll(l, ms)
    decreases |ms|
  {
    if !Descending(l) {
      UnsortedStays(l, ms);
    } else if ms != [] {
      SortedAtBoundary(l, ms[0]);
      CallsExactly(Insert(l, ms[0]), ms[1..]);
    }
  }

  // ---------- modes for which the order of calls does not matter ----------

  predicate Covers(a: Framebuffer, b: Framebuffer) {
    a.bpp >= b.bpp && a.width >= b.width && a.height >= b.height
  }

  /** One of the two is at least the other in depth, in width and in height. */
  predicate Comparable(a: Framebuffer, b: Framebuffer) {
    Covers(a, b) || Covers(b, a)
  }

  predicate AllComparable(ms: multiset<Framebuffer>) {
    forall a, b | a in ms && b in ms :: Comparable(a, b)
  }

  lemma ComparableStays(l: seq<Framebuffer>, m: Framebuffer)
    requires Descending(l) && forall j | 0 <= j < |l| :: Comparable(l[j], m)
    ensures Descending(Insert(l, m))
  {
    forall j | 0 <= j < Stage3(l, m) ensures AtLeast(l[j], m) {
      assert Comparable(l[j], m);
      assert l[j].bpp > m.bpp || l[j].width > m.width || l[j].height > m.height;
    }
    InsertedDescending(l, m);
  }

  lemma {:induction false} ComparableSorted(l: seq<Framebuffer>, ms: seq<Framebuffer>)
    requires Descending(l) && AllComparable(multiset(l) + multiset(ms))
    ensures Descending(AddAll(l, ms))
    decreases |ms|
  {
    if ms != [] {
      var m := ms[0];
      assert m in multiset(ms);
      forall j | 0 <= j < |l| ensures Comparable(l[j], m) {
        assert l[j] in multiset(l);
      }
      ComparableStays(l, m);
      InsertPermutes(l, m);
      assert ms == [m] + ms[1..];
      assert multiset(ms) == multiset{m} + multiset(ms[1..]);
      ComparableSorted(Insert(l, m), ms[1..]);
    }
  }

  /** Every order of calls leaves a sorted list. */
  ghost predicate SortedInEveryOrder(ms: multiset<Framebuffer>) {
    forall calls: seq<Framebuffer> | multiset(calls) == ms :: Descending(AddAll([], calls))
  }

  lemma {:induction false} AnySequence(ms: multiset<Framebuffer>) returns (s: seq<Framebuffer>)
    ensures multiset(s) == ms
    decreases |ms|
  {
    if ms == multiset{} {
      s := [];
    } else {
      var m :| m in ms;
      s := AnySequence(ms - multiset{m});
      s := s + [m];
    }
  }

  /** Adding an incomparable pair smaller first leaves it in that order. */
  lemma WrongOrder(a: Framebuffer, b: Framebuffer, rest: seq<Framebuffer>)
    requires AtLeast(a, b) && !Comparable(a, b)
    ensures !Descending(AddAll([], [b, a] + rest))
  {
    var two := Insert([b], a);
    assert Insert([], b) == [b];
    assert ([b, a] + rest)[1..] == [a] + rest && ([a] + rest)[1..] == rest;
    assert AddAll([], [b, a] + rest) == AddAll([b], [a] + rest) == AddAll(two, rest);
    assert SkipBpp([b], 0, a.bpp) == 0;
    assert two == [b, a];
    var i, j := OrderKept(two, rest, 0, 1);
    assert !AtLeast(b, a);
  }

  /** The list comes out sorted in every order of calls exactly when the modes are pairwise
      comparable. */
  lemma EveryOrderExactly(ms: multiset<Framebuffer>)
    ensures SortedInEveryOrder(ms) <==> AllComparable(ms)
  {
    if AllComparable(ms) {
      forall calls: seq<Framebuffer> | multiset(calls) == ms ensures Descending(AddAll([], calls)) {
        EmptyPlus(multiset(calls));
        ComparableSorted([], calls);
      }
    } else {
      var x, y :| x in ms && y in ms && !Comparable(x, y);
      if AtLeast(x, y) {
        SomeOrderFails(ms, x, y);
      } else {
        SomeOrderFails(ms, y, x);
      }
    }
  }

  lemma EmptyPlus(ms: multiset<Framebuffer>)
    ensures multiset([]) + ms == ms
  {}

  lemma SomeOrderFails(ms: multiset<Framebuffer>, a: Framebuffer, b: Framebuffer)
    requires a in ms && b in ms && AtLeast(a, b) && !Comparable(a, b)
    ensures !SortedInEveryOrder(ms)
  {
    var rest := AnySequence(ms - multiset{a, b});
    WrongOrder(a, b, rest);
    PairAndRest(ms, a, b, rest);
  }

  lemma PairAndRest(ms: multiset<Framebuffer>, a: Framebuffer, b: Framebuffer, rest: seq<Framebuffer>)
    requires a in ms && b in ms && a != b && multiset(rest) == ms - multiset{a, b}
    ensures multiset([b, a] + rest) == ms
  {
    assert multiset([b, a]) == multiset{a, b};
    assert multiset{a, b} <= ms;
  }
}
