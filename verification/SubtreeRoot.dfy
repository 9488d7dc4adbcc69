/**
 Merkle-root verification of a BRC-132 subtree (forwarder/subtreeroot.go).

 The program hashes a level at a time between two buffers and may split a level
 across goroutines. The model keeps the buffers and the in-place writes, and
 proves them equal to a top-down tree over the node list padded with zeros.
 */
module SubtreeRoot {
  import opened Bytes

  /** SHA-256d of a 64-byte pair, kept abstract. */
  type PairHash = (Hash, Hash) -> Hash

  // ----- The level-by-level root -----

  /** Parent p of a level: a zero left side is absent, an absent or zero right side repeats the left. */
  function Parent(h: PairHash, xs: seq<Hash>, p: nat): Hash
    requires 2 * p < |xs|
  {
    if xs[2 * p] == ZERO_HASH then ZERO_HASH
    else if 2 * p + 1 < |xs| && xs[2 * p + 1] != ZERO_HASH then h(xs[2 * p], xs[2 * p + 1])
    else h(xs[2 * p], xs[2 * p])
  }

  function Level(h: PairHash, xs: seq<Hash>): seq<Hash> {
    seq((|xs| + 1) / 2, p requires 0 <= p < (|xs| + 1) / 2 => Parent(h, xs, p))
  }

  function Root(h: PairHash, xs: seq<Hash>): Hash
    requires |xs| >= 1
    decreases |xs|
  {
    if |xs| == 1 then xs[0] else Root(h, Level(h, xs))
  }

  // ----- The reference: a top-down tree of a power-of-two width -----

  function Pow2(n: nat): (r: nat)
    ensures r >= 1
  {
    if n == 0 then 1 else 2 * Pow2(n - 1)
  }

  /** One tree node: an all-zero child is an absent one. */
  function Combine(h: PairHash, left: Hash, right: Hash): Hash {
    if left == ZERO_HASH then ZERO_HASH
    else if right == ZERO_HASH then h(left, left)
    else h(left, right)
  }

  function TreeRoot(h: PairHash, height: nat, xs: seq<Hash>): Hash
    requires |xs| == Pow2(height)
  {
    if height == 0 then xs[0]
    else
      var half := Pow2(height - 1);
      Combine(h, TreeRoot(h, height - 1, xs[..half]), TreeRoot(h, height - 1, xs[half..]))
  }

  function Zeros(n: nat): (zs: seq<Hash>)
    ensures |zs| == n
  {
    seq(n, i => ZERO_HASH)
  }

  /** xs with absent nodes up to width w. */
  function Padded(xs: seq<Hash>, w: nat): (ys: seq<Hash>)
    requires |xs| <= w
    ensures |ys| == w
  {
    xs + Zeros(w - |xs|)
  }

  /** height is the least one whose tree holds n leaves. */
  predicate LeastHeight(n: nat, height: nat) {
    n >= 1 && n <= Pow2(height) && (height > 0 ==> Pow2(height - 1) < n)
  }

  lemma {:induction false} LevelOfPadded(h: PairHash, xs: seq<Hash>, k: nat)
    requires (|xs| + k) % 2 == 0
    ensures Level(h, xs + Zeros(k)) == Level(h, xs) + Zeros((|xs| + k) / 2 - (|xs| + 1) / 2)
  {
    var a, b := Level(h, xs + Zeros(k)), Level(h, xs) + Zeros((|xs| + k) / 2 - (|xs| + 1) / 2);
    assert |a| == |b|;
    forall p | 0 <= p < |a|
      ensures a[p] == b[p]
    {
      if 2 * p < |xs| {
        assert (xs + Zeros(k))[2 * p] == xs[2 * p];
      } else {
        assert (xs + Zeros(k))[2 * p] == ZERO_HASH;
      }
    }
  }

  lemma {:induction false} LevelOfConcat(h: PairHash, l: seq<Hash>, r: seq<Hash>)
    requires |l| % 2 == 0
    ensures Level(h, l + r) == Level(h, l) + Level(h, r)
  {
    var half, xs := |l| / 2, l + r;
    forall p | 0 <= p < |Level(h, xs)|
      ensures Parent(h, xs, p) == (Level(h, l) + Level(h, r))[p]
    {
      if p < half {
        assert xs[2 * p] == l[2 * p] && xs[2 * p + 1] == l[2 * p + 1];
      } else {
        var q := p - half;
        assert xs[2 * p] == r[2 * q];
        assert 2 * q + 1 < |r| ==> xs[2 * p + 1] == r[2 * q + 1];
      }
    }
  }

  lemma TreeRootSplit(h: PairHash, height: nat, l: seq<Hash>, r: seq<Hash>)
    requires |l| == |r| == Pow2(height)
    ensures TreeRoot(h, height + 1, l + r) == Combine(h, TreeRoot(h, height, l), TreeRoot(h, height, r))
  {
    hide Combine;
    assert (l + r)[..|l|] == l && (l + r)[|l|..] == r;
  }

  /** Hashing the bottom level first does not change a full tree. */
  lemma {:induction false} TreeRootBottomUp(h: PairHash, height: nat, l: seq<Hash>, r: seq<Hash>)
    requires height > 0 && |l| == |r| == Pow2(height - 1)
    ensures |Level(h, l + r)| == Pow2(height - 1)
    ensures TreeRoot(h, height, l + r) == TreeRoot(h, height - 1, Level(h, l + r))
    decreases height
  {
    TreeRootSplit(h, height - 1, l, r);
    if height == 1 {
      assert Level(h, l + r)[0] == Combine(h, l[0], r[0]);
    } else {
      hide TreeRoot, Level;
      var quarter := Pow2(height - 2);
      assert l == l[..quarter] + l[quarter..] && r == r[..quarter] + r[quarter..];
      TreeRootBottomUp(h, height - 1, l[..quarter], l[quarter..]);
      TreeRootBottomUp(h, height - 1, r[..quarter], r[quarter..]);
      LevelOfConcat(h, l, r);
      TreeRootSplit(h, height - 2, Level(h, l), Level(h, r));
    }
  }

  lemma LevelOfPaddedWidth(h: PairHash, xs: seq<Hash>, w: nat)
    requires |xs| <= 2 * w
    ensures Level(h, Padded(xs, 2 * w)) == Padded(Level(h, xs), w)
  {
    LevelOfPadded(h, xs, 2 * w - |xs|);
  }

  /** The level-by-level root is the root of the tree whose missing leaves are zero. */
  lemma {:induction false} RootIsPaddedTree(h: PairHash, xs: seq<Hash>, height: nat)
    requires LeastHeight(|xs|, height)
    ensures Root(h, xs) == TreeRoot(h, height, Padded(xs, Pow2(height)))
    decreases height
  {
    if height > 0 {
      hide Padded;
      var w := Pow2(height - 1);
      var full := Padded(xs, 2 * w);
      RootIsPaddedTree(h, Level(h, xs), height - 1);
      LevelOfPaddedWidth(h, xs, w);
      assert full == full[..w] + full[w..];
      TreeRootBottomUp(h, height, full[..w], full[w..]);
    }
  }

  lemma PaddedTwice(xs: seq<Hash>, k: nat, w: nat)
    requires |xs| + k <= w
    ensures Padded(xs + Zeros(k), w) == Padded(xs, w)
  {
  }

  /** Zero padding up to the next power of two leaves the root unchanged. */
  lemma PaddingKeepsRoot(h: PairHash, xs: seq<Hash>, k: nat, height: nat)
    requires LeastHeight(|xs|, height) && |xs| + k <= Pow2(height)
    ensures Root(h, xs + Zeros(k)) == Root(h, xs)
  {
    hide Padded, Root, TreeRoot, Zeros;
    RootIsPaddedTree(h, xs, height);
    RootIsPaddedTree(h, xs + Zeros(k), height);
    PaddedTwice(xs, k, Pow2(height));
  }

  lemma {:induction false} ZeroTree(h: PairHash, height: nat)
    ensures TreeRoot(h, height, Zeros(Pow2(height))) == ZERO_HASH
  {
    if height > 0 {
      var half := Pow2(height - 1);
      ZeroTree(h, height - 1);
      assert Zeros(Pow2(height))[..half] == Zeros(half);
    }
  }

  lemma PaddedPast(xs: seq<Hash>, k: nat, w: nat)
    requires |xs| <= w < |xs| + k <= 2 * w
    ensures Padded(xs + Zeros(k), 2 * w) == Padded(xs, w) + Zeros(w)
  {
  }

  /** One zero past the next power of two is not neutral: the root is hashed with itself. */
  lemma PaddingPastThePowerOfTwo(h: PairHash, xs: seq<Hash>, k: nat, height: nat)
    requires LeastHeight(|xs|, height) && Pow2(height) < |xs| + k <= 2 * Pow2(height)
    ensures Root(h, xs + Zeros(k)) == Combine(h, Root(h, xs), ZERO_HASH)
  {
    hide Padded, Root, TreeRoot, Combine, Zeros;
    var w := Pow2(height);
    RootIsPaddedTree(h, xs, height);
    RootIsPaddedTree(h, xs + Zeros(k), height + 1);
    PaddedPast(xs, k, w);
    TreeRootSplit(h, height, Padded(xs, w), Zeros(w));
    ZeroTree(h, height);
  }

  /** One more doubling of the width hashes the root with itself, unless it is absent. */
  function Doubled(h: PairHash, r: Hash, m: nat): Hash {
    if m == 0 then r else Combine(h, Doubled(h, r, m - 1), ZERO_HASH)
  }

  lemma LeastHeightGrows(n: nat, height: nat)
    requires LeastHeight(n, height)
    ensures n <= Pow2(height) && LeastHeight(Pow2(height), height)
  {
  }

  lemma {:induction false} Pow2Grows(a: nat, b: nat)
    requires a <= b
    ensures Pow2(a) <= Pow2(b)
  {
    if a < b {
      Pow2Grows(a, b - 1);
    }
  }

  /** Zero padding of any amount: the root is hashed with itself once for each doubling of the tree's width. */
  lemma {:induction false} PaddingDoubles(h: PairHash, xs: seq<Hash>, k: nat, height: nat, m: nat)
    requires LeastHeight(|xs|, height) && LeastHeight(|xs| + k, height + m)
    ensures Root(h, xs + Zeros(k)) == Doubled(h, Root(h, xs), m)
  {
    hide Root, Combine;
    if m == 0 {
      PaddingKeepsRoot(h, xs, k, height);
    } else {
      var w := Pow2(height + m - 1);
      Pow2Grows(height, height + m - 1);
      LeastHeightGrows(|xs|, height);
      var full := xs + Zeros(w - |xs|);
      FullHeight(height + m - 1);
      PaddingDoubles(h, xs, w - |xs|, height, m - 1);
      PaddingPastThePowerOfTwo(h, full, |xs| + k - w, height + m - 1);
      assert full + Zeros(|xs| + k - w) == xs + Zeros(k);
    }
  }

  lemma FullHeight(height: nat)
    ensures LeastHeight(Pow2(height), height)
  {
  }

  predicate Fixed(h: PairHash, r: Hash) {
    r == ZERO_HASH || h(r, r) == r
  }

  lemma {:induction false} FixedStays(h: PairHash, r: Hash, m: nat)
    requires Fixed(h, r)
    ensures Doubled(h, r, m) == r
  {
    if m > 0 {
      FixedStays(h, r, m - 1);
    }
  }

  lemma {:induction false} HeightOf(n: nat, from: nat) returns (height: nat)
    requires n >= 1 && (from > 0 ==> n > Pow2(from - 1))
    ensures height >= from && LeastHeight(n, height)
    decreases n - from
  {
    Pow2Exceeds(from);
    if n <= Pow2(from) {
      height := from;
    } else {
      height := HeightOf(n, from + 1);
    }
  }

  lemma {:induction false} Pow2Exceeds(n: nat)
    ensures Pow2(n) > n
  {
    if n > 0 {
      Pow2Exceeds(n - 1);
    }
  }

  lemma {:induction false} FromHeight(n: nat, k: nat, height: nat) returns (taller: nat)
    requires LeastHeight(n, height)
    ensures taller >= height && LeastHeight(n + k, taller)
  {
    taller := HeightOf(n + k, height);
  }

  lemma {:induction false} FixedIsNeutral(h: PairHash, xs: seq<Hash>, k: nat)
    requires |xs| >= 1 && Fixed(h, Root(h, xs))
    ensures Root(h, xs + Zeros(k)) == Root(h, xs)
  {
    hide Root, Doubled, Fixed, Pow2;
    var height := HeightOf(|xs|, 0);
    var taller := FromHeight(|xs|, k, height);
    PaddingDoubles(h, xs, k, height, taller - height);
    FixedStays(h, Root(h, xs), taller - height);
  }

  /** One zero past the next power of two changes a root that is neither absent nor fixed. */
  lemma {:induction false} MovedByADoubling(h: PairHash, xs: seq<Hash>) returns (k: nat)
    requires |xs| >= 1 && !Fixed(h, Root(h, xs))
    ensures Root(h, xs + Zeros(k)) != Root(h, xs)
  {
    hide Root, Pow2;
    var height := HeightOf(|xs|, 0);
    k := Pow2(height) + 1 - |xs|;
    PaddingPastThePowerOfTwo(h, xs, k, height);
  }

  predicate Neutral(h: PairHash, xs: seq<Hash>, k: nat)
    requires |xs| >= 1
  {
    Root(h, xs + Zeros(k)) == Root(h, xs)
  }

  /**
   Padding with zeros is neutral up to the next power of two. It is neutral whatever the amount if and only if
   the root is absent or hashes with itself to itself.
   */
  lemma {:induction false} AnyPaddingIsNeutralIff(h: PairHash, xs: seq<Hash>)
    requires |xs| >= 1
    ensures (forall k: nat :: Neutral(h, xs, k)) <==> Fixed(h, Root(h, xs))
  {
    hide Root, Fixed;
    if Fixed(h, Root(h, xs)) {
      forall k: nat
        ensures Neutral(h, xs, k)
      {
        FixedIsNeutral(h, xs, k);
      }
    } else {
      var k := MovedByADoubling(h, xs);
      assert !Neutral(h, xs, k);
    }
  }

  // ----- A root names one node list of a given length -----

  predicate NoZero(xs: seq<Hash>) {
    forall i | 0 <= i < |xs| :: xs[i] != ZERO_HASH
  }

  /** The k-th level above xs. */
  function Climb(h: PairHash, xs: seq<Hash>, k: nat): seq<Hash>
    decreases k
  {
    if k == 0 then xs else Climb(h, Level(h, xs), k - 1)
  }

  /** What is hashed for parent p of a level. */
  function PairAt(xs: seq<Hash>, p: nat): (Hash, Hash)
    requires 2 * p < |xs|
  {
    (xs[2 * p], if 2 * p + 1 < |xs| && xs[2 * p + 1] != ZERO_HASH then xs[2 * p + 1] else xs[2 * p])
  }

  function HashOf(h: PairHash, pair: (Hash, Hash)): Hash {
    h(pair.0, pair.1)
  }

  /** The computation of a root hashes a pair for parent p of this level. */
  predicate HashedAt(xs: seq<Hash>, p: nat) {
    |xs| >= 2 && 2 * p < |xs| && xs[2 * p] != ZERO_HASH
  }

  /** Something a good hash does not do, at a place in the two computations. */
  datatype Flaw = Collision(level: nat, p: nat) | ZeroOutput(level: nat, p: nat, first: bool)

  /**
   The computations of the roots of xs and ys, at the same place, hash two different pairs to one value; or
   one of them hashes a pair to zero.
   */
  predicate IsFlaw(h: PairHash, xs: seq<Hash>, ys: seq<Hash>, flaw: Flaw) {
    match flaw
    case Collision(level, p) =>
      var a, b := Climb(h, xs, level), Climb(h, ys, level);
      && HashedAt(a, p) && HashedAt(b, p)
      && PairAt(a, p) != PairAt(b, p) && HashOf(h, PairAt(a, p)) == HashOf(h, PairAt(b, p))
    case ZeroOutput(level, p, first) =>
      var a := Climb(h, if first then xs else ys, level);
      HashedAt(a, p) && HashOf(h, PairAt(a, p)) == ZERO_HASH
  }

  lemma FlawAbove(h: PairHash, xs: seq<Hash>, ys: seq<Hash>, flaw: Flaw)
    requires IsFlaw(h, Level(h, xs), Level(h, ys), flaw)
    ensures IsFlaw(h, xs, ys, if flaw.Collision? then Collision(flaw.level + 1, flaw.p)
                              else ZeroOutput(flaw.level + 1, flaw.p, flaw.first))
  {
    hide Level, PairAt;
  }

  lemma ZeroParent(h: PairHash, xs: seq<Hash>) returns (p: nat)
    requires NoZero(xs) && |xs| >= 2 && !NoZero(Level(h, xs))
    ensures HashedAt(xs, p) && HashOf(h, PairAt(xs, p)) == ZERO_HASH
  {
    p :| 0 <= p < |Level(h, xs)| && Level(h, xs)[p] == ZERO_HASH;
    assert Parent(h, xs, p) == HashOf(h, PairAt(xs, p));
  }

  lemma SameLevelCollides(h: PairHash, xs: seq<Hash>, ys: seq<Hash>) returns (p: nat)
    requires NoZero(xs) && NoZero(ys) && |xs| == |ys| >= 2 && xs != ys && Level(h, xs) == Level(h, ys)
    ensures HashedAt(xs, p) && HashedAt(ys, p)
    ensures PairAt(xs, p) != PairAt(ys, p) && HashOf(h, PairAt(xs, p)) == HashOf(h, PairAt(ys, p))
  {
    var i :| 0 <= i < |xs| && xs[i] != ys[i];
    p := i / 2;
    assert i == 2 * p || i == 2 * p + 1;
    assert Level(h, xs)[p] == Parent(h, xs, p) == HashOf(h, PairAt(xs, p));
    assert Level(h, ys)[p] == Parent(h, ys, p) == HashOf(h, PairAt(ys, p));
  }

  /**
   A root names one list of a given length: two different lists with one root hand over a collision between
   pairs their computations hash at the same place, or a pair one of them hashes to zero.
   */
  lemma {:induction false} RootNamesOneList(h: PairHash, xs: seq<Hash>, ys: seq<Hash>) returns (flaw: Flaw)
    requires NoZero(xs) && NoZero(ys) && |xs| == |ys| >= 1 && Root(h, xs) == Root(h, ys)
    ensures xs == ys || IsFlaw(h, xs, ys, flaw)
    decreases |xs|
  {
    flaw := Collision(0, 0);
    if |xs| > 1 && xs != ys {
      var above, beside := Level(h, xs), Level(h, ys);
      if !NoZero(above) {
        var p := ZeroParent(h, xs);
        flaw := ZeroOutput(0, p, true);
      } else if !NoZero(beside) {
        var p := ZeroParent(h, ys);
        flaw := ZeroOutput(0, p, false);
      } else if above == beside {
        var p := SameLevelCollides(h, xs, ys);
        flaw := Collision(0, p);
      } else {
        var up := RootNamesOneList(h, above, beside);
        FlawAbove(h, xs, ys, up);
        flaw := if up.Collision? then Collision(up.level + 1, up.p) else ZeroOutput(up.level + 1, up.p, up.first);
      }
    }
  }

  /** The fixed count matters: repeating the last of an odd list keeps the root. */
  lemma LengthsCanShareARoot(h: PairHash, a: Hash, b: Hash, c: Hash)
    requires c != ZERO_HASH
    ensures Root(h, [a, b, c]) == Root(h, [a, b, c, c])
  {
    assert Level(h, [a, b, c]) == Level(h, [a, b, c, c]);
  }

  /** So does the absence of zero nodes: a zero node reads as a repeat of its left neighbour. */
  lemma ZeroNodesCanShareARoot(h: PairHash, a: Hash)
    ensures Root(h, [a, ZERO_HASH]) == Root(h, [a, a])
  {
    assert Level(h, [a, ZERO_HASH]) == Level(h, [a, a]);
  }

  // ----- Goroutines splitting a level -----

  /** One goroutine of hashLevel: it owns parents lo..hi-1 and computes next. */
  datatype Hasher = Hasher(lo: nat, hi: nat, next: nat)

  datatype LevelState = LevelState(out: seq<Hash>, hashers: seq<Hasher>)

  /** The scheduler lets hasher w compute one parent. */
  function HasherStep(h: PairHash, xs: seq<Hash>, s: LevelState, w: nat): LevelState {
    if w < |s.hashers| && s.hashers[w].next < s.hashers[w].hi
       && s.hashers[w].next < |s.out| && 2 * s.hashers[w].next < |xs| then
      var g := s.hashers[w];
      LevelState(s.out[g.next := Parent(h, xs, g.next)], s.hashers[w := g.(next := g.next + 1)])
    else s
  }

  function HasherRun(h: PairHash, xs: seq<Hash>, s: LevelState, schedule: seq<nat>): LevelState
    decreases |schedule|
  {
    if schedule == [] then s
    else HasherRun(h, xs, HasherStep(h, xs, s, schedule[0]), schedule[1..])
  }

  ghost predicate HashersInv(h: PairHash, xs: seq<Hash>, s: LevelState) {
    && |s.out| == (|xs| + 1) / 2
    && (forall w | 0 <= w < |s.hashers| ::
          s.hashers[w].lo <= s.hashers[w].next <= s.hashers[w].hi <= |s.out|)
    && (forall w, p | 0 <= w < |s.hashers| && s.hashers[w].lo <= p < s.hashers[w].next ::
          s.out[p] == Parent(h, xs, p))
  }

  predicate Owned(hashers: seq<Hasher>, p: nat) {
    exists w :: 0 <= w < |hashers| && hashers[w].lo <= p < hashers[w].hi
  }

  ghost predicate Covers(hashers: seq<Hasher>, parents: nat) {
    forall p | 0 <= p < parents :: Owned(hashers, p)
  }

  ghost predicate SameRanges(a: seq<Hasher>, b: seq<Hasher>) {
    |a| == |b| && forall w | 0 <= w < |a| :: a[w].lo == b[w].lo && a[w].hi == b[w].hi
  }

  lemma {:induction false} HasherRunKeeps(h: PairHash, xs: seq<Hash>, s: LevelState, schedule: seq<nat>)
    requires HashersInv(h, xs, s)
    ensures HashersInv(h, xs, HasherRun(h, xs, s, schedule))
    ensures SameRanges(s.hashers, HasherRun(h, xs, s, schedule).hashers)
    decreases |schedule|
  {
    if schedule != [] {
      var t := HasherStep(h, xs, s, schedule[0]);
      assert HashersInv(h, xs, t);
      HasherRunKeeps(h, xs, t, schedule[1..]);
    }
  }

  /** Whatever ranges cover a level and whatever order the goroutines run in, the level is the same. */
  lemma AnyScheduleHashesTheLevel(h: PairHash, xs: seq<Hash>, s: LevelState, schedule: seq<nat>)
    requires HashersInv(h, xs, s)
    requires Covers(s.hashers, |s.out|)
    requires forall g <- HasherRun(h, xs, s, schedule).hashers :: g.next == g.hi
    ensures HasherRun(h, xs, s, schedule).out == Level(h, xs)
  {
    HasherRunKeeps(h, xs, s, schedule);
    var t := HasherRun(h, xs, s, schedule);
    forall p | 0 <= p < |t.out|
      ensures t.out[p] == Level(h, xs)[p]
    {
      assert Owned(s.hashers, p);
      var w :| 0 <= w < |s.hashers| && s.hashers[w].lo <= p < s.hashers[w].hi;
      assert t.hashers[w] in t.hashers;
    }
  }

  /** The goroutines hashLevel starts from parent lo on, chunk parents each. */
  function Hashers(parents: nat, chunk: nat, lo: nat): seq<Hasher>
    requires chunk >= 1
    decreases parents - lo
  {
    if lo >= parents then []
    else [Hasher(lo, if lo + chunk < parents then lo + chunk else parents, lo)] + Hashers(parents, chunk, lo + chunk)
  }

  lemma {:induction false} HashersOwn(parents: nat, chunk: nat, lo: nat, p: nat)
    requires chunk >= 1 && lo <= p < parents
    ensures Owned(Hashers(parents, chunk, lo), p)
    decreases parents - lo
  {
    var gs := Hashers(parents, chunk, lo);
    if p < lo + chunk {
      assert gs[0].lo <= p < gs[0].hi;
    } else {
      var rest := Hashers(parents, chunk, lo + chunk);
      HashersOwn(parents, chunk, lo + chunk, p);
      var w :| 0 <= w < |rest| && rest[w].lo <= p < rest[w].hi;
      assert gs[w + 1] == rest[w];
    }
  }

  lemma {:induction false} HashersStart(parents: nat, chunk: nat, lo: nat)
    requires chunk >= 1
    ensures forall g <- Hashers(parents, chunk, lo) :: g.lo == g.next <= g.hi <= parents
    decreases parents - lo
  {
    if lo < parents {
      HashersStart(parents, chunk, lo + chunk);
    }
  }

  /** The split the program makes is one of those: run to the end in any order, it hashes the level. */
  lemma ProgramSplitHashesTheLevel(h: PairHash, xs: seq<Hash>, before: seq<Hash>, workers: nat, schedule: seq<nat>)
    requires |xs| >= 1 && workers >= 1 && |before| == (|xs| + 1) / 2
    ensures
      var chunk := (|before| + workers - 1) / workers;
      && chunk >= 1
      && var end := HasherRun(h, xs, LevelState(before, Hashers(|before|, chunk, 0)), schedule);
      (forall g <- end.hashers :: g.next == g.hi) ==> end.out == Level(h, xs)
  {
    var chunk := (|before| + workers - 1) / workers;
    assert chunk >= 1 by {
      assert |before| + workers - 1 >= workers;
    }
    var s := LevelState(before, Hashers(|before|, chunk, 0));
    HashersStart(|before|, chunk, 0);
    forall p | 0 <= p < |before|
      ensures Owned(s.hashers, p)
    {
      HashersOwn(|before|, chunk, 0, p);
    }
    assert forall w | 0 <= w < |s.hashers| :: s.hashers[w] in s.hashers;
    assert HashersInv(h, xs, s);
    if forall g <- HasherRun(h, xs, s, schedule).hashers :: g.next == g.hi {
      AnyScheduleHashesTheLevel(h, xs, s, schedule);
    }
  }

  // ----- The buffers -----

  /** The n-node list a strided buffer holds from offset base. */
  predicate Holds(len: nat, base: nat, stride: nat, n: nat) {
    n >= 1 && stride >= 32 && base + (n - 1) * stride + 32 <= len
  }

  lemma NodeInBounds(len: nat, base: nat, stride: nat, n: nat, i: nat)
    requires Holds(len, base, stride, n) && i < n
    ensures 0 <= i * stride && base + i * stride + 32 <= len
  {
    assert (n - 1) * stride - i * stride == (n - 1 - i) * stride;
    assert (n - 1 - i) * stride >= 0;
  }

  /** Node i of a strided buffer; a buffer that holds the node never takes the last branch. */
  function NodeAt(s: seq<Byte>, base: nat, stride: nat, i: nat): Hash {
    if base + i * stride + 32 <= |s| then s[base + i * stride..base + i * stride + 32] else ZERO_HASH
  }

  function Nodes(s: seq<Byte>, base: nat, stride: nat, n: nat): seq<Hash> {
    seq(n, i requires 0 <= i < n => NodeAt(s, base, stride, i))
  }

  /** Parent p of the n hashes in src, as one pass of hashRange's loop computes it. */
  method HashPair(h: PairHash, src: array<Byte>, base: nat, stride: nat, n: nat, p: nat) returns (out: Hash)
    requires Holds(src.Length, base, stride, n) && 2 * p < n
    ensures out == Parent(h, Nodes(src[..], base, stride, n), p)
  {
    ghost var xs := Nodes(src[..], base, stride, n);
    NodeInBounds(src.Length, base, stride, n, 2 * p);
    var left: Hash := src[base + 2 * p * stride..base + 2 * p * stride + 32];
    assert left == xs[2 * p];
    if left == ZERO_HASH {
      return ZERO_HASH;
    }
    var right: Hash := left;
    var r := 2 * p + 1;
    if r < n {
      NodeInBounds(src.Length, base, stride, n, r);
      var node: Hash := src[base + r * stride..base + r * stride + 32];
      assert node == xs[r];
      if node != ZERO_HASH {
        right := node;
      }
    }
    out := h(left, right);
  }

  /** The first k parents stand in dst, 32 bytes each. */
  ghost predicate Written(dst: seq<Byte>, parents: seq<Hash>, lo: nat, hi: nat) {
    && 32 * |parents| <= |dst|
    && forall p | lo <= p < hi && p < |parents| :: dst[32 * p..32 * p + 32] == parents[p]
  }

  method CopyOut(dst: array<Byte>, p: nat, out: Hash)
    requires 32 * p + 32 <= dst.Length
    modifies dst
    ensures dst[..] == old(dst[..32 * p]) + out + old(dst[32 * p + 32..])
  {
    forall j | 0 <= j < 32 {
      dst[32 * p + j] := out[j];
    }
  }

  lemma WrittenOneMore(before: seq<Byte>, after: seq<Byte>, parents: seq<Hash>, lo: nat, p: nat)
    requires lo <= p < |parents| && Written(before, parents, lo, p)
    requires after == before[..32 * p] + parents[p] + before[32 * p + 32..]
    ensures Written(after, parents, lo, p + 1)
  {
    forall q | lo <= q < p + 1
      ensures after[32 * q..32 * q + 32] == parents[q]
    {
      if q < p {
        assert after[32 * q..32 * q + 32] == before[32 * q..32 * q + 32];
      }
    }
  }

  lemma CopiedNowhereElse(before: seq<Byte>, after: seq<Byte>, out: Hash, lo: nat, p: nat)
    requires lo <= p && 32 * p + 32 <= |before| && after == before[..32 * p] + out + before[32 * p + 32..]
    ensures after[..32 * lo] == before[..32 * lo] && after[32 * (p + 1)..] == before[32 * (p + 1)..]
  {
  }

  lemma NothingWritten(dst: seq<Byte>, parents: seq<Hash>, lo: nat)
    requires 32 * |parents| <= |dst|
    ensures Written(dst, parents, lo, lo)
  {
  }

  lemma LevelSize(h: PairHash, src: seq<Byte>, base: nat, stride: nat, n: nat)
    ensures |Level(h, Nodes(src, base, stride, n))| == (n + 1) / 2
  {
  }

  lemma LevelAt(h: PairHash, src: seq<Byte>, base: nat, stride: nat, n: nat, p: nat)
    requires 2 * p < n
    ensures
      var xs := Nodes(src, base, stride, n);
      2 * p < |xs| && p < |Level(h, xs)| && Level(h, xs)[p] == Parent(h, xs, p)
  {
  }

  /** Parents lo..hi-1 of the n hashes in src, written into dst and nowhere else. */
  method HashRange(h: PairHash, dst: array<Byte>, src: array<Byte>, base: nat, stride: nat, n: nat, lo: nat, hi: nat)
    requires dst != src
    requires Holds(src.Length, base, stride, n)
    requires lo <= hi <= (n + 1) / 2 && 32 * ((n + 1) / 2) <= dst.Length
    modifies dst
    ensures Written(dst[..], Level(h, Nodes(src[..], base, stride, n)), lo, hi)
    ensures dst[..32 * lo] == old(dst[..32 * lo]) && dst[32 * hi..] == old(dst[32 * hi..])
  {
    hide Level, Nodes, Written;
    ghost var parents := Level(h, Nodes(src[..], base, stride, n));
    LevelSize(h, src[..], base, stride, n);
    NothingWritten(dst[..], parents, lo);
    for p := lo to hi
      invariant Written(dst[..], parents, lo, p)
      invariant dst[..32 * lo] == old(dst[..32 * lo]) && dst[32 * p..] == old(dst[32 * p..])
    {
      ghost var before := dst[..];
      var out := HashPair(h, src, base, stride, n, p);
      LevelAt(h, src[..], base, stride, n, p);
      CopyOut(dst, p, out);
      WrittenOneMore(before, dst[..], parents, lo, p);
      CopiedNowhereElse(before, dst[..], out, lo, p);
      assert before[32 * (p + 1)..] == before[32 * p..][32..] && old(dst[32 * p..])[32..] == old(dst[32 * (p + 1)..]);
    }
  }

  const PARALLEL_MIN: nat := 16384
  const MAX_WORKERS: nat := 4

  lemma WrittenNodes(dst: seq<Byte>, parents: seq<Hash>)
    requires Written(dst, parents, 0, |parents|)
    ensures Nodes(dst, 0, 32, |parents|) == parents
  {
  }

  lemma WrittenPrefix(before: seq<Byte>, after: seq<Byte>, parents: seq<Hash>, lo: nat, hi: nat)
    requires lo <= hi <= |parents| && |before| == |after|
    requires Written(before, parents, 0, lo) && Written(after, parents, lo, hi) && before[..32 * lo] == after[..32 * lo]
    ensures Written(after, parents, 0, hi)
  {
    forall p | 0 <= p < lo
      ensures after[32 * p..32 * p + 32] == parents[p]
    {
      assert after[32 * p..32 * p + 32] == after[..32 * lo][32 * p..32 * p + 32];
      assert before[32 * p..32 * p + 32] == before[..32 * lo][32 * p..32 * p + 32];
    }
  }

  /** The (n+1)/2 parents of the n hashes in src; procs is GOMAXPROCS. */
  method HashLevel(h: PairHash, dst: array<Byte>, src: array<Byte>, base: nat, stride: nat, n: nat, procs: nat)
    requires dst != src
    requires Holds(src.Length, base, stride, n)
    requires 32 * ((n + 1) / 2) <= dst.Length
    modifies dst
    ensures Nodes(dst[..], 0, 32, (n + 1) / 2) == Level(h, Nodes(src[..], base, stride, n))
  {
    ghost var level := Level(h, Nodes(src[..], base, stride, n));
    var parents := (n + 1) / 2;
    var workers := 1;
    if parents >= PARALLEL_MIN {
      workers := if procs < MAX_WORKERS then procs else MAX_WORKERS;
    }
    if workers <= 1 {
      HashRange(h, dst, src, base, stride, n, 0, parents);
    } else {
      var chunk := (parents + workers - 1) / workers;
      var lo := 0;
      while lo < parents
        invariant Written(dst[..], level, 0, lo)
      {
        var hi := if lo + chunk < parents then lo + chunk else parents;
        ghost var before := dst[..];
        HashRange(h, dst, src, base, stride, n, lo, hi);
        WrittenPrefix(before, dst[..], level, lo, hi);
        lo := lo + chunk;
      }
    }
    WrittenNodes(dst[..], level);
  }

  /** The root of the n node hashes at the given stride, through two alternating buffers. */
  method ComputeRoot(h: PairHash, nodes: array<Byte>, base: nat, stride: nat, count: nat, procs: nat) returns (root: Hash)
    requires Holds(nodes.Length, base, stride, count)
    ensures root == Root(h, Nodes(nodes[..], base, stride, count))
  {
    if count == 1 {
      root := nodes[base..base + 32];
      return;
    }
    var n := (count + 1) / 2;
    var src := new Byte[n * 32];
    HashLevel(h, src, nodes, base, stride, count, procs);
    var dst := new Byte[((n + 1) / 2) * 32];
    while n > 1
      invariant n >= 1 && src != dst && fresh(src) && fresh(dst)
      invariant n * 32 <= src.Length && ((n + 1) / 2) * 32 <= dst.Length
      invariant Root(h, Nodes(src[..], 0, 32, n)) == Root(h, Nodes(nodes[..], base, stride, count))
      decreases n
    {
      HashLevel(h, dst, src, 0, 32, n, procs);
      n := (n + 1) / 2;
      src, dst := dst, src;
    }
    root := src[..32];
  }

  // ----- The payload check -----

  datatype Verdict = Accepted | Malformed | RootMismatch

  const HASH_STRIDE: nat := 32
  const FULL_STRIDE: nat := 48

  function Stride(full: bool): nat {
    if full then FULL_STRIDE else HASH_STRIDE
  }

  function NodeCount(payload: seq<Byte>): nat
    requires |payload| >= 24
  {
    BigEndian(payload[16..24])
  }

  predicate WellFormed(full: bool, hdr: nat, payload: seq<Byte>)
    requires hdr >= 24
  {
    && |payload| >= hdr
    && NodeCount(payload) >= 1
    && NodeCount(payload) * Stride(full) <= |payload| - hdr
  }

  lemma WellFormedHolds(full: bool, hdr: nat, payload: seq<Byte>)
    requires hdr >= 24 && WellFormed(full, hdr, payload)
    ensures Holds(|payload|, hdr, Stride(full), NodeCount(payload))
  {
  }

  function PayloadNodes(full: bool, hdr: nat, payload: seq<Byte>): seq<Hash>
    requires hdr >= 24 && WellFormed(full, hdr, payload)
  {
    Nodes(payload, hdr, Stride(full), NodeCount(payload))
  }

  /** hdr is the BRC-132 payload header's size; its NodeCount occupies bytes 16..23. */
  method VerifySubtreePayload(h: PairHash, root: Hash, full: bool, hdr: nat, payload: array<Byte>, procs: nat)
    returns (v: Verdict)
    requires hdr >= 24
    ensures v == Malformed <==> !WellFormed(full, hdr, payload[..])
    ensures v == Accepted <==> WellFormed(full, hdr, payload[..]) && Root(h, PayloadNodes(full, hdr, payload[..])) == root
  {
    var stride := Stride(full);
    if payload.Length < hdr {
      return Malformed;
    }
    assert payload[..][16..24] == payload[16..24];
    var count := BigEndian(payload[16..24]);
    var avail := (payload.Length - hdr) / stride;
    if count == 0 || count > avail {
      return Malformed;
    }
    WellFormedHolds(full, hdr, payload[..]);
    var r := ComputeRoot(h, payload, hdr, stride, count, procs);
    v := if r != root then RootMismatch else Accepted;
  }

  /** What the check decides, as a function of the payload. */
  function Judge(h: PairHash, root: Hash, full: bool, hdr: nat, payload: seq<Byte>): Verdict
    requires hdr >= 24
  {
    if !WellFormed(full, hdr, payload) then Malformed
    else if Root(h, PayloadNodes(full, hdr, payload)) == root then Accepted
    else RootMismatch
  }

  /** A root accepts one node list of a given length, or the two lists it accepts hand over a flaw of the hash. */
  lemma AcceptsOneListPerCount(h: PairHash, root: Hash, full: bool, hdr: nat, a: seq<Byte>, b: seq<Byte>)
    returns (flaw: Flaw)
    requires hdr >= 24
    requires Judge(h, root, full, hdr, a) == Accepted && Judge(h, root, full, hdr, b) == Accepted
    requires NodeCount(a) == NodeCount(b)
    requires NoZero(PayloadNodes(full, hdr, a)) && NoZero(PayloadNodes(full, hdr, b))
    ensures
      var xs, ys := PayloadNodes(full, hdr, a), PayloadNodes(full, hdr, b);
      xs == ys || IsFlaw(h, xs, ys, flaw)
  {
    flaw := RootNamesOneList(h, PayloadNodes(full, hdr, a), PayloadNodes(full, hdr, b));
  }

  /** Byte k of a payload lies in a node's hash, as opposed to its fee and size. */
  predicate HashByte(full: bool, hdr: nat, k: nat) {
    k >= hdr && (k - hdr) % Stride(full) < 32
  }

  lemma NodeBytesAreHashBytes(full: bool, hdr: nat, i: nat, j: nat)
    requires j < 32
    ensures HashByte(full, hdr, hdr + i * Stride(full) + j)
  {
    if full {
      assert (i * 48 + j) % 48 == j;
    } else {
      assert (i * 32 + j) % 32 == j;
    }
  }

  lemma SameHashBytesSameNodes(full: bool, hdr: nat, a: seq<Byte>, b: seq<Byte>, n: nat)
    requires |a| == |b|
    requires forall k | 0 <= k < |a| && HashByte(full, hdr, k) :: a[k] == b[k]
    ensures Nodes(a, hdr, Stride(full), n) == Nodes(b, hdr, Stride(full), n)
  {
    forall i | 0 <= i < n
      ensures NodeAt(a, hdr, Stride(full), i) == NodeAt(b, hdr, Stride(full), i)
    {
      var o := hdr + i * Stride(full);
      if o + 32 <= |a| {
        forall k | o <= k < o + 32
          ensures a[k] == b[k]
        {
          NodeBytesAreHashBytes(full, hdr, i, k - o);
        }
        assert a[o..o + 32] == b[o..o + 32];
      }
    }
  }

  /** The verdict reads the node count and the hashes: fee, size and the other header bytes are free. */
  lemma FeeAndSizeAreNotRead(h: PairHash, root: Hash, full: bool, hdr: nat, a: seq<Byte>, b: seq<Byte>)
    requires hdr >= 24 && |a| == |b|
    requires |a| >= 24 ==> a[16..24] == b[16..24]
    requires forall k | 0 <= k < |a| && HashByte(full, hdr, k) :: a[k] == b[k]
    ensures Judge(h, root, full, hdr, a) == Judge(h, root, full, hdr, b)
  {
    if WellFormed(full, hdr, a) {
      SameHashBytesSameNodes(full, hdr, a, b, NodeCount(a));
    }
  }
}
