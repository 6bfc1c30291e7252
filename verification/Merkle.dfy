/** The in-place, masked Merkle root of the light-client circuit computes the recursive tree of
    section 2.1 of RFC 6962 over the leaves in use, whatever fills the remaining slots. */
module Merkle {
  import opened Positional

  /** The two hash functions of the tree over values of type `T`; `empty` is the hash of nothing. */
  datatype Hasher<!T> = Hasher(inner: (T, T) -> T, empty: T)

  // ---------------------------------------------------------------- the recursive definition

  /** The largest power of two below `n`. */
  function Split(n: nat): (k: nat)
    requires n >= 2
    ensures 1 <= k < n <= 2 * k
  {
    if n == 2 then 1 else 2 * Split((n + 1) / 2)
  }

  lemma {:induction false} SplitIsPower(n: nat)
    requires n >= 2
    ensures exists e: nat :: Split(n) == Pow(2, e)
  {
    if n == 2 {
      assert Split(n) == Pow(2, 0);
    } else {
      SplitIsPower((n + 1) / 2);
      var e: nat :| Split((n + 1) / 2) == Pow(2, e);
      assert Split(n) == Pow(2, e + 1);
    }
  }

  /** The Merkle tree hash of section 2.1 of RFC 6962, over leaves that are hashed already. */
  function TreeHash<T>(h: Hasher<T>, leaves: seq<T>): T {
    if leaves == [] then h.empty
    else if |leaves| == 1 then leaves[0]
    else
      var k := Split(|leaves|);
      h.inner(TreeHash(h, leaves[..k]), TreeHash(h, leaves[k..]))
  }

  // ---------------------------------------------------------------- one level

  function Half(n: nat): nat { (n + 1) / 2 }

  /** Pairs are hashed together and an orphan is promoted unchanged. */
  function Level<T>(h: Hasher<T>, s: seq<T>): (r: seq<T>)
    ensures |r| == Half(|s|)
  {
    if |s| == 0 then []
    else if |s| == 1 then s
    else [h.inner(s[0], s[1])] + Level(h, s[2..])
  }

  lemma {:induction false} LevelAt<T>(h: Hasher<T>, s: seq<T>, i: nat)
    requires i < Half(|s|)
    ensures Level(h, s)[i] == if 2 * i + 1 < |s| then h.inner(s[2 * i], s[2 * i + 1]) else s[2 * i]
  {
    if i > 0 {
      var rest := s[2..];
      LevelAt(h, rest, i - 1);
      assert Level(h, s) == [h.inner(s[0], s[1])] + Level(h, rest);
      hide Level;
      assert rest[2 * i - 2] == s[2 * i];
      if 2 * i + 1 < |s| { assert rest[2 * i - 1] == s[2 * i + 1]; }
    }
  }

  lemma {:induction false} LevelSplits<T>(h: Hasher<T>, s: seq<T>, k: nat)
    requires k <= |s| && k % 2 == 0
    ensures Level(h, s) == Level(h, s[..k]) + Level(h, s[k..])
    decreases k
  {
    if k == 0 {
      assert s[k..] == s;
    } else {
      LevelSplits(h, s[2..], k - 2);
      assert s[2..][..k - 2] == s[..k][2..];
      assert s[2..][k - 2..] == s[k..];
      assert s[..k][0] == s[0] && s[..k][1] == s[1];
    }
  }

  /** Collapsing one level does not change the tree hash: the level lines up with the split. */
  lemma {:induction false} LevelKeepsTreeHash<T>(h: Hasher<T>, s: seq<T>)
    requires |s| >= 2
    ensures TreeHash(h, Level(h, s)) == TreeHash(h, s)
    decreases |s|
  {
    if |s| == 2 {
      assert Level(h, s) == [h.inner(s[0], s[1])];
    } else {
      var k := Split(|s|);
      var half := Split(Half(|s|));
      LevelSplits(h, s, k);
      LevelKeepsTreeHash(h, s[..k]);
      if |s| - k >= 2 {
        LevelKeepsTreeHash(h, s[k..]);
      }
      assert Level(h, s)[..half] == Level(h, s[..k]);
      assert Level(h, s)[half..] == Level(h, s[k..]);
    }
  }

  function Levels<T>(h: Hasher<T>, s: seq<T>, n: nat): (r: seq<T>)
    ensures |r| == Width(|s|, n)
    decreases n
  {
    if n == 0 then s else Level(h, Levels(h, s, n - 1))
  }

  lemma {:induction false} LevelsKeepTreeHash<T>(h: Hasher<T>, s: seq<T>, n: nat)
    ensures TreeHash(h, Levels(h, s, n)) == TreeHash(h, s)
  {
    if n > 0 {
      LevelsKeepTreeHash(h, s, n - 1);
      if |Levels(h, s, n - 1)| >= 2 {
        LevelKeepsTreeHash(h, Levels(h, s, n - 1));
      }
    }
  }

  // ---------------------------------------------------------------- the in-place algorithm

  /** `ceil(log2(n))`. */
  function CeilLog2(n: nat): (e: nat)
    requires n >= 1
    ensures n <= Pow(2, e)
  {
    if n == 1 then 0 else 1 + CeilLog2(Half(n))
  }

  /** `n` halved `i` times, each time rounded up: the number of slots that level `i` visits. */
  function Width(n: nat, i: nat): (w: nat)
    ensures n > 0 ==> w > 0
    ensures w <= n
    ensures i > 0 ==> w <= Half(n)
  {
    if i == 0 then n else Half(Width(n, i - 1))
  }

  lemma {:induction false} WidthProduct(n: nat, i: nat)
    ensures n <= Width(n, i) * Pow(2, i) < n + Pow(2, i)
  {
    if i > 0 {
      WidthProduct(n, i - 1);
      HalvedProduct(n, Width(n, i - 1), Pow(2, i - 1));
    }
  }

  /** `ceil(n / 2^i)`, as the source writes it. */
  lemma WidthIsCeilDiv(n: nat, i: nat)
    ensures Width(n, i) == (n + Pow(2, i) - 1) / Pow(2, i)
  {
    hide Width, Pow;
    WidthProduct(n, i);
    var w, p := Width(n, i), Pow(2, i);
    QuotientUnique(n + p - 1, p, w, n + p - 1 - p * w);
  }

  lemma HalvedProduct(n: nat, w: nat, p: nat)
    requires n <= w * p < n + p
    ensures n <= Half(w) * (2 * p) < n + 2 * p
  {
    var q := Half(w);
    var odd := w % 2;
    assert 2 * q == w + odd;
    assert q * (2 * p) == (w + odd) * p == w * p + odd * p;
    assert odd == 0 || odd == 1;
  }

  lemma {:induction false} WidthMonotone(m: nat, n: nat, i: nat)
    requires m <= n
    ensures Width(m, i) <= Width(n, i)
  {
    if i > 0 {
      WidthMonotone(m, n, i - 1);
    }
  }

  lemma {:induction false} WidthOfPower(n: nat, e: nat)
    requires 1 <= n <= Pow(2, e)
    ensures Width(n, e) == 1
  {
    hide Width, Pow;
    WidthProduct(n, e);
    OneWidth(n, Width(n, e), Pow(2, e));
  }

  lemma OneWidth(n: nat, w: nat, p: nat)
    requires 1 <= n <= p && n <= w * p < n + p
    ensures w == 1
  {
    if w >= 2 { Monotone(p, 2, w); }
  }

  function Monus(a: nat, b: nat): nat { if a <= b then 0 else a - b }

  /** `RootHash`. The slot `j + 1` exists at level 0 because the number of slots is even, and at the
      later levels because they visit at most half of the slots. */
  method RootHash<T>(h: Hasher<T>, leafHashes: array<T>, initialSize: nat) returns (root: T)
    requires leafHashes.Length == 1 || (leafHashes.Length > 0 && leafHashes.Length % 2 == 0)
    requires initialSize <= leafHashes.Length
    modifies leafHashes
    ensures root == TreeHash(h, old(leafHashes[..initialSize]))
  {
    ghost var used := leafHashes[..initialSize];
    var maxLeaves := leafHashes.Length;
    var size := initialSize;
    var levels := CeilLog2(maxLeaves);
    var i := 0;
    while i < levels
      invariant 0 <= i <= levels
      invariant size == Width(initialSize, i)
      invariant leafHashes[..size] == Levels(h, used, i)
    {
      size := HashLevel(h, leafHashes, size, Width(maxLeaves, i)) by {
        WidthMonotone(initialSize, maxLeaves, i);
      }
      i := i + 1;
    }
    LevelsKeepTreeHash(h, used, levels);
    if initialSize == 0 {
      root := h.empty;
    } else {
      WidthMonotone(initialSize, maxLeaves, levels);
      WidthOfPower(maxLeaves, levels);
      root := leafHashes[0];
      assert leafHashes[..1] == [root];
    }
  }

  /** One pass of the outer loop: `width` slots are visited two by two, of which the first `start` hold
      the current level. */
  method HashLevel<T>(h: Hasher<T>, leafHashes: array<T>, start: nat, width: nat) returns (size: nat)
    requires start <= width <= leafHashes.Length
    requires width % 2 == 1 ==> width < leafHashes.Length
    modifies leafHashes
    ensures size == Half(start)
    ensures leafHashes[..size] == Level(h, old(leafHashes[..start]))
  {
    ghost var level := leafHashes[..start];
    size := start;
    var r := start;
    var w := 0;
    var j := 0;
    while j < width
      invariant j == 2 * w && w <= j <= width + 1
      invariant r == Monus(start, j)
      invariant size == start - (if j <= start then w else start / 2)
      invariant forall x :: 0 <= x < w && x < Half(start) ==> leafHashes[x] == Level(h, level)[x]
      invariant forall x :: j <= x < start ==> leafHashes[x] == level[x]
    {
      var left := leafHashes[j];
      var right := leafHashes[j + 1];
      var root := h.inner(left, right);
      var isOrphan := r == 0 || r == 1;
      if w < Half(start) {
        LevelAt(h, level, w);
      }
      leafHashes[w] := if isOrphan then left else root;
      size := if size == 0 then 0 else if isOrphan then size else size - 1;
      r := if r == 0 then r else r - 1;
      r := if r == 0 then r else r - 1;
      w := w + 1;
      j := j + 2;
    }
  }

  // ---------------------------------------------------------------- binding

  /** The leaves of a tree over `values`. */
  function Leaves<V, T>(leaf: V -> T, values: seq<V>): (r: seq<T>)
    ensures |r| == |values|
  {
    seq(|values|, i requires 0 <= i < |values| => leaf(values[i]))
  }

  /** What a hash in a tree over values is a hash of. */
  datatype Preimage<V, T> = Nothing | Value(value: V) | Pair(left: T, right: T)

  function Image<V, T>(h: Hasher<T>, leaf: V -> T, x: Preimage<V, T>): T {
    match x
    case Nothing => h.empty
    case Value(v) => leaf(v)
    case Pair(l, r) => h.inner(l, r)
  }

  function Root<V, T>(h: Hasher<T>, leaf: V -> T, values: seq<V>): T { TreeHash(h, Leaves(leaf, values)) }

  /** What the root is a hash of. */
  function Top<V, T>(h: Hasher<T>, leaf: V -> T, values: seq<V>): Preimage<V, T> {
    if |values| == 0 then Nothing
    else if |values| == 1 then Value(values[0])
    else
      var k := Split(|values|);
      Pair(Root(h, leaf, values[..k]), Root(h, leaf, values[k..]))
  }

  lemma RootIsImage<V, T>(h: Hasher<T>, leaf: V -> T, values: seq<V>)
    ensures Root(h, leaf, values) == Image(h, leaf, Top(h, leaf, values))
  {
    if |values| >= 2 {
      var k := Split(|values|);
      var all := Leaves(leaf, values);
      assert all[..k] == Leaves(leaf, values[..k]) && all[k..] == Leaves(leaf, values[k..]);
    }
  }

  /** Everything that is hashed while computing the root. */
  function Hashed<V(==), T(==)>(h: Hasher<T>, leaf: V -> T, values: seq<V>): set<Preimage<V, T>> {
    {Top(h, leaf, values)}
    + (if |values| < 2 then {}
       else
         var k := Split(|values|);
         Hashed(h, leaf, values[..k]) + Hashed(h, leaf, values[k..]))
  }

  /** Two different preimages with one image: two values, two pairs, a value and a pair, or something that
      hashes to what stands for nothing. */
  predicate Clash<V(==), T(==)>(h: Hasher<T>, leaf: V -> T, x: Preimage<V, T>, y: Preimage<V, T>) {
    x != y && Image(h, leaf, x) == Image(h, leaf, y)
  }

  /** Walks two trees from the root down, along subtrees over different values, to the first nodes that are
      hashes of different things. */
  function FindClash<V(==), T(==)>(h: Hasher<T>, leaf: V -> T, s: seq<V>, t: seq<V>): (Preimage<V, T>, Preimage<V, T>)
    requires s != t
    decreases |s|
  {
    var x, y := Top(h, leaf, s), Top(h, leaf, t);
    if x != y || |s| < 2 || |t| < 2 then (x, y)
    else
      var k, l := Split(|s|), Split(|t|);
      assert s == s[..k] + s[k..] && t == t[..l] + t[l..];
      if s[..k] != t[..l] then FindClash(h, leaf, s[..k], t[..l]) else FindClash(h, leaf, s[k..], t[l..])
  }

  /** Of two different lists with the same root, whatever their lengths, the walk finds a clash between
      something hashed in the first tree and something hashed in the second. */
  lemma {:induction false} RootBindsValues<V, T>(h: Hasher<T>, leaf: V -> T, s: seq<V>, t: seq<V>)
    requires s != t && Root(h, leaf, s) == Root(h, leaf, t)
    ensures var (x, y) := FindClash(h, leaf, s, t);
            Clash(h, leaf, x, y) && x in Hashed(h, leaf, s) && y in Hashed(h, leaf, t)
    decreases |s|
  {
    hide Root;
    RootIsImage(h, leaf, s);
    RootIsImage(h, leaf, t);
    if Top(h, leaf, s) == Top(h, leaf, t) {
      SameTop(h, leaf, s, t);
      var k, l := Split(|s|), Split(|t|);
      assert s == s[..k] + s[k..] && t == t[..l] + t[l..];
      if s[..k] != t[..l] {
        RootBindsValues(h, leaf, s[..k], t[..l]);
      } else {
        RootBindsValues(h, leaf, s[k..], t[l..]);
      }
    }
  }

  lemma SameTop<V, T>(h: Hasher<T>, leaf: V -> T, s: seq<V>, t: seq<V>)
    requires s != t && Top(h, leaf, s) == Top(h, leaf, t)
    ensures |s| >= 2 && |t| >= 2
  {
    if |s| < 2 || |t| < 2 { TopOfFew(h, leaf, s, t); }
  }

  lemma TopOfFew<V, T>(h: Hasher<T>, leaf: V -> T, s: seq<V>, t: seq<V>)
    requires Top(h, leaf, s) == Top(h, leaf, t) && (|s| < 2 || |t| < 2)
    ensures s == t
  {
    assert |s| == |t| < 2;
    if |s| == 1 { assert s[0] == t[0]; }
  }
}
