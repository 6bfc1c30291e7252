/** The block hash of the circuit: a Merkle tree over the header's fields, where a 32-byte hash that does
    not fit a field element is itself the root of a tree of two leaves. */
module HeaderHash {
  import opened Encoding
  import opened Merkle

  datatype Header = Header(
    versionBlock: nat, versionApp: nat, chainId: nat, height: nat, timeSecs: nat, timeNanos: nat,
    lastBlockHash: nat, lastBlockPartSetHeaderTotal: nat,
    lastBlockPartSetHeaderHash: UnconsHash, lastCommitHash: UnconsHash, dataHash: UnconsHash,
    validatorsHash: nat, nextValidatorsHash: nat,
    consensusHash: UnconsHash, appHash: UnconsHash, lastResultsHash: UnconsHash, evidenceHash: UnconsHash,
    proposerAddress: UnconsHash)

  /** MiMC with its two domain prefixes. */
  datatype Mimc = Mimc(leaf: nat -> nat, tree: Hasher<nat>)

  function Root(m: Mimc, values: seq<nat>): nat { Merkle.Root(m.tree, m.leaf, values) }

  function UnconsRoot(m: Mimc, x: UnconsHash): nat { Root(m, [x.head, x.tail]) }

  function Fields(m: Mimc, h: Header): (r: seq<nat>)
    ensures |r| == 18
  {
    [h.versionBlock, h.versionApp, h.chainId, h.height, h.timeSecs, h.timeNanos,
     h.lastBlockHash, h.lastBlockPartSetHeaderTotal,
     UnconsRoot(m, h.lastBlockPartSetHeaderHash), UnconsRoot(m, h.lastCommitHash), UnconsRoot(m, h.dataHash),
     h.validatorsHash, h.nextValidatorsHash,
     UnconsRoot(m, h.consensusHash), UnconsRoot(m, h.appHash), UnconsRoot(m, h.lastResultsHash),
     UnconsRoot(m, h.evidenceHash), UnconsRoot(m, h.proposerAddress)]
  }

  /** The leaves are hashed in place, then the tree is computed in place. */
  method HashTree(m: Mimc, leaves: array<nat>) returns (root: nat)
    requires leaves.Length > 0 && leaves.Length % 2 == 0
    modifies leaves
    ensures root == Root(m, old(leaves[..]))
  {
    ghost var values := leaves[..];
    for i := 0 to leaves.Length
      invariant leaves[..i] == Leaves(m.leaf, values)[..i]
      invariant leaves[i..] == values[i..]
    {
      assert leaves[i] == values[i] by { assert leaves[i..][0] == values[i..][0]; }
      leaves[i] := m.leaf(leaves[i]);
      assert leaves[..i + 1] == leaves[..i] + [m.leaf(values[i])];
      assert leaves[i + 1..] == values[i + 1..] by { assert values[i + 1..] == values[i..][1..]; }
    }
    assert leaves[..leaves.Length] == Leaves(m.leaf, values);
    root := RootHash(m.tree, leaves, leaves.Length);
  }

  method HashUncons(m: Mimc, x: UnconsHash) returns (root: nat)
    ensures root == UnconsRoot(m, x)
  {
    var leaves := new nat[] [x.head, x.tail];
    assert leaves[..] == [x.head, x.tail];
    root := HashTree(m, leaves);
  }

  /** `BlockHash`. */
  method BlockHash(m: Mimc, h: Header) returns (root: nat)
    ensures root == Root(m, Fields(m, h))
  {
    hide UnconsRoot, Root;
    var partSet := HashUncons(m, h.lastBlockPartSetHeaderHash);
    var lastCommit := HashUncons(m, h.lastCommitHash);
    var data := HashUncons(m, h.dataHash);
    var consensus := HashUncons(m, h.consensusHash);
    var app := HashUncons(m, h.appHash);
    var lastResults := HashUncons(m, h.lastResultsHash);
    var evidence := HashUncons(m, h.evidenceHash);
    var proposer := HashUncons(m, h.proposerAddress);
    var leaves := new nat[] [
      h.versionBlock, h.versionApp, h.chainId, h.height, h.timeSecs, h.timeNanos,
      h.lastBlockHash, h.lastBlockPartSetHeaderTotal, partSet, lastCommit, data,
      h.validatorsHash, h.nextValidatorsHash, consensus, app, lastResults, evidence, proposer];
    assert leaves[..] == Fields(m, h);
    root := HashTree(m, leaves);
  }

  /** The tree of two, four and eight leaves. */
  function Two(h: Hasher<nat>, a: seq<nat>): nat
    requires |a| == 2
  {
    h.inner(a[0], a[1])
  }

  function Four(h: Hasher<nat>, a: seq<nat>): nat
    requires |a| == 4
  {
    h.inner(Two(h, a[..2]), Two(h, a[2..]))
  }

  function Eight(h: Hasher<nat>, a: seq<nat>): nat
    requires |a| == 8
  {
    h.inner(Four(h, a[..4]), Four(h, a[4..]))
  }

  lemma SmallTrees(h: Hasher<nat>)
    ensures forall a: seq<nat> :: |a| == 2 ==> TreeHash(h, a) == Two(h, a)
    ensures forall a: seq<nat> :: |a| == 4 ==> TreeHash(h, a) == Four(h, a)
    ensures forall a: seq<nat> :: |a| == 8 ==> TreeHash(h, a) == Eight(h, a)
  {
    assert Split(2) == 1;
    assert Split(4) == 2;
    assert Split(8) == 4;
    forall a: seq<nat> | |a| == 2 ensures TreeHash(h, a) == Two(h, a) {
      assert |a[..1]| == 1 && |a[1..]| == 1;
    }
    forall a: seq<nat> | |a| == 4 ensures TreeHash(h, a) == Four(h, a) {
      assert |a[..2]| == 2 && |a[2..]| == 2;
    }
    forall a: seq<nat> | |a| == 8 ensures TreeHash(h, a) == Eight(h, a) {
      assert |a[..4]| == 4 && |a[4..]| == 4;
    }
  }

  lemma SplitTree(h: Hasher<nat>, a: seq<nat>, k: nat)
    requires |a| >= 2 && Split(|a|) == k
    ensures TreeHash(h, a) == h.inner(TreeHash(h, a[..k]), TreeHash(h, a[k..]))
  {
  }

  lemma SplitOfEighteen()
    ensures Split(18) == 16 && Split(16) == 8
  {
    assert Split(3) == 2;
    assert Split(5) == 4;
    assert Split(9) == 8;
    assert Split(2) == 1;
    assert Split(4) == 2;
    assert Split(8) == 4;
  }

  lemma Eighteen(h: Hasher<nat>, a: seq<nat>)
    requires |a| == 18
    ensures TreeHash(h, a) == h.inner(h.inner(Eight(h, a[..8]), Eight(h, a[8..16])), Two(h, a[16..]))
  {
    hide Two, Four, Eight, TreeHash, Split;
    SmallTrees(h);
    SplitOfEighteen();
    SplitTree(h, a, 16);
    SplitTree(h, a[..16], 8);
    assert a[..16][..8] == a[..8] && a[..16][8..] == a[8..16];
  }

  lemma SplitHash(m: Mimc, x: UnconsHash)
    ensures UnconsRoot(m, x) == m.tree.inner(m.leaf(x.head), m.leaf(x.tail))
  {
    SmallTrees(m.tree);
    hide TreeHash;
    assert Leaves(m.leaf, [x.head, x.tail]) == [m.leaf(x.head), m.leaf(x.tail)];
  }

  /** A split hash is hashed as the pair of its halves, and then as a leaf. */
  function PairLeaf(m: Mimc, x: UnconsHash): nat { m.leaf(m.tree.inner(m.leaf(x.head), m.leaf(x.tail))) }

  /** The block hash written out: sixteen leaves in two trees of eight, and the last two beside them. */
  lemma BlockHashWrittenOut(m: Mimc, h: Header)
    ensures Root(m, Fields(m, h))
            == m.tree.inner(
                 m.tree.inner(
                   Eight(m.tree, [m.leaf(h.versionBlock), m.leaf(h.versionApp), m.leaf(h.chainId), m.leaf(h.height),
                     m.leaf(h.timeSecs), m.leaf(h.timeNanos), m.leaf(h.lastBlockHash),
                     m.leaf(h.lastBlockPartSetHeaderTotal)]),
                   Eight(m.tree, [PairLeaf(m, h.lastBlockPartSetHeaderHash), PairLeaf(m, h.lastCommitHash),
                     PairLeaf(m, h.dataHash), m.leaf(h.validatorsHash), m.leaf(h.nextValidatorsHash),
                     PairLeaf(m, h.consensusHash), PairLeaf(m, h.appHash), PairLeaf(m, h.lastResultsHash)])),
                 m.tree.inner(PairLeaf(m, h.evidenceHash), PairLeaf(m, h.proposerAddress)))
  {
    hide UnconsRoot, PairLeaf, Four, Eight, TreeHash;
    var all := Leaves(m.leaf, Fields(m, h));
    Eighteen(m.tree, all);
    FirstEight(m, h);
    NextEight(m, h);
    LastTwo(m, h);
  }

  lemma FirstEight(m: Mimc, h: Header)
    ensures Leaves(m.leaf, Fields(m, h))[..8]
            == [m.leaf(h.versionBlock), m.leaf(h.versionApp), m.leaf(h.chainId), m.leaf(h.height), m.leaf(h.timeSecs),
                m.leaf(h.timeNanos), m.leaf(h.lastBlockHash), m.leaf(h.lastBlockPartSetHeaderTotal)]
  {
    hide UnconsRoot;
  }

  lemma NextEight(m: Mimc, h: Header)
    ensures Leaves(m.leaf, Fields(m, h))[8..16]
            == [PairLeaf(m, h.lastBlockPartSetHeaderHash), PairLeaf(m, h.lastCommitHash), PairLeaf(m, h.dataHash),
                m.leaf(h.validatorsHash), m.leaf(h.nextValidatorsHash), PairLeaf(m, h.consensusHash),
                PairLeaf(m, h.appHash), PairLeaf(m, h.lastResultsHash)]
  {
    hide UnconsRoot, PairLeaf;
    LeafOfSplit(m, h.lastBlockPartSetHeaderHash);
    LeafOfSplit(m, h.lastCommitHash);
    LeafOfSplit(m, h.dataHash);
    LeafOfSplit(m, h.consensusHash);
    LeafOfSplit(m, h.appHash);
    LeafOfSplit(m, h.lastResultsHash);
  }

  lemma LastTwo(m: Mimc, h: Header)
    ensures Two(m.tree, Leaves(m.leaf, Fields(m, h))[16..])
            == m.tree.inner(PairLeaf(m, h.evidenceHash), PairLeaf(m, h.proposerAddress))
  {
    hide UnconsRoot, PairLeaf;
    LeafOfSplit(m, h.evidenceHash);
    LeafOfSplit(m, h.proposerAddress);
  }

  lemma LeafOfSplit(m: Mimc, x: UnconsHash)
    ensures m.leaf(UnconsRoot(m, x)) == PairLeaf(m, x)
  {
    SplitHash(m, x);
  }

  // ---------------------------------------------------------------- binding

  /** The split hashes of a header, in the order in which it holds them. */
  function Hashes(h: Header): (r: seq<UnconsHash>)
    ensures |r| == 8
  {
    [h.lastBlockPartSetHeaderHash, h.lastCommitHash, h.dataHash, h.consensusHash, h.appHash, h.lastResultsHash,
     h.evidenceHash, h.proposerAddress]
  }

  function Halves(x: UnconsHash): seq<nat> { [x.head, x.tail] }

  /** The first split hash in which two headers differ. */
  function HashDifference(s: seq<UnconsHash>, t: seq<UnconsHash>): (i: nat)
    requires |s| == |t| && s != t
    ensures i < |s| && s[i] != t[i]
  {
    if s[0] != t[0] then 0
    else
      assert s == [s[0]] + s[1..] && t == [t[0]] + t[1..];
      1 + HashDifference(s[1..], t[1..])
  }

  /** Compares the trees of two headers, and below them the trees of a split hash. */
  function FindHeaderClash(m: Mimc, h: Header, g: Header): (Preimage<nat, nat>, Preimage<nat, nat>)
    requires Fields(m, h) != Fields(m, g) || Hashes(h) != Hashes(g)
  {
    if Fields(m, h) != Fields(m, g) then FindClash(m.tree, m.leaf, Fields(m, h), Fields(m, g))
    else
      var i := HashDifference(Hashes(h), Hashes(g));
      HalvesDiffer(Hashes(h)[i], Hashes(g)[i]);
      FindClash(m.tree, m.leaf, Halves(Hashes(h)[i]), Halves(Hashes(g)[i]))
  }

  /** Everything that is hashed while computing a block hash. */
  ghost predicate HashedIn(m: Mimc, h: Header, x: Preimage<nat, nat>) {
    || x in Hashed(m.tree, m.leaf, Fields(m, h))
    || exists i :: 0 <= i < 8 && x in Hashed(m.tree, m.leaf, Halves(Hashes(h)[i]))
  }

  lemma HalvesDiffer(x: UnconsHash, y: UnconsHash)
    requires x != y
    ensures Halves(x) != Halves(y)
  {
    assert Halves(x)[0] == x.head && Halves(x)[1] == x.tail;
    assert Halves(y)[0] == y.head && Halves(y)[1] == y.tail;
  }

  /** Two different headers with one block hash: comparing their trees yields two different inputs with one
      hash, one hashed while computing each of the two block hashes. So whoever shows such headers shows a
      collision. */
  lemma BlockHashBinds(m: Mimc, h: Header, g: Header)
    requires h != g && Root(m, Fields(m, h)) == Root(m, Fields(m, g))
    ensures Fields(m, h) != Fields(m, g) || Hashes(h) != Hashes(g)
    ensures var (x, y) := FindHeaderClash(m, h, g);
            Clash(m.tree, m.leaf, x, y) && HashedIn(m, h, x) && HashedIn(m, g, y)
  {
    hide Merkle.Root, Clash, Hashed, FindClash, UnconsRoot;
    if Fields(m, h) != Fields(m, g) {
      RootBindsValues(m.tree, m.leaf, Fields(m, h), Fields(m, g));
    } else {
      FieldsEqual(m, h, g);
      var i := HashDifference(Hashes(h), Hashes(g));
      var x, y := Hashes(h)[i], Hashes(g)[i];
      HalvesDiffer(x, y);
      assert Root(m, Halves(x)) == Root(m, Halves(y));
      RootBindsValues(m.tree, m.leaf, Halves(x), Halves(y));
    }
  }

  /** Equal fields leave the split hashes as the only difference, and their roots agree. */
  lemma FieldsEqual(m: Mimc, h: Header, g: Header)
    requires h != g && Fields(m, h) == Fields(m, g)
    ensures Hashes(h) != Hashes(g)
    ensures forall i :: 0 <= i < 8 ==> Root(m, Halves(Hashes(h)[i])) == Root(m, Halves(Hashes(g)[i]))
  {
    hide Root;
    var a, b := Fields(m, h), Fields(m, g);
    assert forall i :: 0 <= i < 18 ==> a[i] == b[i];
    var s, t := Hashes(h), Hashes(g);
    assert s[0] != t[0] || s[1] != t[1] || s[2] != t[2] || s[3] != t[3] || s[4] != t[4] || s[5] != t[5]
           || s[6] != t[6] || s[7] != t[7];
    assert forall i :: 0 <= i < 8 ==> Root(m, Halves(s[i])) == UnconsRoot(m, s[i]);
  }
}
