/** The signature gadget of the light-client circuit: the loop over the validator slots, the key
    aggregation, the voting threshold in the scalar field, and the validator set root. */
module LightClient {
  import opened Wrappers
  import opened Groups
  import opened Merkle

  const MAX_VAL := 128

  /** The order of the BN254 scalar field, in which circuit variables live. */
  const R: nat := 21888242871839275222246405745257275088548364400416034343698204186575808495617

  /** A validator slot: its Merkle leaf, its rebuilt public key and its power. */
  datatype Validator<F, P> = Validator(leaf: F, key: P, power: nat)

  // ---------------------------------------------------------------- the mask

  /** The mask counts the validators down; at 0 it is replaced by `cannotSign`, which is 1. */
  function NextMask(mask: nat): nat { if mask == 0 then 1 else mask - 1 }

  function MaskAt(nbOfVal: nat, i: nat): nat {
    if i == 0 then nbOfVal else NextMask(MaskAt(nbOfVal, i - 1))
  }

  predicate Admitted(nbOfVal: nat, i: nat) { MaskAt(nbOfVal, i) != 0 }

  /** Past the validators the mask alternates, so every other padding slot is let through. */
  lemma {:induction false} MaskClosedForm(nbOfVal: nat, i: nat)
    ensures MaskAt(nbOfVal, i) == if i <= nbOfVal then nbOfVal - i else (i - nbOfVal) % 2
  {
    if i > 0 {
      MaskClosedForm(nbOfVal, i - 1);
    }
  }

  /** The mask admits exactly the first `nbOfVal` slots only when at most one padding slot is left. */
  lemma MaskExactIff(nbOfVal: nat)
    ensures (forall i: nat :: i < MAX_VAL ==> (Admitted(nbOfVal, i) <==> i < nbOfVal)) <==> nbOfVal + 1 >= MAX_VAL
  {
    forall i: nat ensures MaskAt(nbOfVal, i) == if i <= nbOfVal then nbOfVal - i else (i - nbOfVal) % 2 {
      MaskClosedForm(nbOfVal, i);
    }
    if nbOfVal + 1 < MAX_VAL {
      assert Admitted(nbOfVal, nbOfVal + 1);
    }
  }

  // ---------------------------------------------------------------- sums over the slots

  /** The power of the first `n` slots that the mask admits and `counts` selects. */
  function PowerSum<F, P>(vals: seq<Validator<F, P>>, nbOfVal: nat, counts: seq<bool>, n: nat): nat
    requires n <= |vals| && n <= |counts|
  {
    if n == 0 then 0
    else
      PowerSum(vals, nbOfVal, counts, n - 1)
      + (if Admitted(nbOfVal, n - 1) && counts[n - 1] then vals[n - 1].power else 0)
  }

  /** The keys, in order, of the admitted slots with their bit set. */
  function SelectedKeys<F, P>(vals: seq<Validator<F, P>>, nbOfVal: nat, bits: seq<bool>, n: nat): (r: seq<P>)
    requires n <= |vals| && n <= |bits|
    ensures |r| <= n
  {
    if n == 0 then []
    else
      SelectedKeys(vals, nbOfVal, bits, n - 1)
      + (if Admitted(nbOfVal, n - 1) && bits[n - 1] then [vals[n - 1].key] else [])
  }

  function Ones(n: nat): (r: seq<bool>)
    ensures |r| == n
    ensures forall i :: 0 <= i < n ==> r[i]
  {
    seq(n, _ => true)
  }

  // ---------------------------------------------------------------- key aggregation

  /** Adding the keys one by one stays within the domain of the addition formula. */
  ghost predicate PrefixesSummable<P>(g: Group<P>, keys: seq<P>) {
    forall i :: 1 <= i < |keys| ==> Summable(g, GroupSum(g, keys[..i]), keys[i])
  }

  /** The addition formula as the prover meets it: at each slot it gives the sum of two points within its
      domain; outside, any point or an unsatisfiable constraint. */
  type Formula<!P> = (nat, P, P) -> Option<P>

  ghost predicate Adds<P(!new)>(g: Group<P>, formula: Formula<P>) {
    forall i, p, q :: Summable(g, p, q) ==> formula(i, p, q) == Some(g.add(p, q))
  }

  /** The variables captured by the closure that `WithAggregation` hands out. The addition does not
      handle the point at infinity, so the first key replaces the generator instead of being added. */
  class Aggregation<P> {
    const g: Group<P>
    var aggregated: P
    var nbOfKeys: nat

    ghost predicate Holds(keys: seq<P>)
      reads this
    {
      && nbOfKeys == |keys|
      && (PrefixesSummable(g, keys) ==> aggregated == if keys == [] then g.generator else GroupSum(g, keys))
    }

    constructor (g: Group<P>)
      ensures this.g == g && Holds([])
    {
      this.g, aggregated, nbOfKeys := g, g.generator, 0;
    }

    /** The sum is computed whether it is selected or not. */
    method Aggregate(selector: bool, key: P, sum: P, ghost keys: seq<P>)
      requires Holds(keys)
      requires g.add(g.zero, key) == key
      requires Summable(g, aggregated, key) ==> sum == g.add(aggregated, key)
      modifies this
      ensures Holds(if selector then keys + [key] else keys)
    {
      var isFirst := nbOfKeys == 0;
      aggregated := if selector then if isFirst then key else sum else aggregated;
      nbOfKeys := nbOfKeys + (if selector then 1 else 0);
      PrefixesOf(g, keys, key);
    }
  }

  lemma PrefixesOf<P>(g: Group<P>, keys: seq<P>, key: P)
    ensures PrefixesSummable(g, keys + [key]) ==>
              PrefixesSummable(g, keys) && (keys != [] ==> Summable(g, GroupSum(g, keys), key))
    ensures GroupSum(g, keys + [key]) == g.add(GroupSum(g, keys), key)
  {
    hide Summable;
    var all := keys + [key];
    assert all[..|keys|] == keys;
    assert forall i :: 0 <= i <= |keys| ==> all[..i] == keys[..i];
    if PrefixesSummable(g, all) {
      assert forall i :: 1 <= i < |keys| ==> all[i] == keys[i] && Summable(g, GroupSum(g, all[..i]), all[i]);
      assert keys != [] ==> Summable(g, GroupSum(g, all[..|keys|]), all[|keys|]);
    }
  }

  // ---------------------------------------------------------------- the gadget

  /** What the constraints of `Verify`, other than the pairing, amount to. */
  ghost predicate Accepts<F, P>(h: Hasher<F>, leafHash: F -> F, vals: seq<Validator<F, P>>, nbOfVal: nat,
                                nbOfSignature: nat, bits: seq<bool>, expectedRoot: F, num: nat, den: nat)
    requires |vals| == |bits| == MAX_VAL
  {
    && 1 <= nbOfSignature <= nbOfVal <= MAX_VAL
    && |SelectedKeys(vals, nbOfVal, bits, MAX_VAL)| == nbOfSignature
    && PowerSum(vals, nbOfVal, Ones(MAX_VAL), MAX_VAL) % R * num % R
       <= PowerSum(vals, nbOfVal, bits, MAX_VAL) % R * den % R
    && TreeHash(h, LeafHashes(leafHash, vals, nbOfVal)) == expectedRoot
  }

  /** The values of the validators under the root. */
  function Committed<F, P>(vals: seq<Validator<F, P>>, n: nat): (r: seq<F>)
    requires n <= |vals|
    ensures |r| == n
  {
    seq(n, i requires 0 <= i < n => vals[i].leaf)
  }

  function LeafHashes<F, P>(leafHash: F -> F, vals: seq<Validator<F, P>>, n: nat): (r: seq<F>)
    requires n <= |vals|
    ensures |r| == n
  {
    Leaves(leafHash, Committed(vals, n))
  }

  /** Two witnesses for one root commit to the same values and the same number of validators, unless walking
      the two trees finds two different inputs with one hash. */
  lemma CommitmentBinds<F, P>(h: Hasher<F>, leafHash: F -> F, vals: seq<Validator<F, P>>, n: nat,
                              vals': seq<Validator<F, P>>, n': nat)
    requires n <= |vals| && n' <= |vals'|
    requires TreeHash(h, LeafHashes(leafHash, vals, n)) == TreeHash(h, LeafHashes(leafHash, vals', n'))
    ensures Committed(vals, n) != Committed(vals', n') ==>
              var (x, y) := FindClash(h, leafHash, Committed(vals, n), Committed(vals', n'));
              && Clash(h, leafHash, x, y)
              && x in Hashed(h, leafHash, Committed(vals, n)) && y in Hashed(h, leafHash, Committed(vals', n'))
  {
    hide Clash, Hashed, FindClash;
    if Committed(vals, n) != Committed(vals', n') {
      RootBindsValues(h, leafHash, Committed(vals, n), Committed(vals', n'));
    }
  }

  /** Addition of circuit variables. */
  function FieldAdd(a: nat, b: nat): nat { (a + b) % R }

  lemma PowerNext<F, P>(vals: seq<Validator<F, P>>, nbOfVal: nat, counts: seq<bool>, i: nat)
    requires i < |vals| && i < |counts|
    ensures PowerSum(vals, nbOfVal, counts, i + 1) % R
            == FieldAdd(PowerSum(vals, nbOfVal, counts, i) % R,
                        if Admitted(nbOfVal, i) && counts[i] then vals[i].power else 0)
  {
  }

  lemma SelectNext<F, P>(vals: seq<Validator<F, P>>, nbOfVal: nat, bits: seq<bool>, i: nat)
    requires i < |vals| && i < |bits|
    ensures var keys := SelectedKeys(vals, nbOfVal, bits, i);
            SelectedKeys(vals, nbOfVal, bits, i + 1)
            == if Admitted(nbOfVal, i) && bits[i] then keys + [vals[i].key] else keys
  {
  }

  lemma StartOfSlots<F, P>(vals: seq<Validator<F, P>>, nbOfVal: nat, bits: seq<bool>)
    requires |vals| == |bits| == MAX_VAL
    ensures MaskAt(nbOfVal, 0) == nbOfVal
    ensures PowerSum(vals, nbOfVal, Ones(MAX_VAL), 0) % R == 0 == PowerSum(vals, nbOfVal, bits, 0) % R
    ensures SelectedKeys(vals, nbOfVal, bits, 0) == []
  {
  }

  lemma MaskNext(nbOfVal: nat, i: nat)
    ensures MaskAt(nbOfVal, i + 1) == NextMask(MaskAt(nbOfVal, i))
    ensures i < nbOfVal ==> MaskAt(nbOfVal, i) != 0
  {
    MaskClosedForm(nbOfVal, i);
  }

  lemma AddsAt<P(!new)>(g: Group<P>, formula: Formula<P>, i: nat, p: P, q: P)
    requires Adds(g, formula) && LeftUnit(g)
    ensures Summable(g, p, q) ==> formula(i, p, q) == Some(g.add(p, q))
    ensures g.add(g.zero, q) == q
  {
  }

  method Verify<F(==,0), P(!new)>(h: Hasher<F>, leafHash: F -> F, zero: F, g: Group<P>, formula: Formula<P>,
                                  vals: seq<Validator<F, P>>, nbOfVal: nat, nbOfSignature: nat, bits: seq<bool>,
                                  expectedRoot: F, num: nat, den: nat)
    returns (accepted: bool, publicKey: P)
    requires |vals| == |bits| == MAX_VAL && LeftUnit(g) && Adds(g, formula)
    ensures accepted ==> Accepts(h, leafHash, vals, nbOfVal, nbOfSignature, bits, expectedRoot, num, den)
    ensures (&& Accepts(h, leafHash, vals, nbOfVal, nbOfSignature, bits, expectedRoot, num, den)
             && forall i, p, q :: formula(i, p, q).Some?) ==> accepted
    ensures var keys := SelectedKeys(vals, nbOfVal, bits, MAX_VAL);
            accepted && PrefixesSummable(g, keys) ==> publicKey == GroupSum(g, keys)
  {
    hide LeftUnit, PowerSum, SelectedKeys, MaskAt, FieldAdd, GroupSum, TreeHash, PrefixesSummable, Summable, Adds;
    if !(nbOfVal <= MAX_VAL && nbOfSignature <= nbOfVal && 1 <= nbOfSignature) {
      return false, g.generator;
    }
    var total: nat, current: nat := 0, 0;
    StartOfSlots(vals, nbOfVal, bits);
    var leafHashes := new F[MAX_VAL];
    var aggregation := new Aggregation(g);
    var mask := nbOfVal;
    var i := 0;
    while i < MAX_VAL
      invariant 0 <= i <= MAX_VAL
      invariant mask == MaskAt(nbOfVal, i)
      invariant total == PowerSum(vals, nbOfVal, Ones(MAX_VAL), i) % R
      invariant current == PowerSum(vals, nbOfVal, bits, i) % R
      invariant aggregation.g == g && aggregation.Holds(SelectedKeys(vals, nbOfVal, bits, i))
      invariant fresh(aggregation) && fresh(leafHashes)
      invariant forall x :: 0 <= x < i && x < nbOfVal ==> leafHashes[x] == leafHash(vals[x].leaf)
    {
      var cannotSign := mask == 0;
      var actuallySigned := if cannotSign then false else bits[i];
      total := FieldAdd(total, if cannotSign then 0 else vals[i].power);
      current := FieldAdd(current, if actuallySigned then vals[i].power else 0);
      PowerNext(vals, nbOfVal, Ones(MAX_VAL), i);
      PowerNext(vals, nbOfVal, bits, i);
      var sum := formula(i, aggregation.aggregated, vals[i].key);
      if sum.None? { return false, g.generator; }
      AddsAt(g, formula, i, aggregation.aggregated, vals[i].key);
      aggregation.Aggregate(actuallySigned, vals[i].key, sum.value, SelectedKeys(vals, nbOfVal, bits, i));
      SelectNext(vals, nbOfVal, bits, i);
      leafHashes[i] := if cannotSign then zero else leafHash(vals[i].leaf);
      MaskNext(nbOfVal, i);
      mask := if cannotSign then 1 else mask - 1;
      i := i + 1;
    }
    assert leafHashes[..nbOfVal] == LeafHashes(leafHash, vals, nbOfVal);
    var root := RootHash(h, leafHashes, nbOfVal);
    publicKey := aggregation.aggregated;
    accepted := aggregation.nbOfKeys == nbOfSignature && total * num % R <= current * den % R && root == expectedRoot;
  }

  // ---------------------------------------------------------------- the voting threshold

  /** The power of the first `n` validators that `counts` selects, with no mask. */
  function Power<F, P>(vals: seq<Validator<F, P>>, counts: seq<bool>, n: nat): nat
    requires n <= |vals| && n <= |counts|
  {
    if n == 0 then 0
    else Power(vals, counts, n - 1) + (if counts[n - 1] then vals[n - 1].power else 0)
  }

  function Signers(bits: seq<bool>, n: nat): nat
    requires n <= |bits|
  {
    if n == 0 then 0 else Signers(bits, n - 1) + (if bits[n - 1] then 1 else 0)
  }

  /** What acceptance is meant to say: as many of the committed validators signed as claimed, they hold at
      least `num / den` of the power, and the root is the RFC 6962 root of exactly these validators. */
  ghost predicate Meets<F, P>(h: Hasher<F>, leafHash: F -> F, vals: seq<Validator<F, P>>, nbOfVal: nat,
                              nbOfSignature: nat, bits: seq<bool>, expectedRoot: F, num: nat, den: nat)
    requires |vals| == |bits| == MAX_VAL
  {
    && 1 <= nbOfSignature <= nbOfVal <= MAX_VAL
    && Signers(bits, nbOfVal) == nbOfSignature
    && Power(vals, Ones(MAX_VAL), nbOfVal) * num <= Power(vals, bits, nbOfVal) * den
    && TreeHash(h, LeafHashes(leafHash, vals, nbOfVal)) == expectedRoot
  }

  /** The powers that the root commits to are signed 64-bit integers. */
  ghost predicate Bounded<F, P>(vals: seq<Validator<F, P>>, nbOfVal: nat) {
    forall i :: 0 <= i < nbOfVal && i < |vals| ==> vals[i].power < 0x8000_0000_0000_0000
  }

  /** No slot past the validators that the mask lets through has power or a signature. */
  ghost predicate QuietTail<F, P>(vals: seq<Validator<F, P>>, nbOfVal: nat, bits: seq<bool>)
    requires |vals| == |bits| == MAX_VAL
  {
    forall i: nat :: nbOfVal <= i < MAX_VAL && Admitted(nbOfVal, i) ==> vals[i].power == 0 && !bits[i]
  }

  lemma {:induction false} MaskedIsUnmasked<F, P>(vals: seq<Validator<F, P>>, nbOfVal: nat, bits: seq<bool>,
                                                  counts: seq<bool>, n: nat)
    requires |vals| == |bits| == |counts| == MAX_VAL && QuietTail(vals, nbOfVal, bits)
    requires nbOfVal <= MAX_VAL && n <= MAX_VAL
    ensures PowerSum(vals, nbOfVal, counts, n) == Power(vals, counts, if n <= nbOfVal then n else nbOfVal)
    ensures |SelectedKeys(vals, nbOfVal, bits, n)| == Signers(bits, if n <= nbOfVal then n else nbOfVal)
  {
    if n > 0 {
      MaskedIsUnmasked(vals, nbOfVal, bits, counts, n - 1);
      MaskClosedForm(nbOfVal, n - 1);
    }
  }

  lemma {:induction false} PowerBound<F, P>(vals: seq<Validator<F, P>>, counts: seq<bool>, n: nat)
    requires n <= |vals| && n <= |counts| && Bounded(vals, n)
    ensures Power(vals, counts, n) <= n * 0x8000_0000_0000_0000
  {
    if n > 0 {
      PowerBound(vals, counts, n - 1);
    }
  }

  /** Products of this size are below the order of the field. */
  lemma Scaled(p: nat, factor: nat)
    requires p <= 2 * MAX_VAL * 0x8000_0000_0000_0000 * 0x1_0000_0000_0000_0000
    requires factor < 0x1_0000_0000_0000_0000
    ensures p % R * factor % R == p * factor
  {
    Product(p, factor, 2 * MAX_VAL * 0x8000_0000_0000_0000 * 0x1_0000_0000_0000_0000, 0x1_0000_0000_0000_0000);
    Small(p);
    Small(p * factor);
  }

  lemma Small(x: nat)
    requires x < R
    ensures x % R == x
  {
  }

  lemma Product(a: nat, b: nat, x: nat, y: nat)
    requires a <= x && b <= y
    ensures a * b <= x * y
  {
    assert a * b <= a * y;
    assert a * y <= x * y;
  }

  /** With a quiet tail the field never wraps and acceptance is exactly what it is meant to be. */
  lemma ThresholdExact<F, P>(h: Hasher<F>, leafHash: F -> F, vals: seq<Validator<F, P>>, nbOfVal: nat,
                             nbOfSignature: nat, bits: seq<bool>, expectedRoot: F, num: nat, den: nat)
    requires |vals| == |bits| == MAX_VAL && Bounded(vals, nbOfVal)
    requires nbOfVal <= MAX_VAL ==> QuietTail(vals, nbOfVal, bits)
    requires num < 0x1_0000_0000_0000_0000 && den < 0x1_0000_0000_0000_0000
    ensures Accepts(h, leafHash, vals, nbOfVal, nbOfSignature, bits, expectedRoot, num, den)
            <==> Meets(h, leafHash, vals, nbOfVal, nbOfSignature, bits, expectedRoot, num, den)
  {
    hide PowerSum, SelectedKeys, Power, Signers, TreeHash, QuietTail;
    if nbOfVal <= MAX_VAL {
      MaskedIsUnmasked(vals, nbOfVal, bits, Ones(MAX_VAL), MAX_VAL);
      MaskedIsUnmasked(vals, nbOfVal, bits, bits, MAX_VAL);
      PowerBound(vals, Ones(MAX_VAL), nbOfVal);
      PowerBound(vals, bits, nbOfVal);
      Scaled(Power(vals, Ones(MAX_VAL), nbOfVal), num);
      Scaled(Power(vals, bits, nbOfVal), den);
    }
  }

  /** With at most one slot left over the tail is quiet whatever fills it. */
  lemma FullSlotsAreQuiet<F, P>(vals: seq<Validator<F, P>>, nbOfVal: nat, bits: seq<bool>)
    requires |vals| == |bits| == MAX_VAL && nbOfVal + 1 >= MAX_VAL
    ensures QuietTail(vals, nbOfVal, bits)
  {
    forall i: nat | nbOfVal <= i < MAX_VAL ensures !Admitted(nbOfVal, i) {
      MaskClosedForm(nbOfVal, i);
    }
  }

  // ---------------------------------------------------------------- witnesses that are not padded

  /** A signer set that holds one bit, past the validators. */
  function OnlyBit(k: nat): (r: seq<bool>)
    ensures |r| == MAX_VAL
    ensures forall i :: 0 <= i < MAX_VAL ==> r[i] == (i == k)
  {
    seq(MAX_VAL, i => i == k)
  }

  /** The validators with `extra` in the second slot past them, and nothing else past them. */
  function WithExtra<F, P>(vals: seq<Validator<F, P>>, nbOfVal: nat, extra: Validator<F, P>): (r: seq<Validator<F, P>>)
    requires |vals| == MAX_VAL && nbOfVal + 1 < MAX_VAL
    ensures |r| == MAX_VAL && r[..nbOfVal] == vals[..nbOfVal]
    ensures forall i :: nbOfVal <= i < MAX_VAL ==> r[i] == if i == nbOfVal + 1 then extra else extra.(power := 0)
  {
    vals[..nbOfVal] + [extra.(power := 0), extra] + seq(MAX_VAL - nbOfVal - 2, _ => extra.(power := 0))
  }

  lemma {:induction false} SumsWithExtra<F, P>(vals: seq<Validator<F, P>>, nbOfVal: nat, extra: Validator<F, P>, n: nat)
    requires |vals| == MAX_VAL && nbOfVal + 1 < MAX_VAL && n <= MAX_VAL
    ensures var all, bits := WithExtra(vals, nbOfVal, extra), OnlyBit(nbOfVal + 1);
            && PowerSum(all, nbOfVal, Ones(MAX_VAL), n)
               == Power(vals, Ones(MAX_VAL), if n <= nbOfVal then n else nbOfVal)
                  + (if n > nbOfVal + 1 then extra.power else 0)
            && PowerSum(all, nbOfVal, bits, n) == (if n > nbOfVal + 1 then extra.power else 0)
            && |SelectedKeys(all, nbOfVal, bits, n)| == (if n > nbOfVal + 1 then 1 else 0)
            && (n <= nbOfVal ==> Signers(bits, n) == 0)
  {
    hide WithExtra;
    if n > 0 {
      SumsWithExtra(vals, nbOfVal, extra, n - 1);
      MaskClosedForm(nbOfVal, n - 1);
      var all := WithExtra(vals, nbOfVal, extra);
      if n <= nbOfVal { assert all[n - 1] == all[..nbOfVal][n - 1] == vals[..nbOfVal][n - 1]; }
    }
  }

  /** With two slots or more left over, every validator set has a witness that is accepted for its own
      root, at any fraction below one, although none of its validators signed: the mask lets the second
      slot past the validators through, and its power outweighs theirs. */
  lemma TailOutweighs<F, P>(h: Hasher<F>, leafHash: F -> F, vals: seq<Validator<F, P>>, nbOfVal: nat,
                            extra: Validator<F, P>, num: nat, den: nat)
    requires |vals| == MAX_VAL && 1 <= nbOfVal && nbOfVal + 1 < MAX_VAL && Bounded(vals, nbOfVal)
    requires num < den < 0x1_0000_0000_0000_0000
    requires extra.power == Power(vals, Ones(MAX_VAL), nbOfVal) * num
    ensures Accepts(h, leafHash, WithExtra(vals, nbOfVal, extra), nbOfVal, 1, OnlyBit(nbOfVal + 1),
                    TreeHash(h, LeafHashes(leafHash, vals, nbOfVal)), num, den)
    ensures Signers(OnlyBit(nbOfVal + 1), nbOfVal) == 0
  {
    hide WithExtra, PowerSum, SelectedKeys, Power, Signers, TreeHash;
    var all, bits := WithExtra(vals, nbOfVal, extra), OnlyBit(nbOfVal + 1);
    var t := Power(vals, Ones(MAX_VAL), nbOfVal);
    SumsWithExtra(vals, nbOfVal, extra, MAX_VAL);
    SumsWithExtra(vals, nbOfVal, extra, nbOfVal);
    PowerBound(vals, Ones(MAX_VAL), nbOfVal);
    assert (t + t * num) % R * num % R <= (t * num) % R * den % R by {
      Product(t, num, MAX_VAL * 0x8000_0000_0000_0000, 0x1_0000_0000_0000_0000);
      Outgrows(t, num, den);
      Scaled(t + t * num, num);
      Scaled(t * num, den);
    }
    assert LeafHashes(leafHash, all, nbOfVal) == LeafHashes(leafHash, vals, nbOfVal) by {
      assert forall i :: 0 <= i < nbOfVal ==> all[i] == all[..nbOfVal][i] == vals[..nbOfVal][i] == vals[i];
    }
  }

  lemma Outgrows(t: nat, num: nat, den: nat)
    requires num < den
    ensures (t + t * num) * num <= t * num * den
  {
    assert (t + t * num) * num == t * num * (num + 1);
    assert t * num * (num + 1) <= t * num * den;
  }

  /** Every witness that the gadget accepts meets the threshold over the validators of its root. */
  ghost predicate AcceptanceBinds<F(!new), P(!new)>(h: Hasher<F>, leafHash: F -> F, nbOfVal: nat, num: nat, den: nat) {
    forall vals: seq<Validator<F, P>>, nbOfSignature: nat, bits: seq<bool>, root: F
      | |vals| == |bits| == MAX_VAL && Bounded(vals, nbOfVal)
        && Accepts(h, leafHash, vals, nbOfVal, nbOfSignature, bits, root, num, den)
      :: Meets(h, leafHash, vals, nbOfVal, nbOfSignature, bits, root, num, den)
  }

  /** For all witnesses, padded or not, acceptance means the threshold over the committed validators if and
      only if at most one slot is left over. `some` shows that there are validators at all. */
  lemma AcceptanceBindsIff<F(!new), P(!new)>(h: Hasher<F>, leafHash: F -> F, some: Validator<F, P>, nbOfVal: nat,
                                             num: nat, den: nat)
    requires 1 <= nbOfVal <= MAX_VAL && num < den < 0x1_0000_0000_0000_0000
    ensures AcceptanceBinds<F, P>(h, leafHash, nbOfVal, num, den) <==> nbOfVal + 1 >= MAX_VAL
  {
    hide Accepts, Meets;
    if nbOfVal + 1 >= MAX_VAL {
      forall vals: seq<Validator<F, P>>, nbOfSignature: nat, bits: seq<bool>, root: F
        | |vals| == |bits| == MAX_VAL && Bounded(vals, nbOfVal)
          && Accepts(h, leafHash, vals, nbOfVal, nbOfSignature, bits, root, num, den)
        ensures Meets(h, leafHash, vals, nbOfVal, nbOfSignature, bits, root, num, den)
      {
        FullSlotsAreQuiet(vals, nbOfVal, bits);
        ThresholdExact(h, leafHash, vals, nbOfVal, nbOfSignature, bits, root, num, den);
      }
    } else {
      var vals: seq<Validator<F, P>> := seq(MAX_VAL, _ => some.(power := 1));
      var extra := some.(power := Power(vals, Ones(MAX_VAL), nbOfVal) * num);
      var all, bits := WithExtra(vals, nbOfVal, extra), OnlyBit(nbOfVal + 1);
      var root := TreeHash(h, LeafHashes(leafHash, vals, nbOfVal));
      TailOutweighs(h, leafHash, vals, nbOfVal, extra, num, den);
      BoundedWithExtra(vals, nbOfVal, extra);
      NotMet(h, leafHash, all, nbOfVal, bits, root, num, den);
      assert !(Accepts(h, leafHash, all, nbOfVal, 1, bits, root, num, den)
               ==> Meets(h, leafHash, all, nbOfVal, 1, bits, root, num, den));
    }
  }

  lemma BoundedWithExtra<F, P>(vals: seq<Validator<F, P>>, nbOfVal: nat, extra: Validator<F, P>)
    requires |vals| == MAX_VAL && nbOfVal + 1 < MAX_VAL && Bounded(vals, nbOfVal)
    ensures Bounded(WithExtra(vals, nbOfVal, extra), nbOfVal)
  {
    var all := WithExtra(vals, nbOfVal, extra);
    hide WithExtra;
    assert forall i :: 0 <= i < nbOfVal ==> all[i] == all[..nbOfVal][i] == vals[..nbOfVal][i];
  }

  lemma NotMet<F, P>(h: Hasher<F>, leafHash: F -> F, vals: seq<Validator<F, P>>, nbOfVal: nat, bits: seq<bool>,
                     root: F, num: nat, den: nat)
    requires |vals| == |bits| == MAX_VAL && nbOfVal <= MAX_VAL && Signers(bits, nbOfVal) == 0
    ensures !Meets(h, leafHash, vals, nbOfVal, 1, bits, root, num, den)
  {
  }

  // ---------------------------------------------------------------- inputs as the server builds them

  /** Slots past the validators have no power and no signature, and a power fits in a signed 64-bit
      integer. */
  ghost predicate Padded<F, P>(vals: seq<Validator<F, P>>, nbOfVal: nat, bits: seq<bool>) {
    && |vals| == |bits| == MAX_VAL
    && (forall i :: 0 <= i < MAX_VAL ==> vals[i].power < 0x8000_0000_0000_0000)
    && (forall i :: nbOfVal <= i < MAX_VAL ==> vals[i].power == 0 && !bits[i])
  }

  /** Padded inputs are accepted exactly when they meet the threshold, for any number of validators. */
  lemma PaddedThreshold<F, P>(h: Hasher<F>, leafHash: F -> F, vals: seq<Validator<F, P>>, nbOfVal: nat,
                              nbOfSignature: nat, bits: seq<bool>, expectedRoot: F, num: nat, den: nat)
    requires Padded(vals, nbOfVal, bits)
    requires num < 0x1_0000_0000_0000_0000 && den < 0x1_0000_0000_0000_0000
    ensures Accepts(h, leafHash, vals, nbOfVal, nbOfSignature, bits, expectedRoot, num, den)
            <==> Meets(h, leafHash, vals, nbOfVal, nbOfSignature, bits, expectedRoot, num, den)
  {
    ThresholdExact(h, leafHash, vals, nbOfVal, nbOfSignature, bits, expectedRoot, num, den);
  }

  /** `MarshalValidators`: zero slots, of which the first ones are overwritten. With a bitmap that has no
      bit past the validators, the inputs are padded. */
  method MarshalValidators<F(0), P(0)>(validators: seq<Validator<F, P>>, blank: Validator<F, P>)
    returns (slots: array<Validator<F, P>>)
    requires |validators| <= MAX_VAL && blank.power == 0
    requires forall i :: 0 <= i < |validators| ==> validators[i].power < 0x8000_0000_0000_0000
    ensures fresh(slots) && slots.Length == MAX_VAL
    ensures slots[..|validators|] == validators
    ensures forall bits: seq<bool> :: |bits| == MAX_VAL && (forall i :: |validators| <= i < MAX_VAL ==> !bits[i]) ==>
              Padded(slots[..], |validators|, bits)
  {
    slots := new Validator<F, P>[MAX_VAL](_ => blank);
    for i := 0 to |validators|
      invariant forall j :: 0 <= j < i ==> slots[j] == validators[j]
      invariant forall j :: i <= j < MAX_VAL ==> slots[j] == blank
    {
      slots[i] := validators[i];
    }
  }

  // ---------------------------------------------------------------- two signer sets

  function Both(a: seq<bool>, b: seq<bool>): (r: seq<bool>)
    requires |a| == |b|
    ensures |r| == |a|
    ensures forall i :: 0 <= i < |r| ==> r[i] == (a[i] && b[i])
  {
    seq(|a|, i requires 0 <= i < |a| => a[i] && b[i])
  }

  lemma {:induction false} InclusionExclusion<F, P>(vals: seq<Validator<F, P>>, a: seq<bool>, b: seq<bool>, n: nat)
    requires n <= |vals| && n <= |a| == |b|
    ensures Power(vals, a, n) + Power(vals, b, n) <= Power(vals, Ones(|a|), n) + Power(vals, Both(a, b), n)
  {
    if n > 0 {
      InclusionExclusion(vals, a, b, n - 1);
    }
  }

  /** Two signer sets of one validator set, both accepted at 2/3 with a quiet tail, share a third of its
      power. The two witnesses need only agree on the validators. */
  lemma QuorumsIntersect<F, P>(h: Hasher<F>, leafHash: F -> F, vals1: seq<Validator<F, P>>, vals2: seq<Validator<F, P>>,
                               nbOfVal: nat, sigs1: nat, bits1: seq<bool>, sigs2: nat, bits2: seq<bool>, root1: F,
                                 root2: F)
    requires |vals1| == |bits1| == |vals2| == |bits2| == MAX_VAL && nbOfVal <= MAX_VAL
    requires vals1[..nbOfVal] == vals2[..nbOfVal] && Bounded(vals1, nbOfVal)
    requires QuietTail(vals1, nbOfVal, bits1) && QuietTail(vals2, nbOfVal, bits2)
    requires Accepts(h, leafHash, vals1, nbOfVal, sigs1, bits1, root1, 2, 3)
    requires Accepts(h, leafHash, vals2, nbOfVal, sigs2, bits2, root2, 2, 3)
    ensures Power(vals1, Ones(MAX_VAL), nbOfVal) <= 3 * Power(vals1, Both(bits1, bits2), nbOfVal)
    ensures root1 == root2
  {
    hide Accepts, QuietTail, Power, TreeHash, Signers;
    SamePrefix(vals1, vals2, nbOfVal);
    ThresholdExact(h, leafHash, vals1, nbOfVal, sigs1, bits1, root1, 2, 3);
    ThresholdExact(h, leafHash, vals2, nbOfVal, sigs2, bits2, root2, 2, 3);
    SamePower(vals1, vals2, bits2, nbOfVal);
    SamePower(vals1, vals2, Ones(MAX_VAL), nbOfVal);
    InclusionExclusion(vals1, bits1, bits2, nbOfVal);
    assert LeafHashes(leafHash, vals1, nbOfVal) == LeafHashes(leafHash, vals2, nbOfVal);
  }

  lemma SamePrefix<F, P>(a: seq<Validator<F, P>>, b: seq<Validator<F, P>>, n: nat)
    requires |a| == |b| && n <= |a| && a[..n] == b[..n]
    ensures forall i :: 0 <= i < n ==> a[i] == b[i]
  {
    assert forall i :: 0 <= i < n ==> a[..n][i] == a[i] && b[..n][i] == b[i];
  }

  lemma {:induction false} SamePower<F, P>(a: seq<Validator<F, P>>, b: seq<Validator<F, P>>, counts: seq<bool>, n: nat)
    requires n <= |a| && n <= |b| && n <= |counts| && forall i :: 0 <= i < n ==> a[i] == b[i]
    ensures Power(a, counts, n) == Power(b, counts, n)
  {
    if n > 0 {
      SamePower(a, b, counts, n - 1);
    }
  }
}
