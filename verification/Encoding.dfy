/** How header values become bytes: once in the circuit, by splitting field elements into bits, and once
    in the server, by padding big integers. */
module Encoding {
  import opened Wrappers
  import opened Positional
  import opened LightClient

  // ---------------------------------------------------------------- bits and limbs

  /** `ToBinary`: constrains its argument to `n` bits. */
  function ToBinary(x: nat, n: nat): Option<seq<nat>> {
    if x < Pow(2, n) then Some(Digits(x, 2, n)) else None
  }

  /** `FromBinary` sums in the scalar field. */
  function FromBinary(bits: seq<nat>): nat { Value(bits, 2) % R }

  /** `Unpack`: the limbs of a variable, least significant first, or an unsatisfiable constraint. */
  method Unpack(packed: nat, sizeOfInput: nat, sizeOfElem: nat) returns (r: Option<seq<nat>>)
    requires sizeOfElem > 0
    ensures r.Some? <==> packed < Pow(2, sizeOfInput)
    ensures r.Some? ==>
              && |r.value| == sizeOfInput / sizeOfElem
              && forall i :: 0 <= i < |r.value| ==>
                   r.value[i] == Digits(packed, Pow(2, sizeOfElem), sizeOfInput / sizeOfElem)[i] % R
  {
    hide Pow, Digits, Value;
    var nbOfElems := sizeOfInput / sizeOfElem;
    assert nbOfElems * sizeOfElem <= sizeOfInput;
    if sizeOfElem == 1 {
      PowOne(2);
      assert forall i :: 0 <= i < nbOfElems ==> Digits(packed, 2, nbOfElems)[i] < 2;
      return ToBinary(packed, nbOfElems);
    }
    var unpacked := ToBinary(packed, sizeOfInput);
    if unpacked.None? { return None; }
    var elems := new nat[nbOfElems];
    for i := 0 to nbOfElems
      invariant forall j :: 0 <= j < i ==> elems[j] == Digits(packed, Pow(2, sizeOfElem), nbOfElems)[j] % R
    {
      InRange(sizeOfElem, nbOfElems, i);
      Grouping(packed, sizeOfInput, sizeOfElem, nbOfElems, i, i * sizeOfElem);
      elems[i] := FromBinary(unpacked.value[i * sizeOfElem..i * sizeOfElem + sizeOfElem]);
    }
    return Some(elems[..]);
  }

  lemma PowOne(b: nat)
    ensures Pow(b, 1) == b
  {
  }

  /** `Repack`: the values, in the field, of consecutive groups of digits. */
  method Repack(unpacked: seq<nat>, sizeOfInput: nat, sizeOfElem: nat) returns (r: seq<nat>)
    requires sizeOfElem > 0 && |unpacked| == sizeOfInput && sizeOfInput % sizeOfElem == 0
    ensures sizeOfInput / sizeOfElem * sizeOfElem == sizeOfInput
    ensures |r| == sizeOfInput / sizeOfElem
    ensures forall i :: 0 <= i < |r| ==>
              r[i] == Chunks(unpacked, 2, sizeOfElem, sizeOfInput / sizeOfElem)[i] % R
  {
    var nbOfElems := sizeOfInput / sizeOfElem;
    hide Value, Chunks;
    var elems := new nat[nbOfElems];
    for i := 0 to nbOfElems
      invariant forall j :: 0 <= j < i ==> elems[j] == Chunks(unpacked, 2, sizeOfElem, nbOfElems)[j] % R
    {
      ChunkAt(unpacked, 2, sizeOfElem, nbOfElems, i, i * sizeOfElem);
      elems[i] := FromBinary(unpacked[i * sizeOfElem..i * sizeOfElem + sizeOfElem]);
    }
    return elems[..];
  }

  // ---------------------------------------------------------------- sizes

  lemma FirstPowers()
    ensures Pow(256, 4) == 0x1_00000000 && Pow(256, 7) == 0x1_00000000_000000
    ensures Pow(2, 8) == 256
  {
  }

  lemma Pow256()
    ensures Pow(256, 31) == 0x1_00000000_00000000_00000000_00000000_00000000_00000000_00000000_000000
    ensures Pow(256, 32) == 0x1_00000000_00000000_00000000_00000000_00000000_00000000_00000000_00000000
  {
    hide Pow;
    FirstPowers();
    PowAdd(256, 4, 4);
    PowAdd(256, 8, 8);
    PowAdd(256, 16, 8);
    PowAdd(256, 24, 7);
    PowAdd(256, 31, 1);
    PowOne(256);
  }

  lemma BytesAreBits(k: nat)
    ensures Pow(2, 8) == 256 && Pow(2, 8 * k) == Pow(256, k)
  {
    hide Pow;
    FirstPowers();
    PowPow(2, 8, k, 8 * k);
  }

  /** A canonical field element fits in 32 bytes, and 31 bytes fit in a field element. */
  lemma FieldSize()
    ensures Pow(256, 31) < R < Pow(256, 32)
    ensures Pow(2, 8) == 256 && Pow(2, 248) == Pow(256, 31) && Pow(2, 256) == Pow(256, 32)
  {
    Pow256();
    BytesAreBits(31);
    BytesAreBits(32);
  }

  // ---------------------------------------------------------------- public keys

  /** A coordinate of a validator's key is rebuilt from its low bits and the bit taken out of it. */
  method RebuildCoordinate(hashable: nat, msb: nat) returns (limbs: seq<nat>)
    requires hashable < R && msb < 2
    ensures |limbs| == 4
    ensures Value(limbs, Pow(2, 64))
            == hashable + Pow(2, 253) * (msb - Mod(Div(hashable, Pow(2, 253)), 2))
  {
    hide Pow, Value, Digits, Chunks, Mod, Div;
    FieldSize();
    var shifted := Unpack(hashable, 256, 1);
    BitsUnpacked(hashable, shifted.value);
    var bits := shifted.value[253 := msb];
    limbs := Repack(bits, 256, 64);
    RepackedValue(bits, limbs);
    ValueUpdate(Digits(hashable, 2, 256), 2, 253, msb);
    DigitAt(hashable, 2, 256, 253);
    ValueOfDigits(hashable, 2, 256);
    DivModUnique(hashable, Pow(2, 256), 0, hashable);
  }

  lemma BitsUnpacked(x: nat, bits: seq<nat>)
    requires |bits| == 256
    requires forall i :: 0 <= i < 256 ==> bits[i] == Digits(x, Pow(2, 1), 256)[i] % R
    ensures bits == Digits(x, 2, 256)
  {
  }

  /** No group of 64 bits wraps around the field, so nothing is lost by repacking. */
  lemma RepackedValue(bits: seq<nat>, limbs: seq<nat>)
    requires |bits| == 256 && |limbs| == 4
    requires forall i :: 0 <= i < 256 ==> bits[i] < 2
    requires forall i :: 0 <= i < 4 ==> limbs[i] == Chunks(bits, 2, 64, 4)[i] % R
    ensures Value(limbs, Pow(2, 64)) == Value(bits, 2)
  {
    hide Pow, Value, Digits, Chunks;
    forall i | 0 <= i < 4 ensures limbs[i] == Chunks(bits, 2, 64, 4)[i] {
      ChunkAt(bits, 2, 64, 4, i, i * 64);
      DigitsOfValue(bits[i * 64..i * 64 + 64], 2);
      SmallChunks();
    }
    assert limbs == Chunks(bits, 2, 64, 4);
    ChunksValue(bits, 2, 64, 4);
  }

  lemma SmallChunks()
    ensures Pow(2, 64) < R
  {
    hide Pow;
    BytesAreBits(8);
    Pow256();
    PowGrows(256, 8, 31);
    FieldSize();
  }

  /** Taking bit 253 out of a coordinate and putting it back is the identity. */
  lemma CoordinateRoundTrip(x: nat)
    requires x < Pow(2, 254)
    ensures var hashable, msb := Mod(x, Pow(2, 253)), Div(x, Pow(2, 253));
            && msb < 2
            && hashable + Pow(2, 253) * (msb - Mod(Div(hashable, Pow(2, 253)), 2)) == x
  {
    var p := Pow(2, 253);
    assert Pow(2, 254) == 2 * p;
    hide Pow;
    var low := Mod(x, p);
    DivModUnique(low, p, 0, low);
    assert Mod(0, 2) == 0;
    SplitAt(x, p);
    assert Div(x, p) < 2 by {
      if Div(x, p) >= 2 { Monotone(p, 2, Div(x, p)); }
    }
  }

  lemma SplitAt(x: nat, d: nat)
    requires d > 0
    ensures d * Div(x, d) + Mod(x, d) == x
  {
  }

  // ---------------------------------------------------------------- bytes of the circuit

  function BigEndian(x: nat, k: nat): (r: seq<nat>)
    ensures |r| == k
  {
    Reverse(Digits(x, 256, k))
  }

  function BigEndianValue(bytes: seq<nat>): nat { Value(Reverse(bytes), 256) }

  ghost predicate Bytes(s: seq<nat>) { forall i :: 0 <= i < |s| ==> s[i] < 256 }

  lemma BigEndianRoundTrip(bytes: seq<nat>)
    requires Bytes(bytes)
    ensures BigEndianValue(bytes) < Pow(256, |bytes|) && BigEndian(BigEndianValue(bytes), |bytes|) == bytes
  {
    hide Reverse, Digits, Value, Pow;
    ReverseElements(bytes);
    DigitsOfValue(Reverse(bytes), 256);
    ReverseTwice(bytes);
  }

  lemma BigEndianInjective(x: nat, y: nat, k: nat)
    requires x < Pow(256, k) && y < Pow(256, k) && BigEndian(x, k) == BigEndian(y, k)
    ensures x == y
  {
    ReverseTwice(Digits(x, 256, k));
    ReverseTwice(Digits(y, 256, k));
    DigitsInjective(x, y, 256, k);
  }

  /** `slices.Reverse`. */
  method ReverseInPlace(a: array<nat>)
    modifies a
    ensures a[..] == Reverse(old(a[..]))
  {
    var n, i := a.Length, 0;
    while i < n / 2
      invariant 0 <= i <= n / 2
      invariant forall k :: 0 <= k < i ==> a[k] == old(a[n - 1 - k]) && a[n - 1 - k] == old(a[k])
      invariant forall k :: i <= k < n - i ==> a[k] == old(a[k])
    {
      a[i], a[n - 1 - i] := a[n - 1 - i], a[i];
      i := i + 1;
    }
    ReverseElements(old(a[..]));
  }

  /** `unpack`: the 32 bytes of a variable, most significant first. */
  method UnpackVariable(x: nat) returns (bytes: seq<nat>)
    requires x < R
    ensures bytes == BigEndian(x, 32)
  {
    hide Pow, Digits, Reverse;
    FieldSize();
    var split := Unpack(x, 256, 8);
    var a := new nat[32](i requires 0 <= i < 32 => split.value[i]);
    assert a[..] == Digits(x, 256, 32);
    ReverseInPlace(a);
    return a[..];
  }

  datatype UnconsHash = UnconsHash(head: nat, tail: nat)

  /** `unpackHash`: the tail's bytes and the head, reversed together. */
  method UnpackHash(h: UnconsHash) returns (bytes: Option<seq<nat>>)
    ensures bytes == HashBytes(h)
  {
    hide Pow, Digits, Reverse;
    FieldSize();
    var tail := Unpack(h.tail, 248, 8);
    var head := Unpack(h.head, 8, 8);
    if tail.None? || head.None? { return None; }
    var hash := tail.value + [head.value[0]];
    var a := new nat[32](i requires 0 <= i < 32 => hash[i]);
    assert head.value[0] == h.head by { OneDigit(h.head); }
    assert a[..] == Digits(h.tail, 256, 31) + [h.head];
    ReverseInPlace(a);
    ReverseSnoc(Digits(h.tail, 256, 31), h.head);
    return Some(a[..]);
  }

  lemma OneDigit(x: nat)
    requires x < 256
    ensures Digits(x, 256, 1) == [x]
  {
  }

  function HashBytes(h: UnconsHash): Option<seq<nat>> {
    if h.head < 256 && h.tail < Pow(256, 31) then Some([h.head] + BigEndian(h.tail, 31)) else None
  }

  // ---------------------------------------------------------------- bytes of the server

  /** The field element of a big-endian byte string in a witness. */
  function Assigned(bytes: seq<nat>): nat { BigEndianValue(bytes) % R }

  /** `uncons`; the source panics on an empty string. */
  function Uncons(bytes: seq<nat>): UnconsHash
    requires bytes != []
  {
    UnconsHash(Assigned(bytes[..1]), Assigned(bytes[1..]))
  }

  lemma AssignedSmall(bytes: seq<nat>)
    requires Bytes(bytes) && |bytes| <= 31
    ensures Assigned(bytes) == BigEndianValue(bytes) < Pow(256, |bytes|) <= Pow(256, 31)
  {
    hide Pow, Value, Reverse;
    BigEndianRoundTrip(bytes);
    FieldSize();
    PowGrows(256, |bytes|, 31);
  }

  lemma OneByte(bytes: seq<nat>)
    requires |bytes| == 1
    ensures BigEndianValue(bytes) == bytes[0]
  {
    assert Reverse(bytes) == bytes by { ReverseElements(bytes); }
    assert Value(bytes[1..], 256) == 0;
  }

  /** A 32-byte hash taken apart by the server comes back from the circuit. */
  lemma UnpackUncons(bytes: seq<nat>)
    requires Bytes(bytes) && |bytes| == 32
    ensures HashBytes(Uncons(bytes)) == Some(bytes)
  {
    hide Pow, BigEndianValue, BigEndian, Assigned;
    var head, tail := bytes[..1], bytes[1..];
    AssignedSmall(head);
    AssignedSmall(tail);
    BigEndianRoundTrip(tail);
    OneByte(head);
    assert bytes == [bytes[0]] + tail;
  }

  // ---------------------------------------------------------------- the inputs hash

  /** The parts of a proving request that the inputs hash covers. */
  datatype Request = Request(voteChainId: seq<nat>, headerChainId: seq<nat>, height: int, secs: int, nanos: int,
                             validators: seq<nat>, nextValidators: seq<nat>, appHash: seq<nat>, trustedRoot: seq<nat>)

  predicate Int64(x: int) { -0x8000_0000_0000_0000 <= x < 0x8000_0000_0000_0000 }

  ghost predicate WellTyped(r: Request) {
    && Bytes(r.voteChainId) && Bytes(r.headerChainId) && Bytes(r.validators) && Bytes(r.nextValidators)
    && Bytes(r.appHash) && Bytes(r.trustedRoot)
    && Int64(r.height) && Int64(r.secs) && Int64(r.nanos)
  }

  /** Big integers as consecutive 32-byte words. */
  function Words(ws: seq<nat>): (r: seq<nat>)
    ensures |r| == 32 * |ws|
  {
    if ws == [] then [] else Words(ws[..|ws| - 1]) + BigEndian(ws[|ws| - 1], 32)
  }

  ghost predicate Fit(ws: seq<nat>) { forall i :: 0 <= i < |ws| ==> ws[i] < Pow(256, 32) }

  lemma {:induction false} WordsInjective(a: seq<nat>, b: seq<nat>)
    requires |a| == |b| && Fit(a) && Fit(b)
    ensures Words(a) == Words(b) <==> a == b
  {
    hide BigEndian, Pow;
    if a != [] && Words(a) == Words(b) {
      var n := |a| - 1;
      var left, right := Words(a[..n]), Words(b[..n]);
      SplitEqual(left, BigEndian(a[n], 32), right, BigEndian(b[n], 32));
      WordsInjective(a[..n], b[..n]);
      BigEndianInjective(a[n], b[n], 32);
      assert a == a[..n] + [a[n]] && b == b[..n] + [b[n]];
    }
  }

  lemma SplitEqual(a: seq<nat>, b: seq<nat>, c: seq<nat>, d: seq<nat>)
    requires |a| == |c|
    ensures a + b == c + d <==> a == c && b == d
  {
    if a + b == c + d {
      assert (a + b)[..|a|] == a && (c + d)[..|a|] == c;
      assert (a + b)[|a|..] == b && (c + d)[|a|..] == d;
    }
  }

  /** The absolute value is all that `FillBytes` writes. */
  function Magnitude(x: int): nat { if x < 0 then -x else x }

  function ServerWords(r: Request): seq<nat> {
    [BigEndianValue(r.voteChainId), Magnitude(r.height), Magnitude(r.secs), Magnitude(r.nanos),
     BigEndianValue(r.validators), BigEndianValue(r.nextValidators)]
  }

  function CircuitWords(r: Request): seq<nat> {
    [Assigned(r.headerChainId), r.height % R, r.secs % R, r.nanos % R, Assigned(r.validators),
      Assigned(r.nextValidators)]
  }

  /** What the server hashes; padding a number of more than 32 bytes panics. */
  ghost function ServerBytes(r: Request): Option<seq<nat>> {
    if Fit(ServerWords(r)) && BigEndianValue(r.trustedRoot) < Pow(256, 32) then
      Some(Words(ServerWords(r)) + r.appHash + Words([BigEndianValue(r.trustedRoot)]))
    else None
  }

  /** What the circuit hashes; the bit decomposition of the application hash can be unsatisfiable. */
  function CircuitBytes(r: Request): Option<seq<nat>>
    requires r.appHash != []
  {
    match HashBytes(Uncons(r.appHash))
    case None => None
    case Some(hash) => Some(Words(CircuitWords(r)) + hash + Words([Assigned(r.trustedRoot)]))
  }

  /** `getInputsHash`, up to the hash: a buffer to which padded numbers and a raw hash are appended. */
  method GetInputsBytes(r: Request) returns (buffer: Option<seq<nat>>)
    ensures buffer == ServerBytes(r)
  {
    hide BigEndianValue, BigEndian, Words, Pow;
    WordsStart();
    var ws := ServerWords(r);
    var buff := [];
    var i := 0;
    while i < |ws|
      invariant 0 <= i <= |ws|
      invariant Fit(ws[..i])
      invariant buff == Words(ws[..i])
    {
      if ws[i] >= Pow(256, 32) { return None; }
      WordsSnoc(ws[..i], ws[i]);
      assert ws[..i + 1] == ws[..i] + [ws[i]];
      buff := buff + BigEndian(ws[i], 32);
      i := i + 1;
    }
    assert ws[..i] == ws;
    buff := buff + r.appHash;
    var root := BigEndianValue(r.trustedRoot);
    if root >= Pow(256, 32) { return None; }
    OneWord(root);
    return Some(buff + BigEndian(root, 32));
  }

  lemma WordsStart()
    ensures Words([]) == []
  {
  }

  lemma WordsSnoc(ws: seq<nat>, w: nat)
    ensures Words(ws + [w]) == Words(ws) + BigEndian(w, 32)
  {
  }

  lemma OneWord(w: nat)
    ensures Words([w]) == BigEndian(w, 32)
  {
  }

  /** The circuit's side of the same: every variable unpacked, then the hash, then the root. */
  method InputsBytes(r: Request) returns (bytes: Option<seq<nat>>)
    requires r.appHash != []
    ensures bytes == CircuitBytes(r)
  {
    hide BigEndianValue, BigEndian, Words, Uncons, HashBytes;
    WordsStart();
    var ws := CircuitWords(r);
    var written := [];
    var i := 0;
    while i < |ws|
      invariant 0 <= i <= |ws|
      invariant written == Words(ws[..i])
    {
      var word := UnpackVariable(ws[i]);
      WordsSnoc(ws[..i], ws[i]);
      assert ws[..i + 1] == ws[..i] + [ws[i]];
      written := written + word;
      i := i + 1;
    }
    assert ws[..i] == ws;
    var hash := UnpackHash(Uncons(r.appHash));
    if hash.None? { return None; }
    var root := UnpackVariable(Assigned(r.trustedRoot));
    OneWord(Assigned(r.trustedRoot));
    return Some(written + hash.value + root);
  }

  // ---------------------------------------------------------------- the layout of the bytes

  /** Each word is at its 32-byte offset. */
  lemma {:induction false} WordAt(ws: seq<nat>, i: nat)
    requires i < |ws|
    ensures Words(ws)[32 * i..32 * i + 32] == BigEndian(ws[i], 32)
  {
    hide BigEndian;
    var n := |ws| - 1;
    if i < n {
      WordAt(ws[..n], i);
      assert Words(ws)[32 * i..32 * i + 32] == Words(ws[..n])[32 * i..32 * i + 32];
    }
  }

  /** The byte at `j` of a big-endian number is the digit of weight 256^(k - 1 - j). */
  lemma BigEndianAt(x: nat, k: nat, j: nat)
    requires j < k
    ensures Pow(256, k - 1 - j) > 0
    ensures BigEndian(x, k)[j] == x / Pow(256, k - 1 - j) % 256
  {
    hide Pow, Digits, Reverse;
    ReverseAt(Digits(x, 256, k), j);
    DigitAt(x, 256, k, k - 1 - j);
  }

  /** The six numbers, the hash and the root, one after the other. */
  ghost predicate Layout(bytes: seq<nat>, chainId: nat, height: nat, secs: nat, nanos: nat, validators: nat,
                         nextValidators: nat, appHash: seq<nat>, root: nat)
  {
    && |bytes| == 192 + |appHash| + 32
    && bytes[..32] == BigEndian(chainId, 32)
    && bytes[32..64] == BigEndian(height, 32)
    && bytes[64..96] == BigEndian(secs, 32)
    && bytes[96..128] == BigEndian(nanos, 32)
    && bytes[128..160] == BigEndian(validators, 32)
    && bytes[160..192] == BigEndian(nextValidators, 32)
    && bytes[192..192 + |appHash|] == appHash
    && bytes[192 + |appHash|..] == BigEndian(root, 32)
  }

  lemma LaidOut(ws: seq<nat>, appHash: seq<nat>, root: nat)
    requires |ws| == 6
    ensures Layout(Words(ws) + appHash + Words([root]), ws[0], ws[1], ws[2], ws[3], ws[4], ws[5], appHash, root)
  {
    hide BigEndian, Words;
    var words := Words(ws);
    WordAt(ws, 0);
    WordAt(ws, 1);
    WordAt(ws, 2);
    WordAt(ws, 3);
    WordAt(ws, 4);
    WordAt(ws, 5);
    OneWord(root);
    assert words[0..32] == words[..32];
    var bytes := words + appHash + Words([root]);
    assert bytes[..192] == words;
    assert bytes[..32] == bytes[..192][..32];
    assert bytes[32..64] == bytes[..192][32..64];
    assert bytes[64..96] == bytes[..192][64..96];
    assert bytes[96..128] == bytes[..192][96..128];
    assert bytes[128..160] == bytes[..192][128..160];
    assert bytes[160..192] == bytes[..192][160..192];
  }

  /** What the server hashes: the chain identifier of the vote, height, seconds, nanoseconds, the two validator
      roots, the application hash as it is, and the trusted root. */
  lemma ServerLayout(r: Request)
    requires ServerBytes(r).Some?
    ensures Layout(ServerBytes(r).value, BigEndianValue(r.voteChainId), Magnitude(r.height), Magnitude(r.secs),
                   Magnitude(r.nanos), BigEndianValue(r.validators), BigEndianValue(r.nextValidators), r.appHash,
                   BigEndianValue(r.trustedRoot))
  {
    hide Words, Layout, BigEndianValue, Pow, Fit;
    LaidOut(ServerWords(r), r.appHash, BigEndianValue(r.trustedRoot));
  }

  /** What the circuit hashes: the same with the chain identifier of the header, as field elements, and the
      application hash put together from its two parts. */
  lemma CircuitLayout(r: Request)
    requires r.appHash != [] && CircuitBytes(r).Some?
    ensures Layout(CircuitBytes(r).value, Assigned(r.headerChainId), r.height % R, r.secs % R, r.nanos % R,
                   Assigned(r.validators), Assigned(r.nextValidators),
                   [Uncons(r.appHash).head] + BigEndian(Uncons(r.appHash).tail, 31), Assigned(r.trustedRoot))
  {
    hide Words, Layout, Assigned, Pow, Uncons, BigEndian;
    LaidOut(CircuitWords(r), HashBytes(Uncons(r.appHash)).value, Assigned(r.trustedRoot));
  }

  // ---------------------------------------------------------------- where the two agree

  lemma MagnitudeIsAssigned(x: int)
    requires Int64(x)
    ensures Magnitude(x) == x % R <==> x >= 0
  {
  }

  lemma AssignedIsValue(bytes: seq<nat>)
    ensures BigEndianValue(bytes) == Assigned(bytes) <==> BigEndianValue(bytes) < R
  {
  }

  lemma CircuitFits(r: Request)
    ensures Fit(CircuitWords(r)) && Assigned(r.trustedRoot) < Pow(256, 32)
  {
    hide BigEndianValue, Pow;
    FieldSize();
  }

  /** The two encoders produce the same bytes exactly when the integers are not negative, the MiMC
      hashes are canonical field elements, the application hash has 32 bytes, and the chain identifier of
      the vote, which the server hashes, is that of the header, which the circuit hashes. */
  lemma EncodersAgreeIff(r: Request)
    requires WellTyped(r) && r.appHash != []
    ensures (ServerBytes(r).Some? && CircuitBytes(r) == ServerBytes(r)) <==> Encodable(r)
  {
    hide BigEndianValue, Words, HashBytes, Uncons, Pow;
    WordsAgreeIff(r);
    CircuitFits(r);
    if |r.appHash| == 32 { UnpackUncons(r.appHash); }
    if ServerBytes(r).Some? {
      var s, c := ServerWords(r), CircuitWords(r);
      var sr, cr := [BigEndianValue(r.trustedRoot)], [Assigned(r.trustedRoot)];
      assert |s| == |c|;
      WordsInjective(s, c);
      WordsInjective(sr, cr);
      if CircuitBytes(r).Some? {
        var hash := HashBytes(Uncons(r.appHash)).value;
        HashLength(Uncons(r.appHash));
        if |r.appHash| == 32 {
          SplitEqual(Words(s) + r.appHash, Words(sr), Words(c) + hash, Words(cr));
          SplitEqual(Words(s), r.appHash, Words(c), hash);
        }
      }
    }
  }

  lemma HashLength(h: UnconsHash)
    ensures HashBytes(h).Some? ==> |HashBytes(h).value| == 32
  {
  }

  ghost predicate Encodable(r: Request) {
    && r.height >= 0 && r.secs >= 0 && r.nanos >= 0
    && |r.appHash| == 32
    && BigEndianValue(r.voteChainId) == BigEndianValue(r.headerChainId) % R
    && BigEndianValue(r.validators) < R && BigEndianValue(r.nextValidators) < R && BigEndianValue(r.trustedRoot) < R
  }

  lemma WordsAgreeIff(r: Request)
    requires WellTyped(r)
    ensures (ServerWords(r) == CircuitWords(r) && BigEndianValue(r.trustedRoot) == Assigned(r.trustedRoot)
            && |r.appHash| == 32)
            <==> Encodable(r)
    ensures Encodable(r) ==> Fit(ServerWords(r)) && BigEndianValue(r.trustedRoot) < Pow(256, 32)
  {
    hide BigEndianValue, Pow;
    MagnitudeIsAssigned(r.height);
    MagnitudeIsAssigned(r.secs);
    MagnitudeIsAssigned(r.nanos);
    AssignedIsValue(r.validators);
    AssignedIsValue(r.nextValidators);
    AssignedIsValue(r.trustedRoot);
    FieldSize();
    CircuitFits(r);
    var s, c := ServerWords(r), CircuitWords(r);
    assert s == c <==> s[0] == c[0] && s[1] == c[1] && s[2] == c[2] && s[3] == c[3] && s[4] == c[4] && s[5] == c[5];
  }

  /** `VerifyInputs` compares all bytes but the most significant one. */
  method VerifyInputs(expected: nat, hash: seq<nat>) returns (ok: bool)
    requires expected < R && Bytes(hash) && |hash| == 32
    ensures ok <==> Mod(expected, Pow(256, 31)) == BigEndianValue(hash[1..])
  {
    hide BigEndianValue, BigEndian, Pow, Mod;
    var bytes := UnpackVariable(expected);
    ok := true;
    for i := 1 to |hash|
      invariant ok <==> forall j :: 1 <= j < i ==> bytes[j] == hash[j]
    {
      if bytes[i] != hash[i] { ok := false; }
    }
    assert ok <==> bytes[1..] == hash[1..] by {
      if bytes[1..] == hash[1..] {
        assert forall j :: 1 <= j < 32 ==> bytes[j] == bytes[1..][j - 1] == hash[1..][j - 1];
      }
    }
    TruncatedBytes(expected, hash[1..]);
  }

  lemma TruncatedBytes(x: nat, bytes: seq<nat>)
    requires Bytes(bytes) && |bytes| == 31
    ensures BigEndian(x, 32)[1..] == bytes <==> Mod(x, Pow(256, 31)) == BigEndianValue(bytes)
  {
    hide Pow, Mod, Div, Value, Digits, Reverse;
    var low := Digits(x, 256, 32)[0..31];
    ReverseTail(Digits(x, 256, 32));
    DigitsSlice(x, 256, 32, 0, 31);
    assert Div(x, Pow(256, 0)) == x by { ByOne(x); PowZero(256); }
    ValueOfDigits(x, 256, 31);
    ReverseElements(bytes);
    DigitsOfValue(Reverse(bytes), 256);
    DigitsOfValue(low, 256);
    ReverseTwice(bytes);
    ReverseTwice(low);
  }

  lemma PowZero(b: nat)
    ensures Pow(b, 0) == 1
  {
  }

  lemma ReverseTail(s: seq<nat>)
    requires s != []
    ensures Reverse(s)[1..] == Reverse(s[0..|s| - 1])
  {
    hide Reverse;
    var front, last := s[0..|s| - 1], s[|s| - 1];
    ReverseSnoc(front, last);
    assert s == front + [last];
  }

  /** The public input that the server computes from a hash is accepted for it. */
  lemma TruncationMatches(hash: seq<nat>)
    requires Bytes(hash) && |hash| == 32
    ensures Assigned(hash[1..]) < R && Mod(Assigned(hash[1..]), Pow(256, 31)) == BigEndianValue(hash[1..])
  {
    hide Pow, Mod, BigEndianValue;
    AssignedSmall(hash[1..]);
    DivModUnique(Assigned(hash[1..]), Pow(256, 31), 0, Assigned(hash[1..]));
  }
}
