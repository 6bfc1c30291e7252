/** Denominations of the UCS01 relay: the `port/channel/denom` wire form, the hashed
    `factory/contract/0x...` form of a voucher, and the translation between the two. */
module Denoms {
  import opened Wrappers

  datatype Endpoint = Endpoint(port: string, channel: string)

  function StripPrefix(s: string, p: string): (r: Option<string>)
    ensures r.Some? <==> p <= s
    ensures r.Some? ==> s == p + r.value
  {
    if p <= s then Some(s[|p|..]) else None
  }

  // ---------------------------------------------------------------- wire denominations

  function MakeForeignDenom(ep: Endpoint, denom: string): string {
    ep.port + "/" + ep.channel + "/" + denom
  }

  datatype DenomOrigin = Local(denom: string) | Remote(denom: string)

  /** A denomination is local exactly when the whole endpoint prefix can be stripped from it. */
  function Origin(denom: string, ep: Endpoint): DenomOrigin {
    match StripPrefix(denom, ep.port)
    case None => Remote(denom)
    case Some(a) =>
      match StripPrefix(a, "/")
      case None => Remote(denom)
      case Some(b) =>
        match StripPrefix(b, ep.channel)
        case None => Remote(denom)
        case Some(c) =>
          match StripPrefix(c, "/")
          case None => Remote(denom)
          case Some(d) => Local(d)
  }

  lemma StripConcat(p: string, s: string)
    ensures StripPrefix(p + s, p) == Some(s)
  {
  }

  lemma OriginOfForeign(ep: Endpoint, denom: string)
    ensures Origin(MakeForeignDenom(ep, denom), ep) == Local(denom)
  {
  }

  /** `DenomOrigin` inverts `make_foreign_denom`, with no condition on the identifiers. */
  lemma OriginLocalIff(denom: string, ep: Endpoint, d: string)
    ensures Origin(denom, ep) == Local(d) <==> denom == MakeForeignDenom(ep, d)
    ensures Origin(denom, ep).Remote? ==> Origin(denom, ep) == Remote(denom)
  {
    OriginOfForeign(ep, d);
    if Origin(denom, ep) == Local(d) {
      var a := StripPrefix(denom, ep.port).value;
      var b := StripPrefix(a, "/").value;
      var c := StripPrefix(b, ep.channel).value;
      assert denom == ep.port + ("/" + (ep.channel + ("/" + d)));
    }
  }

  lemma ForeignDenomInjective(ep: Endpoint, x: string, y: string)
    requires MakeForeignDenom(ep, x) == MakeForeignDenom(ep, y)
    ensures x == y
  {
    OriginOfForeign(ep, x);
    OriginOfForeign(ep, y);
  }

  ghost predicate Identifier(s: string) { '/' !in s }

  function BeforeSlash(s: string): string {
    if s == "" || s[0] == '/' then "" else [s[0]] + BeforeSlash(s[1..])
  }

  lemma {:induction false} BeforeSlashOf(a: string, x: string)
    requires Identifier(a)
    ensures BeforeSlash(a + "/" + x) == a
  {
    var s := a + "/" + x;
    if a == "" {
      assert s[0] == '/';
    } else {
      assert s[0] == a[0] && s[1..] == a[1..] + "/" + x;
      BeforeSlashOf(a[1..], x);
    }
  }

  lemma SplitAtSlash(a: string, x: string, b: string, y: string)
    requires Identifier(a) && Identifier(b)
    requires a + "/" + x == b + "/" + y
    ensures a == b && x == y
  {
    BeforeSlashOf(a, x);
    BeforeSlashOf(b, y);
    assert (a + "/" + x)[|a| + 1..] == x;
    assert (b + "/" + y)[|b| + 1..] == y;
  }

  /** Vouchers of different channels never share a wire denomination. */
  lemma ForeignDenomSeparatesEndpoints(e: Endpoint, x: string, f: Endpoint, y: string)
    requires Identifier(e.port) && Identifier(e.channel) && Identifier(f.port) && Identifier(f.channel)
    requires MakeForeignDenom(e, x) == MakeForeignDenom(f, y)
    ensures e == f && x == y
  {
    assert MakeForeignDenom(e, x) == e.port + "/" + (e.channel + "/" + x);
    assert MakeForeignDenom(f, y) == f.port + "/" + (f.channel + "/" + y);
    SplitAtSlash(e.port, e.channel + "/" + x, f.port, f.channel + "/" + y);
    SplitAtSlash(e.channel, x, f.channel, y);
  }

  /** On one port, a slash in the port itself does no harm. */
  lemma ForeignDenomSeparatesChannels(port: string, a: string, x: string, b: string, y: string)
    requires Identifier(a) && Identifier(b)
    requires MakeForeignDenom(Endpoint(port, a), x) == MakeForeignDenom(Endpoint(port, b), y)
    ensures a == b && x == y
  {
    hide Identifier, BeforeSlash;
    AfterPort(port, a, x);
    AfterPort(port, b, y);
    SplitAtSlash(a, x, b, y);
  }

  lemma AfterPort(port: string, channel: string, x: string)
    ensures |MakeForeignDenom(Endpoint(port, channel), x)| > |port|
    ensures MakeForeignDenom(Endpoint(port, channel), x)[|port| + 1..] == channel + "/" + x
  {
    assert MakeForeignDenom(Endpoint(port, channel), x) == port + "/" + (channel + "/" + x);
  }

  // ---------------------------------------------------------------- hexadecimal

  type Byte = b: nat | b < 256

  function HexDigit(n: nat): char
    requires n < 16
  {
    "0123456789abcdef"[n]
  }

  /** Both cases of a letter are accepted when decoding. */
  function DigitValue(c: char): (r: Option<nat>)
    ensures r.Some? ==> r.value < 16
  {
    if '0' <= c <= '9' then Some(c as int - '0' as int)
    else if 'a' <= c <= 'f' then Some(c as int - 'a' as int + 10)
    else if 'A' <= c <= 'F' then Some(c as int - 'A' as int + 10)
    else None
  }

  function Hex(bytes: seq<Byte>): string {
    if bytes == [] then ""
    else [HexDigit(bytes[0] / 16), HexDigit(bytes[0] % 16)] + Hex(bytes[1..])
  }

  function Unhex(s: string): Option<seq<Byte>> {
    if s == "" then Some([])
    else if |s| == 1 then None
    else
      match (DigitValue(s[0]), DigitValue(s[1]), Unhex(s[2..]))
      case (Some(hi), Some(lo), Some(rest)) => Some([16 * hi + lo] + rest)
      case _ => None
  }

  lemma DigitRoundTrip(n: nat)
    requires n < 16
    ensures DigitValue(HexDigit(n)) == Some(n)
  {
  }

  lemma UnhexCons(hi: nat, lo: nat, t: string)
    requires hi < 16 && lo < 16 && Unhex(t).Some?
    ensures Unhex([HexDigit(hi), HexDigit(lo)] + t) == Some([16 * hi + lo] + Unhex(t).value)
  {
    DigitRoundTrip(hi);
    DigitRoundTrip(lo);
    hide HexDigit, DigitValue;
    assert ([HexDigit(hi), HexDigit(lo)] + t)[2..] == t;
  }

  lemma {:induction false} UnhexHex(bytes: seq<Byte>)
    ensures Unhex(Hex(bytes)) == Some(bytes)
    ensures |Hex(bytes)| == 2 * |bytes|
  {
    hide HexDigit, DigitValue;
    if bytes != [] {
      var b, rest := bytes[0], bytes[1..];
      UnhexHex(rest);
      assert Unhex(Hex(bytes)) == Some([16 * (b / 16) + b % 16] + rest) by {
        hide Unhex;
        UnhexCons(b / 16, b % 16, Hex(rest));
      }
      assert [16 * (b / 16) + b % 16] + rest == bytes by { hide Unhex, Hex; }
    }
  }

  ghost predicate Uppercase(c: char) { 'A' <= c <= 'F' }

  lemma DigitCanonical(c: char)
    requires DigitValue(c).Some?
    ensures HexDigit(DigitValue(c).value) == c <==> !Uppercase(c)
  {
  }

  /** Re-encoding a decoded string gives it back exactly when it holds no upper-case digit. */
  lemma {:induction false} HexUnhex(s: string)
    requires Unhex(s).Some?
    ensures Hex(Unhex(s).value) == s <==> (forall c :: c in s ==> !Uppercase(c))
  {
    if s != "" {
      var rest := Unhex(s[2..]).value;
      var hi, lo := DigitValue(s[0]).value, DigitValue(s[1]).value;
      HexUnhex(s[2..]);
      DigitCanonical(s[0]);
      DigitCanonical(s[1]);
      HexCons(hi, lo, rest);
      SplitPair(s, HexDigit(hi), HexDigit(lo), Hex(rest));
      assert forall c :: c in s <==> c == s[0] || c == s[1] || c in s[2..];
    }
  }

  lemma HexCons(hi: nat, lo: nat, rest: seq<Byte>)
    requires hi < 16 && lo < 16
    ensures Hex([16 * hi + lo] + rest) == [HexDigit(hi), HexDigit(lo)] + Hex(rest)
  {
    hide HexDigit;
    assert ([16 * hi + lo] + rest)[1..] == rest;
    assert (16 * hi + lo) / 16 == hi && (16 * hi + lo) % 16 == lo;
  }

  lemma SplitPair(s: string, a: char, b: char, t: string)
    requires |s| >= 2
    ensures [a, b] + t == s <==> a == s[0] && b == s[1] && t == s[2..]
  {
  }

  // ---------------------------------------------------------------- vouchers

  const HASH_LENGTH := 21

  type Hash = h: seq<Byte> | |h| == HASH_LENGTH witness seq(HASH_LENGTH, _ => 0)

  /** One deployment: its address, the denomination hash (SHA-256 truncated to 21 bytes), and the
      foreign denominations that occur in the run under study. */
  datatype Contract = Contract(addr: string, hash: string -> Hash, names: set<string>)
  {
    /** No two of the denominations in use collide. */
    ghost predicate Injective() {
      forall x, y :: x in names && y in names && hash(x) == hash(y) ==> x == y
    }

    function Port(): string { "wasm." + addr }

    function HashStr(denom: string): string { "0x" + Hex(hash(denom)) }

    function FactoryDenom(foreign: string): string {
      "factory/" + addr + "/" + HashStr(foreign)
    }

    lemma FactoryDenomInjective(x: string, y: string)
      requires Injective() && x in names && y in names
      requires FactoryDenom(x) == FactoryDenom(y)
      ensures x == y
    {
      var p := "factory/" + addr + "/" + "0x";
      assert FactoryDenom(x) == p + Hex(hash(x)) && FactoryDenom(y) == p + Hex(hash(y));
      assert FactoryDenom(x)[|p|..] == Hex(hash(x)) && FactoryDenom(y)[|p|..] == Hex(hash(y));
      UnhexHex(hash(x));
      UnhexHex(hash(y));
    }

    /** The hexadecimal part of a voucher of this contract, if `denom` is one. */
    function VoucherHash(denom: string): Option<string> {
      match StripPrefix(denom, "factory/")
      case None => None
      case Some(a) =>
        match StripPrefix(a, addr)
        case None => None
        case Some(b) => StripPrefix(b, "/0x")
    }

    lemma VoucherHashOfFactory(foreign: string)
      ensures VoucherHash(FactoryDenom(foreign)) == Some(Hex(hash(foreign)))
    {
      var h := Hex(hash(foreign));
      assert FactoryDenom(foreign) == "factory/" + (addr + ("/0x" + h));
      StripConcat("factory/", addr + ("/0x" + h));
      StripConcat(addr, "/0x" + h);
      StripConcat("/0x", h);
    }

    /** `normalize_for_ibc_transfer`: a voucher of this very channel travels as its preimage, every
        other token under its own name. A malformed voucher name trips an `expect`. */
    function Normalize(hashToDenom: map<(Endpoint, Hash), string>, ep: Endpoint, denom: string): Outcome<string> {
      match VoucherHash(denom)
      case None => Ok(denom)
      case Some(hex) =>
        match Unhex(hex)
        case None => Panic
        case Some(bytes) =>
          if |bytes| != HASH_LENGTH then Panic
          else if (ep, bytes) !in hashToDenom then Ok(denom)
          else
            var preimage := hashToDenom[(ep, bytes)];
            match Origin(preimage, ep)
            case Local(_) => Ok(preimage)
            case Remote(_) => Ok(denom)
    }
  }
}
