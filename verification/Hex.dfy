/**
 The 32-byte content hash and its stored form, 64 lowercase hex characters.
 */
module Hex {
  import opened Prelude

  type Byte = n: nat | n < 256

  // A BLAKE3-256 digest; strings are their UTF-8 bytes, as the parser sees them.
  const HASH_LEN: nat := 32
  type Hash = h: seq<Byte> | |h| == HASH_LEN witness seq(HASH_LEN, i => 0)

  datatype HexError = BadLength(length: nat) | BadChar(at: nat)

  function NibbleToHex(n: nat): (c: Byte)
    requires n < 16
  {
    if n <= 9 then 48 + n else 97 + (n - 10)
  }

  function ParseNibble(b: Byte): (r: Option<nat>)
    ensures r.Some? ==> r.value < 16
  {
    if 48 <= b <= 57 then Some(b - 48)
    else if 97 <= b <= 102 then Some(b - 97 + 10)
    else None
  }

  // Digits and nibbles correspond one to one, in the same order.
  lemma NibbleCodec(n: nat, m: nat, b: Byte)
    requires n < 16 && m < 16
    ensures ParseNibble(NibbleToHex(n)) == Some(n)
    ensures ParseNibble(b).Some? ==> NibbleToHex(ParseNibble(b).value) == b
    ensures NibbleToHex(n) < NibbleToHex(m) <==> n < m
  {
  }

  // The hex form of any byte string: two digits a byte, high nibble first.
  function HexOf(bytes: seq<Byte>): (s: seq<Byte>)
    ensures |s| == 2 * |bytes|
  {
    seq(2 * |bytes|, i requires 0 <= i < 2 * |bytes| =>
      NibbleToHex(if i % 2 == 0 then bytes[i / 2] / 16 else bytes[i / 2] % 16))
  }

  lemma HexDigits(bytes: seq<Byte>, i: nat)
    requires i < |bytes|
    ensures HexOf(bytes)[2 * i] == NibbleToHex(bytes[i] / 16)
    ensures HexOf(bytes)[2 * i + 1] == NibbleToHex(bytes[i] % 16)
  {
    assert (2 * i) / 2 == i && (2 * i + 1) / 2 == i;
  }

  // The characters of a hex form are '0' to '9' and lowercase 'a' to 'f', standing for the nibbles 0
  // to 15 in this order.
  lemma HexAlphabet(bytes: seq<Byte>, i: nat)
    requires i < |bytes|
    ensures HexOf(bytes)[2 * i] as char == "0123456789abcdef"[bytes[i] / 16]
    ensures HexOf(bytes)[2 * i + 1] as char == "0123456789abcdef"[bytes[i] % 16]
  {
    HexDigits(bytes, i);
    DigitOf(bytes[i] / 16);
    DigitOf(bytes[i] % 16);
  }

  lemma DigitOf(n: nat)
    requires n < 16
    ensures NibbleToHex(n) as char == "0123456789abcdef"[n]
  {
  }

  ghost predicate IsHexForm(s: seq<Byte>) {
    exists h: Hash :: HexOf(h) == s
  }

  method ToHex(hash: Hash) returns (out: seq<Byte>)
    ensures out == HexOf(hash)
  {
    out := [];
    for i := 0 to |hash|
      invariant |out| == 2 * i
      invariant out == HexOf(hash)[..2 * i]
    {
      HexDigits(hash, i);
      var b := hash[i];
      out := out + [NibbleToHex(b / 16)];
      out := out + [NibbleToHex(b % 16)];
    }
  }

  // Accepts exactly the hex forms of hashes and returns the hash; otherwise reports the length
  // or the first offending character.
  method ParseHex(s: seq<Byte>) returns (r: Result<Hash, HexError>)
    ensures r.Ok? ==> HexOf(r.value) == s
    ensures r.Err? ==> !IsHexForm(s)
    ensures r.Err? && r.error.BadLength? <==> |s| != 64
    ensures r.Err? && r.error.BadLength? ==> r.error.length == |s|
    ensures r.Err? && r.error.BadChar? ==>
              r.error.at < |s| && ParseNibble(s[r.error.at]).None?
              && forall j :: 0 <= j < r.error.at ==> ParseNibble(s[j]).Some?
  {
    if |s| != 2 * HASH_LEN {
      NoOddLength(s);
      return Err(BadLength(|s|));
    }
    var out: seq<Byte> := seq(HASH_LEN, i => 0);
    for i := 0 to HASH_LEN
      invariant |out| == HASH_LEN
      invariant Agrees(out, s, 2 * i)
    {
      var hi := ParseNibble(s[2 * i]);
      if hi.None? {
        NoHexForm(s, 2 * i);
        return Err(BadChar(2 * i));
      }
      var lo := ParseNibble(s[2 * i + 1]);
      if lo.None? {
        NoHexForm(s, 2 * i + 1);
        return Err(BadChar(2 * i + 1));
      }
      HexExtends(s, out, i, hi.value, lo.value);
      out := out[i := hi.value * 16 + lo.value];
    }
    SameHex(out, s);
    return Ok(out);
  }

  lemma SameHex(out: seq<Byte>, s: seq<Byte>)
    requires Agrees(out, s, |s|)
    ensures HexOf(out) == s
  {
  }

  // The first n characters are digits, and those of `out`.
  ghost predicate Agrees(out: seq<Byte>, s: seq<Byte>, n: nat) {
    && |s| == 2 * |out| && n <= |s|
    && forall j :: 0 <= j < n ==> HexOf(out)[j] == s[j] && ParseNibble(s[j]).Some?
  }

  // Writing the next parsed byte extends the agreement with the input by two digits.
  lemma HexExtends(s: seq<Byte>, out: seq<Byte>, i: nat, hi: nat, lo: nat)
    requires |s| == 2 * |out| && i < |out| && hi < 16 && lo < 16 && Agrees(out, s, 2 * i)
    requires ParseNibble(s[2 * i]) == Some(hi) && ParseNibble(s[2 * i + 1]) == Some(lo)
    ensures Agrees(out[i := hi * 16 + lo], s, 2 * (i + 1))
  {
    var b := hi * 16 + lo;
    assert b / 16 == hi && b % 16 == lo;
    NibbleCodec(hi, lo, s[2 * i]);
    NibbleCodec(lo, hi, s[2 * i + 1]);
    HexFrame(out, i, b);
    HexDigits(out[i := b], i);
    forall j | 0 <= j < 2 * (i + 1) ensures HexOf(out[i := b])[j] == s[j] && ParseNibble(s[j]).Some? {
      assert j < 2 * i || j == 2 * i || j == 2 * i + 1;
    }
  }

  lemma HexFrame(out: seq<Byte>, i: nat, b: Byte)
    requires i < |out|
    ensures forall j :: 0 <= j < 2 * i ==> HexOf(out[i := b])[j] == HexOf(out)[j]
  {
  }

  lemma NoOddLength(s: seq<Byte>)
    requires |s| != 2 * HASH_LEN
    ensures !IsHexForm(s)
  {
  }

  lemma NoHexForm(s: seq<Byte>, at: nat)
    requires at < |s| && ParseNibble(s[at]).None?
    ensures !IsHexForm(s)
  {
    if IsHexForm(s) {
      var h: Hash :| HexOf(h) == s;
      var n := if at % 2 == 0 then h[at / 2] / 16 else h[at / 2] % 16;
      NibbleCodec(n, n, s[at]);
    }
  }

  // No two byte strings share a hex form.
  lemma HexInjective(a: seq<Byte>, b: seq<Byte>)
    ensures HexOf(a) == HexOf(b) <==> a == b
  {
    if HexOf(a) == HexOf(b) {
      forall i | 0 <= i < |a| ensures a[i] == b[i] {
        HexDigits(a, i);
        HexDigits(b, i);
        NibbleCodec(a[i] / 16, b[i] / 16, 0);
        NibbleCodec(b[i] / 16, a[i] / 16, 0);
        NibbleCodec(a[i] % 16, b[i] % 16, 0);
        NibbleCodec(b[i] % 16, a[i] % 16, 0);
      }
    }
  }

  // The position at which `a` drops below `b`.
  ghost predicate FirstBelow(a: seq<Byte>, b: seq<Byte>, k: nat) {
    k < |a| && k < |b| && a[k] < b[k] && a[..k] == b[..k]
  }

  // Lexicographic order of equally long strings.
  ghost predicate Below(a: seq<Byte>, b: seq<Byte>) {
    exists k :: FirstBelow(a, b, k)
  }

  // Sorting stored hex strings sorts the hashes.
  lemma HexOrder(a: seq<Byte>, b: seq<Byte>)
    requires |a| == |b|
    ensures Below(a, b) <==> Below(HexOf(a), HexOf(b))
  {
    if Below(a, b) {
      var k :| FirstBelow(a, b, k);
      HexBelow(a, b, k);
    }
    if Below(HexOf(a), HexOf(b)) {
      var m :| FirstBelow(HexOf(a), HexOf(b), m);
      BytesBelow(a, b, m);
    }
  }

  lemma HexPrefix(a: seq<Byte>, k: nat)
    requires k <= |a|
    ensures HexOf(a)[..2 * k] == HexOf(a[..k])
  {
  }

  lemma HexBelow(a: seq<Byte>, b: seq<Byte>, k: nat)
    requires |a| == |b| && FirstBelow(a, b, k)
    ensures Below(HexOf(a), HexOf(b))
  {
    HexPrefix(a, k);
    HexPrefix(b, k);
    HexDigits(a, k);
    HexDigits(b, k);
    NibbleCodec(a[k] / 16, b[k] / 16, 0);
    NibbleCodec(a[k] % 16, b[k] % 16, 0);
    if a[k] / 16 < b[k] / 16 {
      assert FirstBelow(HexOf(a), HexOf(b), 2 * k);
    } else {
      assert HexOf(a)[..2 * k + 1] == HexOf(a)[..2 * k] + [HexOf(a)[2 * k]];
      assert HexOf(b)[..2 * k + 1] == HexOf(b)[..2 * k] + [HexOf(b)[2 * k]];
      assert FirstBelow(HexOf(a), HexOf(b), 2 * k + 1);
    }
  }

  lemma BytesBelow(a: seq<Byte>, b: seq<Byte>, m: nat)
    requires |a| == |b| && FirstBelow(HexOf(a), HexOf(b), m)
    ensures Below(a, b)
  {
    var k := m / 2;
    HexPrefix(a, k);
    HexPrefix(b, k);
    assert HexOf(a)[..2 * k] == HexOf(a)[..m][..2 * k] == HexOf(b)[..2 * k];
    HexInjective(a[..k], b[..k]);
    HexDigits(a, k);
    HexDigits(b, k);
    NibbleCodec(a[k] / 16, b[k] / 16, 0);
    NibbleCodec(a[k] % 16, b[k] % 16, 0);
    if m % 2 == 1 {
      assert HexOf(a)[2 * k] == HexOf(a)[..m][2 * k] == HexOf(b)[2 * k];
      NibbleCodec(b[k] / 16, a[k] / 16, 0);
    }
    assert FirstBelow(a, b, k);
  }
}
