/** Concurrency tokens carry their own proof of origin: uuid "." hex(mac(uuid)). */
module TokenSigning {

  type Bytes = seq<bv8>

  /** HMAC-SHA256 (section 2 of RFC 2104), as any function of key and message. */
  type Mac = (Bytes, string) -> Bytes

  const HEX: string := "0123456789abcdef"

  function Hex(bytes: Bytes): string {
    if bytes == [] then ""
    else [HEX[(bytes[0] / 16) as int], HEX[(bytes[0] % 16) as int]] + Hex(bytes[1..])
  }

  lemma {:induction false} HexHasNoDot(bytes: Bytes)
    ensures '.' !in Hex(bytes)
  {
    if bytes == [] {
    } else {
      HexHasNoDot(bytes[1..]);
      var hi, lo := (bytes[0] / 16) as int, (bytes[0] % 16) as int;
      HexDigit(hi);
      HexDigit(lo);
    }
  }

  lemma HexDigit(i: int)
    requires 0 <= i < 16
    ensures HEX[i] != '.'
  {}

  /** Hex is two digits a byte, and different bytes look different. */
  lemma {:induction false} HexIsInjective(a: Bytes, b: Bytes)
    ensures |Hex(a)| == 2 * |a|
    ensures Hex(a) == Hex(b) ==> a == b
    decreases |a|
  {
    HexLength(a);
    HexLength(b);
    if a == [] || b == [] {
    } else if Hex(a) == Hex(b) {
      assert Hex(a)[2..] == Hex(a[1..]) && Hex(b)[2..] == Hex(b[1..]);
      HexIsInjective(a[1..], b[1..]);
      assert Hex(a)[0] == Hex(b)[0] && Hex(a)[1] == Hex(b)[1];
      OneByte(a[0], b[0]);
      assert a == [a[0]] + a[1..] && b == [b[0]] + b[1..];
    }
  }

  lemma {:induction false} HexLength(a: Bytes)
    ensures |Hex(a)| == 2 * |a|
  {
    if a == [] {
    } else {
      HexLength(a[1..]);
    }
  }

  lemma OneByte(x: bv8, y: bv8)
    requires HEX[(x / 16) as int] == HEX[(y / 16) as int] && HEX[(x % 16) as int] == HEX[(y % 16) as int]
    ensures x == y
  {
    DigitsDiffer((x / 16) as int, (y / 16) as int);
    DigitsDiffer((x % 16) as int, (y % 16) as int);
  }

  lemma DigitsDiffer(i: int, j: int)
    requires 0 <= i < 16 && 0 <= j < 16 && HEX[i] == HEX[j]
    ensures i == j
  {}

  function SignToken(mac: Mac, key: Bytes, uuid: string): string {
    uuid + "." + Hex(mac(key, uuid))
  }

  /** strings.Cut at the first dot. */
  function Cut(s: string): (r: (string, string, bool))
    ensures r.2 ==> s == r.0 + "." + r.1 && '.' !in r.0
    ensures !r.2 ==> '.' !in s
  {
    if s == "" then ("", "", false)
    else if s[0] == '.' then ("", s[1..], true)
    else
      var (before, after, found) := Cut(s[1..]);
      if found then ([s[0]] + before, after, true) else (s, "", false)
  }

  function VerifyToken(mac: Mac, key: Bytes, token: string): bool {
    var (uuid, sig, found) := Cut(token);
    found && sig == Hex(mac(key, uuid))
  }

  lemma {:induction false} CutAtFirstDot(uuid: string, rest: string)
    requires '.' !in uuid
    ensures Cut(uuid + "." + rest) == (uuid, rest, true)
  {
    var s := uuid + "." + rest;
    if uuid == "" {
    } else {
      assert s[1..] == uuid[1..] + "." + rest;
      CutAtFirstDot(uuid[1..], rest);
      assert [s[0]] + uuid[1..] == uuid;
    }
  }

  /** The verifier accepts exactly the strings the signer makes from a dot-free
      identifier: everything issued for a UUID, and nothing else. */
  lemma AcceptsExactlyTheSigned(mac: Mac, key: Bytes, token: string)
    ensures VerifyToken(mac, key, token) <==> exists uuid :: '.' !in uuid && token == SignToken(mac, key, uuid)
  {
    if VerifyToken(mac, key, token) {
      var uuid := Cut(token).0;
      assert '.' !in uuid && token == SignToken(mac, key, uuid);
    }
    if uuid :| '.' !in uuid && token == SignToken(mac, key, uuid) {
      CutAtFirstDot(uuid, Hex(mac(key, uuid)));
    }
  }

  /** Signing a dotted string makes nothing the verifier accepts, for any mac at all. */
  lemma DottedIsNeverAccepted(mac: Mac, key: Bytes, name: string)
    requires '.' in name
    ensures !VerifyToken(mac, key, SignToken(mac, key, name))
  {
    var (uuid, rest, found) := Cut(name);
    var sig := rest + "." + Hex(mac(key, name));
    assert SignToken(mac, key, name) == uuid + "." + sig;
    CutAtFirstDot(uuid, sig);
    assert sig[|rest|] == '.';
    HexHasNoDot(mac(key, uuid));
  }

  /** A token made for one identifier under one key verifies under another key exactly if
      the two keys give that identifier the same mac. */
  lemma VerifiesUnderAnotherKeyExactlyWhen(mac: Mac, key: Bytes, other: Bytes, uuid: string)
    requires '.' !in uuid
    ensures VerifyToken(mac, other, SignToken(mac, key, uuid)) <==> mac(key, uuid) == mac(other, uuid)
  {
    CutAtFirstDot(uuid, Hex(mac(key, uuid)));
    HexIsInjective(mac(key, uuid), mac(other, uuid));
  }

  /** A token is never blank, so a granted reservation never reads as "no token". */
  lemma SignedIsNeverBlank(mac: Mac, key: Bytes, uuid: string)
    ensures SignToken(mac, key, uuid) != ""
  {
    assert |SignToken(mac, key, uuid)| >= 1;
  }
}
