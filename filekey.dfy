/**
 * The file key of calculateHash: the decimal count of bytes actually read,
 * a '-', then the lower-case hex encoding of the MD5 digest
 * (fmt.Sprintf("%d-%s", n, hex.EncodeToString(sum))).
 * ParseKey reads a key back, which shows that the format is injective.
 */
module FileKey {
  import opened Wrappers
  import opened Entries

  // ---------------------------------------------------------------------
  // Decimal formatting of a non-negative count (fmt's %d)

  predicate IsDigit(c: char) {
    '0' <= c <= '9'
  }

  function DigitChar(d: nat): (c: char)
    requires d < 10
    ensures IsDigit(c)
  {
    ('0' as int + d) as char
  }

  function DigitValue(c: char): (d: nat)
    requires IsDigit(c)
    ensures d < 10
  {
    c as int - '0' as int
  }

  /** %d of n: most significant digit first, no sign, no leading zero. */
  function Decimal(n: nat): (s: string)
    ensures |s| > 0
    ensures forall i :: 0 <= i < |s| ==> IsDigit(s[i])
    ensures |s| > 1 ==> s[0] != '0'
  {
    if n < 10 then [DigitChar(n)] else Decimal(n / 10) + [DigitChar(n % 10)]
  }

  function DigitsValue(s: string): nat
    requires forall i :: 0 <= i < |s| ==> IsDigit(s[i])
  {
    if |s| == 0 then 0 else DigitsValue(s[..|s| - 1]) * 10 + DigitValue(s[|s| - 1])
  }

  /** Reads a non-empty run of decimal digits with no leading zero. */
  function ParseDecimal(s: string): Option<nat> {
    if |s| > 0 && (forall i :: 0 <= i < |s| ==> IsDigit(s[i])) && (|s| > 1 ==> s[0] != '0')
    then Some(DigitsValue(s))
    else None
  }

  lemma {:induction false} DecimalRoundTrip(n: nat)
    ensures ParseDecimal(Decimal(n)) == Some(n)
  {
    if n >= 10 {
      DecimalRoundTrip(n / 10);
      var s := Decimal(n);
      assert s[..|s| - 1] == Decimal(n / 10);
      assert DigitValue(s[|s| - 1]) == n % 10;
      assert DigitsValue(s) == DigitsValue(Decimal(n / 10)) * 10 + n % 10;
    }
  }

  /** Decimal renderings are the only strings ParseDecimal accepts. */
  lemma {:induction false} DecimalCanonical(s: string, n: nat)
    requires ParseDecimal(s) == Some(n)
    ensures s == Decimal(n)
  {
    if |s| > 1 {
      var p := s[..|s| - 1];
      assert p[0] == s[0];
      assert forall i :: 0 <= i < |p| ==> p[i] == s[i];
      var m := DigitsValue(p);
      DecimalCanonical(p, m);
      assert m != 0;
      assert n == m * 10 + DigitValue(s[|s| - 1]);
      assert n / 10 == m && n % 10 == DigitValue(s[|s| - 1]);
      assert s == p + [s[|s| - 1]];
    }
  }

  // ---------------------------------------------------------------------
  // Hex encoding of bytes (encoding/hex, lower case)

  predicate IsHexChar(c: char) {
    '0' <= c <= '9' || 'a' <= c <= 'f'
  }

  function HexChar(v: nat): (c: char)
    requires v < 16
    ensures IsHexChar(c)
  {
    if v < 10 then ('0' as int + v) as char else ('a' as int + (v - 10)) as char
  }

  function HexValue(c: char): (v: nat)
    requires IsHexChar(c)
    ensures v < 16
  {
    if c <= '9' then c as int - '0' as int else c as int - 'a' as int + 10
  }

  /** Two characters per byte, high nibble first. */
  function HexEncode(bs: seq<byte>): (s: string)
    ensures |s| == 2 * |bs|
    ensures forall i :: 0 <= i < |s| ==> IsHexChar(s[i])
  {
    if |bs| == 0 then []
    else [HexChar(bs[0] as int / 16), HexChar(bs[0] as int % 16)] + HexEncode(bs[1..])
  }

  /** The inverse of HexEncode: None for odd length or a non-hex character. */
  function HexDecode(s: string): Option<seq<byte>> {
    if |s| == 0 then Some([])
    else if |s| == 1 || !IsHexChar(s[0]) || !IsHexChar(s[1]) then None
    else match HexDecode(s[2..])
      case None => None
      case Some(rest) => Some([(HexValue(s[0]) * 16 + HexValue(s[1])) as byte] + rest)
  }

  lemma {:induction false} HexRoundTrip(bs: seq<byte>)
    ensures HexDecode(HexEncode(bs)) == Some(bs)
  {
    if |bs| > 0 {
      HexRoundTrip(bs[1..]);
      var s := HexEncode(bs);
      assert s[2..] == HexEncode(bs[1..]);
      assert bs == [bs[0]] + bs[1..];
    }
  }

  /** Lower-case hex renderings are the only strings HexDecode accepts. */
  lemma {:induction false} HexCanonical(s: string, bs: seq<byte>)
    requires HexDecode(s) == Some(bs)
    ensures HexEncode(bs) == s
  {
    if |s| > 0 {
      var rest := HexDecode(s[2..]).value;
      HexCanonical(s[2..], rest);
      var hi, lo := HexValue(s[0]), HexValue(s[1]);
      assert bs == [(hi * 16 + lo) as byte] + rest;
      assert bs[0] as int / 16 == hi && bs[0] as int % 16 == lo;
      assert HexChar(hi) == s[0] && HexChar(lo) == s[1];
      assert bs[1..] == rest;
      assert s == [s[0], s[1]] + s[2..];
    }
  }

  // ---------------------------------------------------------------------
  // The key

  /** fmt.Sprintf("%d-%s", n, hex.EncodeToString(digest)). */
  function Key(n: nat, digest: Digest): (k: string)
    ensures |k| == |Decimal(n)| + 33 && k[|k| - 33] == '-'
  {
    Decimal(n) + "-" + HexEncode(digest)
  }

  /**
   * Reads a key back. The hex part of a key is always 32 characters, so the
   * key is split 33 characters from its end.
   */
  function ParseKey(k: string): Option<(nat, Digest)> {
    if |k| < 34 || k[|k| - 33] != '-' then None
    else match (ParseDecimal(k[..|k| - 33]), HexDecode(k[|k| - 32..]))
      case (Some(n), Some(d)) => if |d| == 16 then Some((n, d)) else None
      case _ => None
  }

  lemma KeyRoundTrip(n: nat, digest: Digest)
    ensures ParseKey(Key(n, digest)) == Some((n, digest))
  {
    var k := Key(n, digest);
    assert k[..|k| - 33] == Decimal(n);
    assert k[|k| - 32..] == HexEncode(digest);
    DecimalRoundTrip(n);
    HexRoundTrip(digest);
  }

  /** Two keys are equal exactly when both their byte counts and their digests are. */
  lemma KeyInjective(n1: nat, d1: Digest, n2: nat, d2: Digest)
    ensures Key(n1, d1) == Key(n2, d2) <==> n1 == n2 && d1 == d2
  {
    KeyRoundTrip(n1, d1);
    KeyRoundTrip(n2, d2);
  }

  /** ParseKey accepts only keys: a parsed string is the key of what it parses to. */
  lemma ParseKeyCanonical(k: string, n: nat, digest: Digest)
    requires ParseKey(k) == Some((n, digest))
    ensures k == Key(n, digest)
  {
    var dec, hex := k[..|k| - 33], k[|k| - 32..];
    DecimalCanonical(dec, n);
    HexCanonical(hex, digest);
    assert k == dec + "-" + hex;
  }

  // ---------------------------------------------------------------------
  // calculateHash

  datatype HashError = OpenError | ReadError

  /**
   * calculateHash(path, expectedSize): the key of the bytes actually read.
   * expectedSize, the size the listing reported, only decides whether a note
   * is logged; it never enters the key.
   */
  function CalculateHash(contents: Contents, expectedSize: int, md5: Md5): (r: Result<string, HashError>)
    ensures contents.OpenFailed? <==> r == Err(OpenError)
    ensures contents.ReadFailed? <==> r == Err(ReadError)
    ensures contents.Readable? <==> r.Ok?
    ensures r.Ok? ==> ParseKey(r.value) == Some((|contents.data|, md5(contents.data)))
  {
    match contents
    case OpenFailed => Err(OpenError)
    case ReadFailed => Err(ReadError)
    case Readable(data) =>
      KeyRoundTrip(|data|, md5(data));
      Ok(Key(|data|, md5(data)))
  }
}
