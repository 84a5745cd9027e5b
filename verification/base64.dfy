/** Base64 as RFC 4648 defines it: the standard alphabet with `=` padding
    (RFC 4648 section 4), the URL- and filename-safe alphabet (RFC 4648 section 5), and the
    browser's `atob`, which decodes the standard alphabet the forgiving way the
    WHATWG Infra Standard describes: ASCII whitespace is skipped, the padding
    may be left off, and the bits after the last whole byte are dropped. */
module Base64 {
  import opened Base

  newtype Byte = x: int | 0 <= x < 256

  /** One base64 digit's value: six bits. */
  type Sextet = x: nat | x < 64

  /** The standard alphabet (RFC 4648 section 4, Table 1). */
  function StandardDigit(v: Sextet): char {
    if v < 26 then ('A' as int + v) as char
    else if v < 52 then ('a' as int + (v - 26)) as char
    else if v < 62 then ('0' as int + (v - 52)) as char
    else if v == 62 then '+' else '/'
  }

  /** The URL- and filename-safe alphabet (RFC 4648 section 5, Table 2): `-` and `_` for 62 and 63. */
  function UrlSafeDigit(v: Sextet): char {
    if v == 62 then '-' else if v == 63 then '_' else StandardDigit(v)
  }

  predicate IsStandardDigit(c: char) {
    ('A' <= c <= 'Z') || ('a' <= c <= 'z') || ('0' <= c <= '9') || c == '+' || c == '/'
  }

  /** The value a standard digit stands for. */
  function DigitValue(c: char): (v: Sextet)
    requires IsStandardDigit(c)
    ensures StandardDigit(v) == c
  {
    if 'A' <= c <= 'Z' then c as int - 'A' as int
    else if 'a' <= c <= 'z' then c as int - 'a' as int + 26
    else if '0' <= c <= '9' then c as int - '0' as int + 52
    else if c == '+' then 62 else 63
  }

  /** Every sextet has a digit, and the digit reads back as that sextet. */
  lemma DigitRoundTrip(v: Sextet)
    ensures IsStandardDigit(StandardDigit(v)) && DigitValue(StandardDigit(v)) == v
  {
  }

  /** The sextets of a byte string, three bytes to four sextets; a final group
      of one or two bytes gives two or three sextets, the missing bits zero. */
  function Sextets(bs: seq<Byte>): (vs: seq<Sextet>)
    ensures |vs| == (4 * |bs| + 2) / 3
    decreases |bs|
  {
    if |bs| == 0 then []
    else if |bs| == 1 then
      var b0 := bs[0] as int;
      [b0 / 4, b0 % 4 * 16]
    else if |bs| == 2 then
      var b0, b1 := bs[0] as int, bs[1] as int;
      [b0 / 4, b0 % 4 * 16 + b1 / 16, b1 % 16 * 4]
    else
      var b0, b1, b2 := bs[0] as int, bs[1] as int, bs[2] as int;
      [b0 / 4, b0 % 4 * 16 + b1 / 16, b1 % 16 * 4 + b2 / 64, b2 % 64] + Sextets(bs[3..])
  }

  /** The bytes of a run of sextets, four sextets to three bytes; a final two or
      three sextets give one or two bytes and their leftover bits are dropped.
      A single sextet left over holds no whole byte. */
  function Octets(vs: seq<Sextet>): (bs: seq<Byte>)
    requires |vs| % 4 != 1
    ensures |bs| == 3 * |vs| / 4
    decreases |vs|
  {
    if |vs| == 0 then []
    else
      var v0, v1 := vs[0] as int, vs[1] as int;
      if |vs| == 2 then [(v0 * 4 + v1 / 16) as Byte]
      else
        var v2 := vs[2] as int;
        if |vs| == 3 then [(v0 * 4 + v1 / 16) as Byte, (v1 % 16 * 16 + v2 / 4) as Byte]
        else
          var v3 := vs[3] as int;
          [(v0 * 4 + v1 / 16) as Byte, (v1 % 16 * 16 + v2 / 4) as Byte, (v2 % 4 * 64 + v3) as Byte]
            + Octets(vs[4..])
  }

  /** Decoding undoes encoding at the level of bits. */
  lemma {:induction false} OctetsOfSextets(bs: seq<Byte>)
    ensures |Sextets(bs)| % 4 != 1 && Octets(Sextets(bs)) == bs
    decreases |bs|
  {
    if |bs| >= 3 {
      var vs := Sextets(bs);
      var rest := Sextets(bs[3..]);
      assert vs[4..] == rest;
      OctetsOfSextets(bs[3..]);
      assert bs == bs[..3] + bs[3..];
    }
  }

  /** The digits of a run of sextets, in the standard alphabet. */
  function StandardText(vs: seq<Sextet>): (s: string)
    ensures |s| == |vs| && forall i :: 0 <= i < |vs| ==> s[i] == StandardDigit(vs[i])
  {
    seq(|vs|, i requires 0 <= i < |vs| => StandardDigit(vs[i]))
  }

  /** The number of sextets `n` bytes give: four per whole group, then two or three. */
  lemma SextetCount(n: nat)
    ensures (4 * n + 2) / 3 == 4 * (n / 3) + (if n % 3 == 0 then 0 else if n % 3 == 1 then 2 else 3)
  {
    var q, r := n / 3, n % 3;
    assert 4 * n + 2 == 3 * (4 * q) + (4 * r + 2);
  }

  /** The `=` that complete the last four-digit group: two after a final single
      byte, one after a final pair. */
  function Padding(n: nat): (p: string)
    ensures |p| <= 2 && forall i :: 0 <= i < |p| ==> p[i] == '='
    ensures ((4 * n + 2) / 3 + |p|) % 4 == 0
  {
    SextetCount(n);
    if n % 3 == 1 then "==" else if n % 3 == 2 then "=" else ""
  }

  /** Base64 encoding with the standard alphabet and padding (RFC 4648 section 4). */
  function Encode(bs: seq<Byte>): (s: string)
    ensures |s| % 4 == 0
  {
    StandardText(Sextets(bs)) + Padding(|bs|)
  }

  /** The digits of a run of sextets, in the URL- and filename-safe alphabet. */
  function UrlText(vs: seq<Sextet>): (s: string)
    ensures |s| == |vs| && forall i :: 0 <= i < |vs| ==> s[i] == UrlSafeDigit(vs[i])
  {
    seq(|vs|, i requires 0 <= i < |vs| => UrlSafeDigit(vs[i]))
  }

  /** Base64 encoding with the URL-safe alphabet and the padding left off
      (RFC 4648 section 5, as its section 3.2 allows): the form a VAPID public key takes. */
  function EncodeUrl(bs: seq<Byte>): (s: string)
    ensures |s| == |Sextets(bs)| && forall i :: 0 <= i < |s| ==> s[i] == UrlSafeDigit(Sextets(bs)[i])
  {
    UrlText(Sextets(bs))
  }

  /** The ASCII whitespace `atob` skips: tab, line feed, form feed, carriage return, space. */
  predicate IsAsciiWhitespace(c: char) {
    c == '\t' || c == '\n' || c == '\U{000C}' || c == '\r' || c == ' '
  }

  /** A length that is a multiple of four loses one or two trailing `=`. */
  function WithoutPadding(s: string): (r: string)
    ensures r <= s && |s| - 2 <= |r|
    ensures |r| < |s| ==> |s| % 4 == 0 && forall i :: |r| <= i < |s| ==> s[i] == '='
  {
    if |s| % 4 == 0 && |s| >= 2 && s[|s| - 1] == '=' && s[|s| - 2] == '=' then s[..|s| - 2]
    else if |s| % 4 == 0 && |s| >= 1 && s[|s| - 1] == '=' then s[..|s| - 1]
    else s
  }

  predicate AllDigits(t: string) {
    forall i :: 0 <= i < |t| ==> IsStandardDigit(t[i])
  }

  /** The values of a run of standard digits. */
  function Values(t: string): (vs: seq<Sextet>)
    requires AllDigits(t)
    ensures |vs| == |t| && forall i :: 0 <= i < |t| ==> vs[i] == DigitValue(t[i])
  {
    seq(|t|, i requires 0 <= i < |t| => DigitValue(t[i]))
  }

  /** Bytes as a binary string: one character per byte, with the byte as its code. */
  function Latin1(bs: seq<Byte>): (s: string)
    ensures |s| == |bs| && forall i :: 0 <= i < |bs| ==> s[i] as int == bs[i] as int
  {
    seq(|bs|, i requires 0 <= i < |bs| => (bs[i] as int) as char)
  }

  /** `atob`: the decoded binary string, or `None` where it throws. */
  function Atob(s: string): (r: Option<string>)
    ensures r.Some? ==> forall i :: 0 <= i < |r.value| ==> (r.value[i] as int) < 256
  {
    var t := WithoutPadding(Filter(s, c => !IsAsciiWhitespace(c)));
    if |t| % 4 == 1 || !AllDigits(t) then None
    else Some(Latin1(Octets(Values(t))))
  }

  /** Text that holds no whitespace passes the whitespace filter unchanged. */
  lemma {:induction false} NoWhitespaceKept(s: string)
    requires forall i :: 0 <= i < |s| ==> !IsAsciiWhitespace(s[i])
    ensures Filter(s, c => !IsAsciiWhitespace(c)) == s
  {
    if s != [] {
      NoWhitespaceKept(s[1..]);
    }
  }

  /** Standard digits read back as the sextets they were written from. */
  lemma ValuesOfText(vs: seq<Sextet>)
    ensures AllDigits(StandardText(vs)) && Values(StandardText(vs)) == vs
  {
    var t := StandardText(vs);
    forall i | 0 <= i < |t| ensures IsStandardDigit(t[i]) && DigitValue(t[i]) == vs[i] {
      DigitRoundTrip(vs[i]);
    }
  }

  /** The encoding holds no whitespace. */
  lemma EncodeHasNoWhitespace(bs: seq<Byte>)
    ensures Filter(Encode(bs), c => !IsAsciiWhitespace(c)) == Encode(bs)
  {
    var vs := Sextets(bs);
    var e := Encode(bs);
    assert e == StandardText(vs) + Padding(|bs|);
    forall i | 0 <= i < |e| ensures !IsAsciiWhitespace(e[i]) {
      if i < |vs| {
        DigitRoundTrip(vs[i]);
      }
    }
    NoWhitespaceKept(e);
  }

  /** `atob`'s padding rule strips exactly the encoding's padding. */
  lemma EncodeUnpadded(bs: seq<Byte>)
    ensures WithoutPadding(Encode(bs)) == StandardText(Sextets(bs))
  {
    var vs := Sextets(bs);
    var e := Encode(bs);
    var body := StandardText(vs);
    assert e == body + Padding(|bs|);
    if |bs| % 3 == 1 {
      assert e[..|e| - 2] == body;
    } else if |bs| % 3 == 2 {
      assert e[..|e| - 1] == body;
    } else if |vs| > 0 {
      DigitRoundTrip(vs[|vs| - 1]);
      assert e[|e| - 1] != '=';
    }
  }

  /** `atob` decodes what RFC 4648 section 4 encodes. */
  lemma AtobDecodesEncode(bs: seq<Byte>)
    ensures Atob(Encode(bs)) == Some(Latin1(bs))
  {
    EncodeHasNoWhitespace(bs);
    EncodeUnpadded(bs);
    ValuesOfText(Sextets(bs));
    OctetsOfSextets(bs);
  }
}
