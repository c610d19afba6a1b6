/** IPv4 addresses as dotted quads: what inet_ntop prints and inet_pton reads. */
module IpText {
  import opened Base
  import opened Decimal

  const DOT: byte := '.' as int

  /** The four bytes of an address in network order. */
  type Ip4 = a: bytes | |a| == 4 witness [0, 0, 0, 0]

  function DottedQuad(a: Ip4): bytes {
    Digits(a[0]) + ([DOT] + (Digits(a[1]) + ([DOT] + (Digits(a[2]) + ([DOT] + Digits(a[3]))))))
  }

  /** inet_pton at `s`, with the octets finished so far and the one in progress, -1 if none has
      been started. Leading zeros and values above 255 are refused. */
  function ParseQuad(s: bytes, done: bytes, octet: int): Option<bytes> {
    if s == [] || s[0] == 0 then
      if |done| == 3 && 0 <= octet < 256 then Some(done + [octet]) else None
    else if IsDigit(s[0]) then
      var value := (if octet < 0 then 0 else octet) * 10 + (s[0] - '0' as int);
      if octet == 0 || value > 255 || |done| >= 4 then None
      else ParseQuad(s[1..], done, value)
    else if s[0] == DOT && 0 <= octet < 256 && |done| < 3 then
      ParseQuad(s[1..], done + [octet], -1)
    else None
  }

  function ParseIp4(s: bytes): (r: Option<bytes>)
    ensures r.Some? ==> |r.value| == 4
  {
    var q := ParseQuad(s, [], -1);
    if q.Some? && |q.value| == 4 then q else None
  }

  lemma ReadDigit(d: nat, x: bytes, done: bytes, octet: int)
    requires d < 10 && octet != 0 && |done| <= 3
    requires (if octet < 0 then 0 else octet) * 10 + d <= 255
    ensures ParseQuad(['0' as int + d] + x, done, octet)
         == ParseQuad(x, done, (if octet < 0 then 0 else octet) * 10 + d)
  {
    assert (['0' as int + d] + x)[1..] == x;
  }

  lemma {:induction false} ReadOctet(v: byte, x: bytes, done: bytes)
    requires |done| <= 3
    ensures ParseQuad(Digits(v) + x, done, -1) == ParseQuad(x, done, v)
  {
    if v < 10 {
      ReadDigit(v, x, done, -1);
    } else {
      var last: bytes := ['0' as int + v % 10];
      Assoc(Digits(v / 10), last, x);
      ReadOctet(v / 10, last + x, done);
      ReadDigit(v % 10, x, done, v / 10);
    }
  }

  lemma ReadDot(x: bytes, done: bytes, octet: byte)
    requires |done| < 3
    ensures ParseQuad([DOT] + x, done, octet) == ParseQuad(x, done + [octet], -1)
  {
    assert ([DOT] + x)[1..] == x;
  }

  /** An octet and the dot behind it. */
  lemma ReadPart(v: byte, x: bytes, done: bytes)
    requires |done| < 3
    ensures ParseQuad(Digits(v) + ([DOT] + x), done, -1) == ParseQuad(x, done + [v], -1)
  {
    ReadOctet(v, [DOT] + x, done);
    ReadDot(x, done, v);
  }

  lemma ReadLast(v: byte, done: bytes)
    requires |done| == 3
    ensures ParseQuad(Digits(v), done, -1) == Some(done + [v])
  {
    ReadOctet(v, [], done);
    assert Digits(v) + [] == Digits(v);
  }

  /** Every address printed is read back. */
  lemma Ip4RoundTrip(a: Ip4)
    ensures ParseIp4(DottedQuad(a)) == Some(a)
  {
    var t3 := Digits(a[3]);
    var t2 := Digits(a[2]) + ([DOT] + t3);
    var t1 := Digits(a[1]) + ([DOT] + t2);
    ReadPart(a[0], t1, []);
    ReadPart(a[1], t2, [] + [a[0]]);
    ReadPart(a[2], t3, [] + [a[0]] + [a[1]]);
    ReadLast(a[3], [] + [a[0]] + [a[1]] + [a[2]]);
    assert [] + [a[0]] + [a[1]] + [a[2]] + [a[3]] == a;
  }

  lemma DottedQuadNulFree(a: Ip4)
    ensures CStr(DottedQuad(a)) == DottedQuad(a)
  {
    CStrOfNulFree(DottedQuad(a));
  }
}
