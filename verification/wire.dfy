/** Big-endian words and the Internet checksum of src/net/json_packet.cc. */
module Wire {
  import opened Base

  type uint16 = x: int | 0 <= x < 0x1_0000
  type uint32 = x: int | 0 <= x < 0x1_0000_0000

  /** DerefU16BE */
  function U16(b: bytes, i: nat): uint16
    requires i + 2 <= |b|
  {
    256 * (b[i] as int) + b[i + 1]
  }

  /** DerefU32BE */
  function U32(b: bytes, i: nat): uint32
    requires i + 4 <= |b|
  {
    U16(b, i) * 0x1_0000 + U16(b, i + 2)
  }

  function Put16(v: uint16): bytes {
    [v / 256, v % 256]
  }

  function Put32(v: uint32): bytes {
    Put16(v / 0x1_0000) + Put16(v % 0x1_0000)
  }

  /** Overwrites the 16-bit field at `i`. */
  function Patch16(b: bytes, i: nat, v: uint16): bytes
    requires i + 2 <= |b|
  {
    b[i := v / 256][i + 1 := v % 256]
  }

  // ---------- checksum ----------

  const WORD := 0x1_0000
  const UINT32_SIZE := 0x1_0000_0000

  /** The sum of the 16-bit words of `d`; an odd last byte is padded with a zero. */
  function WordSum(d: bytes): nat
  {
    if d == [] then 0
    else if |d| == 1 then 256 * (d[0] as int)
    else U16(d, 0) + WordSum(d[2..])
  }

  /** One fold of the carries, complemented. */
  function Fold(s: nat): nat {
    s % WORD + s / WORD
  }

  function ChecksumOf(s: nat): uint16 {
    0xffff - Fold(s) % WORD
  }

  /** ComputeIpChecksum over `pseudo` and then `data`, in 32-bit arithmetic. */
  function Checksum(pseudo: bytes, data: bytes): uint16 {
    ChecksumOf((WordSum(pseudo) + WordSum(data)) % UINT32_SIZE)
  }

  /** Add: accumulates in an unsigned 32-bit variable. */
  method Add(data: bytes, start: uint32) returns (result: uint32)
    ensures result == (start + WordSum(data)) % UINT32_SIZE
  {
    result := start;
    var p := 0;
    assert data[0..] == data;
    while p + 1 < |data|
      invariant p <= |data|
      invariant (result + WordSum(data[p..])) % UINT32_SIZE == (start + WordSum(data)) % UINT32_SIZE
    {
      WordSumFrom(data, p);
      AddStep(result, U16(data, p), WordSum(data[p + 2..]));
      result := (result + U16(data, p)) % UINT32_SIZE;
      p := p + 2;
    }
    if p < |data| {
      assert data[p..] == [data[p]];
      result := (result + 256 * (data[p] as int)) % UINT32_SIZE;
    }
  }

  lemma AddStep(result: nat, word: nat, rest: nat)
    ensures ((result + word) % UINT32_SIZE + rest) % UINT32_SIZE == (result + (word + rest)) % UINT32_SIZE
  {
    ModAdd(result + word, rest);
  }

  lemma WordSumFrom(data: bytes, p: nat)
    requires p + 2 <= |data|
    ensures WordSum(data[p..]) == U16(data, p) + WordSum(data[p + 2..])
  {
    assert data[p..][2..] == data[p + 2..];
  }

  lemma ModAdd(a: nat, b: nat)
    ensures (a % UINT32_SIZE + b) % UINT32_SIZE == (a + b) % UINT32_SIZE
  {
  }

  method ComputeIpChecksum(pseudo: bytes, data: bytes) returns (check: uint16)
    ensures check == Checksum(pseudo, data)
  {
    var result := Add(pseudo, 0);
    ModAdd(WordSum(pseudo), WordSum(data));
    result := Add(data, result);
    check := 0xffff - (result % WORD + result / WORD) % WORD;
  }

  /** Parts can be summed separately when the first one has even length. */
  lemma {:induction false} WordSumConcat(a: bytes, b: bytes)
    requires |a| % 2 == 0
    ensures WordSum(a + b) == WordSum(a) + WordSum(b)
  {
    if a == [] {
      assert a + b == b;
    } else {
      assert (a + b)[2..] == a[2..] + b;
      assert U16(a + b, 0) == U16(a, 0);
      WordSumConcat(a[2..], b);
    }
  }

  lemma {:induction false} WordSumBound(d: bytes)
    ensures 2 * WordSum(d) <= 0xffff * (|d| + 1)
  {
    if |d| > 1 {
      WordSumBound(d[2..]);
    }
  }

  /** Storing a word where there was zero adds the word to the sum. */
  lemma {:induction false} WordSumPatch(d: bytes, i: nat, v: uint16)
    requires i + 2 <= |d| && i % 2 == 0 && d[i] == 0 && d[i + 1] == 0
    ensures WordSum(Patch16(d, i, v)) == WordSum(d) + v
  {
    if i == 0 {
      assert Patch16(d, 0, v)[2..] == d[2..];
    } else {
      assert Patch16(d, i, v)[2..] == Patch16(d[2..], i - 2, v);
      assert U16(Patch16(d, i, v), 0) == U16(d, 0);
      WordSumPatch(d[2..], i - 2, v);
    }
  }

  lemma ChecksumResidue(s: nat)
    requires s < UINT32_SIZE
    ensures (s + ChecksumOf(s)) % 0xffff == if Fold(s) < WORD then 0 else 1
  {
    var q, f := s / WORD, Fold(s);
    assert s == q * 0xffff + f;
    if f < WORD {
      assert s + ChecksumOf(s) == (q + 1) * 0xffff;
      MultipleOfFfff(q + 1, 0);
    } else {
      assert f < 2 * WORD;
      assert s + ChecksumOf(s) == (q + 2) * 0xffff + 1;
      MultipleOfFfff(q + 2, 1);
    }
  }

  lemma MultipleOfFfff(k: nat, r: nat)
    requires r < 0xffff
    ensures (k * 0xffff + r) % 0xffff == r
  {
  }

  lemma SmallMod(s: nat)
    requires s < UINT32_SIZE
    ensures s % UINT32_SIZE == s
  {
  }

  /** 32 bits are enough for any packet that IPv4 can carry. */
  lemma ChecksumDoesNotWrap(pseudo: bytes, data: bytes)
    requires |pseudo| <= 12 && |data| <= 0xffff
    ensures WordSum(pseudo) + WordSum(data) < UINT32_SIZE
    ensures Checksum(pseudo, data) == ChecksumOf(WordSum(pseudo) + WordSum(data))
  {
    WordSumBound(pseudo);
    WordSumBound(data);
    var s := WordSum(pseudo) + WordSum(data);
    assert s < UINT32_SIZE;
    SmallMod(s);
  }

  /** What a receiver computes: the sum of all words, with carries folded until none is left, is
      0 or 65535 exactly if this is 0. */
  function Residue(pseudo: bytes, data: bytes): nat {
    (WordSum(pseudo) + WordSum(data)) % 0xffff
  }

  /** Storing a check adds it to the sum. */
  lemma StoredSum(pseudo: bytes, data: bytes, i: nat, c: uint16)
    requires i + 2 <= |data| && i % 2 == 0 && data[i] == 0 && data[i + 1] == 0
    ensures WordSum(pseudo) + WordSum(Patch16(data, i, c)) == WordSum(pseudo) + WordSum(data) + c
  {
    WordSumPatch(data, i, c);
  }

  lemma CheckedResidue(s: nat, c: uint16, total: nat)
    requires s < UINT32_SIZE && c == ChecksumOf(s) && total == s + c
    ensures total % 0xffff == if Fold(s) < WORD then 0 else 1
  {
    ChecksumResidue(s);
  }

  lemma StoredCheck(pseudo: bytes, data: bytes, i: nat, c: uint16)
    requires i + 2 <= |data| && i % 2 == 0 && data[i] == 0 && data[i + 1] == 0
    requires WordSum(pseudo) + WordSum(data) < UINT32_SIZE && c == ChecksumOf(WordSum(pseudo) + WordSum(data))
    ensures Residue(pseudo, Patch16(data, i, c)) == if Fold(WordSum(pseudo) + WordSum(data)) < WORD then 0 else 1
  {
    StoredSum(pseudo, data, i, c);
    CheckedResidue(WordSum(pseudo) + WordSum(data), c, WordSum(pseudo) + WordSum(Patch16(data, i, c)));
  }

  /** Checksum characterisation. With the computed check stored at `i`, the words of the packet
      (and its pseudo header) sum to a multiple of 65535 exactly when the single fold leaves no
      carry; otherwise the sum is one too high. */
  lemma ChecksumVerifies(pseudo: bytes, data: bytes, i: nat)
    requires |pseudo| <= 12 && |data| <= 0xffff
    requires i + 2 <= |data| && i % 2 == 0 && data[i] == 0 && data[i + 1] == 0
    ensures Residue(pseudo, Patch16(data, i, Checksum(pseudo, data)))
         == if Fold(WordSum(pseudo) + WordSum(data)) < WORD then 0 else 1
  {
    ChecksumDoesNotWrap(pseudo, data);
    StoredCheck(pseudo, data, i, Checksum(pseudo, data));
  }
}
