/**
  The byte stream of a migration: big-endian numbers, counted strings and raw buffers, written by
  appending and read from the front (qemu_put_be64, qemu_get_be64 and their kin).
 */
module Wire {
  import opened Bits

  // ---------- writing ----------

  /** The `n` low bytes of `v`, most significant first. */
  function BigEndian(n: nat, v: nat): (b: seq<u8>)
    ensures |b| == n
  {
    if n == 0 then [] else BigEndian(n - 1, v / 256) + [v % 256]
  }

  /** qemu_put_be64 */
  function Be64(v: u64): (b: seq<u8>)
    ensures |b| == 8
  {
    BigEndian(8, v)
  }

  /** A length byte and that many bytes. */
  function Counted(id: seq<u8>): seq<u8>
    requires |id| < 256
  {
    [|id|] + id
  }

  // ---------- reading ----------

  /** What reading from the front gives: a value and the rest of the stream, or the end of it. */
  datatype Read<+T> = Got(value: T, rest: seq<u8>) | Short

  /** qemu_get_buffer */
  function Take(s: seq<u8>, n: nat): Read<seq<u8>>
  {
    if n <= |s| then Got(s[..n], s[n..]) else Short
  }

  function FromBigEndian(b: seq<u8>): nat
  {
    if b == [] then 0 else FromBigEndian(b[..|b| - 1]) * 256 + b[|b| - 1]
  }

  function Power256(n: nat): nat
  {
    if n == 0 then 1 else 256 * Power256(n - 1)
  }

  lemma {:induction false} FromBigEndianFits(b: seq<u8>)
    ensures FromBigEndian(b) < Power256(|b|)
  {
    if b == [] {
    } else {
      FromBigEndianFits(b[..|b| - 1]);
    }
  }

  /** qemu_get_byte */
  function TakeByte(s: seq<u8>): Read<u8>
  {
    if s == [] then Short else Got(s[0], s[1..])
  }

  /** qemu_get_be64 */
  function TakeBe64(s: seq<u8>): Read<u64>
  {
    if |s| < 8 then Short
    else
      FromBigEndianFits(s[..8]);
      assert Power256(8) == TWO64;
      Got(FromBigEndian(s[..8]), s[8..])
  }

  function TakeCounted(s: seq<u8>): Read<seq<u8>>
  {
    match TakeByte(s)
    case Short => Short
    case Got(n, rest) => Take(rest, n)
  }

  // ---------- what is written is what is read ----------

  lemma {:induction false} BigEndianRoundTrip(n: nat, v: nat)
    requires v < Power256(n)
    ensures FromBigEndian(BigEndian(n, v)) == v
    decreases n
  {
    if n == 0 {
    } else {
      BigEndianRoundTrip(n - 1, v / 256);
      var b := BigEndian(n, v);
      assert b[..|b| - 1] == BigEndian(n - 1, v / 256);
    }
  }

  lemma Be64RoundTrip(v: u64, rest: seq<u8>)
    ensures TakeBe64(Be64(v) + rest) == Got(v, rest)
  {
    assert Power256(8) == TWO64;
    BigEndianRoundTrip(8, v);
    assert (Be64(v) + rest)[..8] == Be64(v) && (Be64(v) + rest)[8..] == rest;
  }

  lemma TakeWritten(b: seq<u8>, rest: seq<u8>)
    ensures Take(b + rest, |b|) == Got(b, rest)
  {
  }

  lemma CountedRoundTrip(id: seq<u8>, rest: seq<u8>)
    requires |id| < 256
    ensures TakeCounted(Counted(id) + rest) == Got(id, rest)
  {
    assert (Counted(id) + rest)[1..] == id + rest;
    TakeWritten(id, rest);
  }

  // ---------- reading does not look past what it consumes ----------

  lemma TakeExtends(s: seq<u8>, n: nat, more: seq<u8>)
    requires Take(s, n).Got?
    ensures Take(s + more, n) == Got(Take(s, n).value, Take(s, n).rest + more)
  {
    assert (s + more)[..n] == s[..n] && (s + more)[n..] == s[n..] + more;
  }

  lemma TakeByteExtends(s: seq<u8>, more: seq<u8>)
    requires TakeByte(s).Got?
    ensures TakeByte(s + more) == Got(TakeByte(s).value, TakeByte(s).rest + more)
  {
  }

  lemma TakeBe64Extends(s: seq<u8>, more: seq<u8>)
    requires TakeBe64(s).Got?
    ensures TakeBe64(s + more) == Got(TakeBe64(s).value, TakeBe64(s).rest + more)
  {
    assert (s + more)[..8] == s[..8];
  }

  lemma TakeCountedExtends(s: seq<u8>, more: seq<u8>)
    requires TakeCounted(s).Got?
    ensures TakeCounted(s + more) == Got(TakeCounted(s).value, TakeCounted(s).rest + more)
  {
    TakeByteExtends(s, more);
    TakeExtends(TakeByte(s).rest, TakeByte(s).value, more);
  }

  // ---------- what is appended piece by piece ----------

  lemma Associative(a: seq<u8>, b: seq<u8>, c: seq<u8>)
    ensures a + (b + c) == a + b + c
  {
  }

  lemma Regroup(a: seq<u8>, b: seq<u8>, c: seq<u8>, d: seq<u8>)
    ensures a + b + c + d == a + (b + (c + d))
  {
  }

  lemma RegroupFive(a: seq<u8>, b: seq<u8>, c: seq<u8>, d: seq<u8>, e: seq<u8>)
    ensures a + b + c + d + e == a + (b + c + d + e)
  {
  }
}
