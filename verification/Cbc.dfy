/**
  Cipher block chaining as AES_cbc_encrypt does it, with its treatment of a partial last block
  (section 6.2 of NIST SP 800-38A for whole blocks).
 */
module Cbc {
  import opened Bits
  import opened AesField
  import opened AesCipher
  import opened RoundCipher
  import opened Aes

  /** Output bytes and the chaining value left in `ivec`. */
  datatype Chained = Chained(bytes: seq<u8>, iv: Block)

  /** The first `n` bytes xored with the chaining value; the rest of the block is the chaining value. */
  function Masked(p: seq<u8>, iv: Block): (r: Block)
    requires |p| <= 16
  {
    seq(16, n requires 0 <= n < 16 => if n < |p| then Add(p[n], iv[n]) else iv[n])
  }

  /** The length in whole blocks. */
  function Padded(length: nat): nat
  {
    (length + 15) / 16 * 16
  }

  /** What encryption writes, and the final chaining value. */
  function Encrypted(e: Block -> Block, iv: Block, p: seq<u8>): (r: Chained)
    ensures |r.bytes| == Padded(|p|)
    decreases |p|
  {
    if |p| >= 16 then
      var c := e(Masked(p[..16], iv));
      var rest := Encrypted(e, c, p[16..]);
      Chained(c + rest.bytes, rest.iv)
    else if |p| > 0 then
      var c := e(Masked(p, iv));
      Chained(c, c)
    else Chained([], iv)
  }

  /** What decryption of the first `length` bytes writes, and the final chaining value. */
  function Decrypted(d: Block -> Block, iv: Block, c: seq<u8>, length: nat): (r: Chained)
    requires Padded(length) <= |c|
    ensures |r.bytes| == length
    decreases length
  {
    if length >= 16 then
      var rest := Decrypted(d, c[..16], c[16..], length - 16);
      Chained(Masked(d(c[..16]), iv) + rest.bytes, rest.iv)
    else if length > 0 then
      var b := d(c[..16]);
      Chained(Masked(b, iv)[..length], b)
    else Chained([], iv)
  }

  // ---------- properties ----------

  ghost predicate Inverse(e: Block -> Block, d: Block -> Block)
  {
    forall b: Block :: d(e(b)) == b
  }

  lemma UnmaskMask(p: seq<u8>, iv: Block)
    requires |p| <= 16
    ensures Masked(Masked(p, iv), iv)[..|p|] == p
  {
    forall n | 0 <= n < |p| ensures Masked(Masked(p, iv), iv)[n] == p[n] {
      AddLaws(p[n], iv[n], iv[n]);
      AddLaws(iv[n], iv[n], iv[n]);
    }
  }

  /** One whole block of encryption. */
  lemma EncryptStep(e: Block -> Block, iv: Block, p: seq<u8>, c: Block, rest: Chained)
    requires |p| >= 16 && c == e(Masked(p[..16], iv)) && rest == Encrypted(e, c, p[16..])
    ensures Encrypted(e, iv, p) == Chained(c + rest.bytes, rest.iv)
  {
  }

  /** One whole block of decryption. */
  lemma DecryptStep(d: Block -> Block, iv: Block, c: Block, more: seq<u8>, n: nat, rest: Chained)
    requires n >= 16 && Padded(n - 16) <= |more| && rest == Decrypted(d, c, more, n - 16)
    ensures Decrypted(d, iv, c + more, n) == Chained(Masked(d(c), iv) + rest.bytes, rest.iv)
  {
    assert (c + more)[..16] == c && (c + more)[16..] == more;
  }

  lemma ShortRoundTrip(e: Block -> Block, d: Block -> Block, iv: Block, p: seq<u8>)
    requires Inverse(e, d) && |p| < 16
    ensures Decrypted(d, iv, Encrypted(e, iv, p).bytes, |p|).bytes == p
  {
    if |p| > 0 {
      var m := Masked(p, iv);
      assert Encrypted(e, iv, p).bytes[..16] == e(m);
      UnmaskMask(p, iv);
    }
  }

  /** For every length, decryption gives back the bytes that were encrypted. */
  lemma {:induction false} DecryptionUndoesEncryption(e: Block -> Block, d: Block -> Block, iv: Block, p: seq<u8>)
    requires Inverse(e, d)
    ensures Decrypted(d, iv, Encrypted(e, iv, p).bytes, |p|).bytes == p
    decreases |p|
  {
    if |p| >= 16 {
      var m := Masked(p[..16], iv);
      var c := e(m);
      var rest := Encrypted(e, c, p[16..]);
      DecryptionUndoesEncryption(e, d, c, p[16..]);
      EncryptStep(e, iv, p, c, rest);
      DecryptStep(d, iv, c, rest.bytes, |p|, Decrypted(d, c, rest.bytes, |p| - 16));
      UnmaskMask(p[..16], iv);
    } else {
      ShortRoundTrip(e, d, iv, p);
    }
  }

  lemma ShortFinalValue(e: Block -> Block, d: Block -> Block, iv: Block, p: seq<u8>, r: Chained)
    requires |p| < 16 && r == Encrypted(e, iv, p)
    ensures Decrypted(d, iv, r.bytes, |p|).iv == if |p| == 0 then r.iv else d(r.iv)
  {
    if |p| > 0 {
      assert r.bytes[..16] == r.iv;
    }
  }

  lemma EncryptNothing(e: Block -> Block, iv: Block, q: seq<u8>)
    ensures Encrypted(e, iv, []) == Chained([], iv) && [] + q == q
  {
  }

  /** After decryption `ivec` holds the last ciphertext block, as after encryption, when the length
      is in whole blocks (`n == 0`); after a partial block it holds that block decrypted. */
  lemma {:induction false} FinalChainingValue(e: Block -> Block, d: Block -> Block, iv: Block, p: seq<u8>, q: nat,
                                              n: nat, r: Chained)
    requires |p| == 16 * q + n && n < 16 && r == Encrypted(e, iv, p)
    ensures Decrypted(d, iv, r.bytes, |p|).iv == if n == 0 then r.iv else d(r.iv)
    decreases q
  {
    if q > 0 {
      var c := e(Masked(p[..16], iv));
      var rest := Encrypted(e, c, p[16..]);
      EncryptStep(e, iv, p, c, rest);
      DecryptStep(d, iv, c, rest.bytes, |p|, Decrypted(d, c, rest.bytes, |p| - 16));
      FinalChainingValue(e, d, c, p[16..], q - 1, n, rest);
    } else {
      ShortFinalValue(e, d, iv, p, r);
    }
  }

  lemma ThreadStep(e: Block -> Block, iv: Block, p: seq<u8>, q: seq<u8>, c: Block, bytes: seq<u8>, second: Chained)
    requires |p| >= 16 && c == e(Masked(p[..16], iv))
    requires Encrypted(e, c, p[16..] + q) == Chained(bytes + second.bytes, second.iv)
    ensures Encrypted(e, iv, p + q) == Chained(c + bytes + second.bytes, second.iv)
  {
    assert (p + q)[..16] == p[..16] && (p + q)[16..] == p[16..] + q;
    EncryptStep(e, iv, p + q, c, Chained(bytes + second.bytes, second.iv));
    assert c + (bytes + second.bytes) == c + bytes + second.bytes;
  }

  /** A message may be cut at any block boundary and encrypted in two calls. */
  lemma {:induction false} EncryptionThreads(e: Block -> Block, iv: Block, p: seq<u8>, q: seq<u8>, first: Chained,
                                             second: Chained)
    requires |p| % 16 == 0 && first == Encrypted(e, iv, p) && second == Encrypted(e, first.iv, q)
    ensures Encrypted(e, iv, p + q) == Chained(first.bytes + second.bytes, second.iv)
    decreases |p|
  {
    if p == [] {
      EncryptNothing(e, iv, q);
    } else {
      var c := e(Masked(p[..16], iv));
      var rest := Encrypted(e, c, p[16..]);
      EncryptStep(e, iv, p, c, rest);
      EncryptionThreads(e, c, p[16..], q, rest, second);
      ThreadStep(e, iv, p, q, c, rest.bytes, second);
    }
  }

  lemma {:induction false} DecryptionThreads(d: Block -> Block, iv: Block, c: seq<u8>, n: nat, c': seq<u8>, n': nat)
    requires |c| == n && n % 16 == 0 && Padded(n') <= |c'|
    ensures var first := Decrypted(d, iv, c, n); var second := Decrypted(d, first.iv, c', n');
      Decrypted(d, iv, c + c', n + n') == Chained(first.bytes + second.bytes, second.iv)
    decreases n
  {
    if n == 0 {
      assert c + c' == c';
    } else {
      assert (c + c')[..16] == c[..16] && (c + c')[16..] == c[16..] + c';
      DecryptionThreads(d, c[..16], c[16..], n - 16, c', n');
      var m := Masked(d(c[..16]), iv);
      var first := Decrypted(d, c[..16], c[16..], n - 16);
      var second := Decrypted(d, first.iv, c', n');
      assert m + (first.bytes + second.bytes) == m + first.bytes + second.bytes;
    }
  }

  function Joined(parts: seq<seq<u8>>): seq<u8>
  {
    if parts == [] then [] else parts[0] + Joined(parts[1..])
  }

  /** A sequence of calls that pass `ivec` on. */
  function EncryptedParts(e: Block -> Block, iv: Block, parts: seq<seq<u8>>): Chained
    decreases |parts|
  {
    if parts == [] then Chained([], iv)
    else
      var first := Encrypted(e, iv, parts[0]);
      var rest := EncryptedParts(e, first.iv, parts[1..]);
      Chained(first.bytes + rest.bytes, rest.iv)
  }

  /** Any sequence of calls on whole blocks gives what one call gives. */
  lemma {:induction false} AnyNumberOfCalls(e: Block -> Block, iv: Block, parts: seq<seq<u8>>)
    requires WholeBlocks(parts)
    ensures EncryptedParts(e, iv, parts) == Encrypted(e, iv, Joined(parts))
    decreases |parts|
  {
    if parts == [] {
    } else {
      var first := Encrypted(e, iv, parts[0]);
      AnyNumberOfCalls(e, first.iv, parts[1..]);
      EncryptionThreads(e, iv, parts[0], Joined(parts[1..]), first, Encrypted(e, first.iv, Joined(parts[1..])));
    }
  }

  predicate WholeBlocks(parts: seq<seq<u8>>)
  {
    forall i :: 0 <= i < |parts| ==> |parts[i]| % 16 == 0
  }

  lemma {:induction false} JoinedIsWhole(parts: seq<seq<u8>>)
    requires WholeBlocks(parts)
    ensures |Joined(parts)| % 16 == 0 && Padded(|Joined(parts)|) == |Joined(parts)|
  {
    if parts == [] {
    } else {
      JoinedIsWhole(parts[1..]);
      assert parts[0] == parts[0] && |parts[0]| % 16 == 0;
    }
  }

  /** A sequence of decrypting calls that pass `ivec` on. */
  function DecryptedParts(d: Block -> Block, iv: Block, parts: seq<seq<u8>>): Chained
    requires WholeBlocks(parts)
    decreases |parts|
  {
    if parts == [] then Chained([], iv)
    else
      var first := Decrypted(d, iv, parts[0], |parts[0]|);
      var rest := DecryptedParts(d, first.iv, parts[1..]);
      Chained(first.bytes + rest.bytes, rest.iv)
  }

  /** The same for decryption, the final chaining value included. */
  lemma {:induction false} AnyNumberOfDecryptions(d: Block -> Block, iv: Block, parts: seq<seq<u8>>)
    requires WholeBlocks(parts)
    ensures Padded(|Joined(parts)|) <= |Joined(parts)|
    ensures DecryptedParts(d, iv, parts) == Decrypted(d, iv, Joined(parts), |Joined(parts)|)
    decreases |parts|
  {
    JoinedIsWhole(parts);
    if parts == [] {
    } else {
      var first := Decrypted(d, iv, parts[0], |parts[0]|);
      AnyNumberOfDecryptions(d, first.iv, parts[1..]);
      DecryptionThreads(d, iv, parts[0], |parts[0]|, Joined(parts[1..]), |Joined(parts[1..])|);
    }
  }

  /** A message encrypted in any sequence of calls and decrypted in any other comes back. */
  lemma AnyCallsRoundTrip(e: Block -> Block, d: Block -> Block, iv: Block, parts: seq<seq<u8>>, cut: seq<seq<u8>>)
    requires Inverse(e, d) && WholeBlocks(parts) && WholeBlocks(cut)
    requires Joined(cut) == EncryptedParts(e, iv, parts).bytes
    ensures DecryptedParts(d, iv, cut).bytes == Joined(parts)
  {
    AnyNumberOfCalls(e, iv, parts);
    AnyNumberOfDecryptions(d, iv, cut);
    JoinedIsWhole(parts);
    DecryptionUndoesEncryption(e, d, iv, Joined(parts));
  }

  // ---------- AES_cbc_encrypt ----------

  /** The two loops that fill `tmp`: `len` bytes xored with `ivec`, the rest copied from it. */
  method MaskInto(tmp: array<u8>, inp: array<u8>, pos: nat, len: nat, ivec: array<u8>)
    requires tmp.Length == 16 == ivec.Length && len <= 16 && pos + len <= inp.Length && tmp != inp && tmp != ivec
    modifies tmp
    ensures tmp[..] == Masked(inp[pos..pos + len], ivec[..])
  {
    for n := 0 to len
      invariant forall i :: 0 <= i < n ==> tmp[i] == Add(inp[pos + i], ivec[i])
    {
      tmp[n] := Add(inp[pos + n], ivec[n]);
    }
    for n := len to 16
      invariant forall i :: 0 <= i < len ==> tmp[i] == Add(inp[pos + i], ivec[i])
      invariant forall i :: len <= i < n ==> tmp[i] == ivec[i]
    {
      tmp[n] := ivec[n];
    }
  }

  /** The first `len` bytes of a block, xored with the chaining value; the input may be the output. */
  method Unmask(out: array<u8>, o: nat, inp: array<u8>, i: nat, len: nat, ivec: array<u8>)
    requires ivec.Length == 16 && len <= 16 && o + len <= out.Length && i + 16 <= inp.Length && out != ivec
    requires out == inp ==> o == i
    modifies out
    ensures out[..] == Over(old(out[..]), o, Masked(old(inp[i..i + 16]), ivec[..])[..len])
  {
    ghost var b := inp[i..i + 16];
    for n := 0 to len
      invariant forall k :: 0 <= k < out.Length ==>
        out[k] == if o <= k < o + n then Add(b[k - o], ivec[k - o]) else old(out[k])
      invariant forall k :: n <= k < 16 ==> inp[i + k] == b[k]
    {
      out[o + n] := Add(inp[i + n], ivec[n]);
    }
  }

  method Copy16(dst: array<u8>, src: array<u8>, pos: nat)
    requires dst.Length == 16 && pos + 16 <= src.Length && dst != src
    modifies dst
    ensures dst[..] == src[pos..pos + 16]
  {
    for n := 0 to 16
      invariant forall i :: 0 <= i < n ==> dst[i] == src[pos + i]
    {
      dst[n] := src[pos + n];
    }
  }

  /** The state of the encryption loop after `pos` bytes: what is written, followed by what the rest
      will give, is what the whole call gives. */
  ghost predicate SoFar(e: Block -> Block, iv0: Block, p: seq<u8>, written: seq<u8>, iv: Block, pos: nat)
    requires pos <= |p|
  {
    var rest := Encrypted(e, iv, p[pos..]);
    Encrypted(e, iv0, p) == Chained(written + rest.bytes, rest.iv)
  }

  lemma WroteBlock(e: Block -> Block, iv0: Block, p: seq<u8>, written: seq<u8>, iv: Block, pos: nat, c: Block)
    requires pos + 16 <= |p| && SoFar(e, iv0, p, written, iv, pos) && c == e(Masked(p[pos..pos + 16], iv))
    ensures SoFar(e, iv0, p, written + c, c, pos + 16)
  {
    assert p[pos..][..16] == p[pos..pos + 16] && p[pos..][16..] == p[pos + 16..];
    var rest := Encrypted(e, c, p[pos + 16..]);
    EncryptStep(e, iv, p[pos..], c, rest);
    assert written + (c + rest.bytes) == written + c + rest.bytes;
  }

  lemma OverSplits(s: seq<u8>, o: nat, b: seq<u8>)
    requires o + |b| <= |s|
    ensures Over(s, o, b)[..o + |b|] == s[..o] + b && Over(s, o, b)[o + |b|..] == s[o + |b|..]
    ensures Over(s, o, b)[o..o + |b|] == b
  {
  }

  lemma StartChain(e: Block -> Block, iv0: Block, p: seq<u8>)
    ensures SoFar(e, iv0, p, [], iv0, 0)
  {
    assert p[0..] == p && [] + Encrypted(e, iv0, p).bytes == Encrypted(e, iv0, p).bytes;
  }

  /** What one turn of the loop leaves: the block written, the output after it untouched. */
  lemma LoopStep(e: Block -> Block, iv0: Block, p: seq<u8>, was: seq<u8>, before: seq<u8>, after: seq<u8>, iv: Block,
                 pos: nat, c: Block)
    requires pos + 16 <= |p| && pos + 16 <= |before| == |was|
    requires SoFar(e, iv0, p, before[..pos], iv, pos) && before[pos..] == was[pos..]
    requires c == e(Masked(p[pos..pos + 16], iv)) && after == Over(before, pos, c)
    ensures SoFar(e, iv0, p, after[..pos + 16], c, pos + 16) && after[pos + 16..] == was[pos + 16..]
  {
    WroteBlock(e, iv0, p, before[..pos], iv, pos, c);
    OverSplits(before, pos, c);
    assert before[pos..][16..] == before[pos + 16..] && was[pos..][16..] == was[pos + 16..];
  }

  lemma LastStep(e: Block -> Block, iv0: Block, p: seq<u8>, before: seq<u8>, after: seq<u8>, iv: Block, pos: nat,
                 c: Block)
    requires 0 < |p| - pos < 16 && 0 <= pos && pos + 16 <= |before| && SoFar(e, iv0, p, before[..pos], iv, pos)
    requires c == e(Masked(p[pos..], iv)) && after == Over(before, pos, c)
    ensures Encrypted(e, iv0, p) == Chained(after[..pos + 16], c) && after[pos + 16..] == before[pos + 16..]
  {
    OverSplits(before, pos, c);
    assert Encrypted(e, iv, p[pos..]) == Chained(c, c);
  }

  /** The body of the encryption loop. */
  method ChainBlock(t: Tables, key: AesKey, ivec: array<u8>, tmp: array<u8>, ghost g: Blocks, inp: array<u8>,
                    out: array<u8>, pos: nat)
    returns (ghost c: Block)
    requires Realises(t, key, g) && ivec.Length == 16 == tmp.Length && ivec != tmp
    requires ivec != inp && ivec != out && tmp != inp && tmp != out
    requires pos + 16 <= inp.Length && pos + 16 <= out.Length
    modifies out, ivec, tmp
    ensures c == g.e(Masked(old(inp[pos..pos + 16]), old(ivec[..])))
    ensures out[..] == Over(old(out[..]), pos, c) && ivec[..] == c
  {
    MaskInto(tmp, inp, pos, 16, ivec);
    assert tmp[0..16] == tmp[..];
    c := g.e(tmp[..]);
    EncryptBlock(t, tmp, 0, out, pos, key, g);
    OverSplits(old(out[..]), pos, c);
    Copy16(ivec, out, pos);
  }

  /** The partial last block of encryption. */
  method ChainTail(t: Tables, key: AesKey, ivec: array<u8>, tmp: array<u8>, ghost g: Blocks, inp: array<u8>,
                   out: array<u8>, pos: nat, len: nat)
    returns (ghost c: Block)
    requires Realises(t, key, g) && ivec.Length == 16 == tmp.Length && ivec != tmp
    requires ivec != inp && ivec != out && tmp != inp && tmp != out
    requires len < 16 && pos + len <= inp.Length && pos + 16 <= out.Length
    modifies out, ivec, tmp
    ensures c == g.e(Masked(old(inp[pos..pos + len]), old(ivec[..])))
    ensures out[..] == Over(old(out[..]), pos, c) && ivec[..] == c
  {
    MaskInto(tmp, inp, pos, len, ivec);
    assert tmp[0..16] == tmp[..];
    c := g.e(tmp[..]);
    EncryptBlock(t, tmp, 0, tmp, 0, key, g);
    assert tmp[..] == c;
    Put(out, pos, tmp[..]);
    Copy16(ivec, tmp, 0);
  }

  /** AES_cbc_encrypt with `enc` set: the loop over whole blocks. */
  method EncryptWhole(t: Tables, key: AesKey, ivec: array<u8>, tmp: array<u8>, ghost g: Blocks, inp: array<u8>,
                      out: array<u8>, length: nat)
    returns (pos: nat)
    requires Realises(t, key, g) && ivec.Length == 16 == tmp.Length && ivec != tmp
    requires ivec != inp && ivec != out && tmp != inp && tmp != out
    requires length <= inp.Length && length <= out.Length
    modifies out, ivec, tmp
    ensures length - 16 < pos <= length && pos % 16 == 0
    ensures SoFar(g.e, old(ivec[..]), old(inp[..length]), out[..pos], ivec[..], pos)
    ensures inp[pos..length] == old(inp[pos..length]) && out[pos..] == old(out[pos..])
  {
    ghost var p, iv0, was := inp[..length], ivec[..], out[..];
    var len := length;
    pos := 0;
    StartChain(g.e, iv0, p);
    while len >= 16
      invariant pos + len == length && 0 <= len && pos % 16 == 0
      invariant inp[pos..length] == p[pos..] && out[pos..] == was[pos..]
      invariant SoFar(g.e, iv0, p, out[..pos], ivec[..], pos)
    {
      ghost var before, iv := out[..], ivec[..];
      assert inp[pos..pos + 16] == inp[pos..length][..16] == p[pos..pos + 16];
      ghost var c := ChainBlock(t, key, ivec, tmp, g, inp, out, pos);
      LoopStep(g.e, iv0, p, was, before, out[..], iv, pos, c);
      len, pos := len - 16, pos + 16;
    }
  }

  /** AES_cbc_encrypt with `enc` set; `inp` and `out` may be the same array. */
  method EncryptBuffer(t: Tables, key: AesKey, ivec: array<u8>, tmp: array<u8>, ghost g: Blocks, inp: array<u8>,
                       out: array<u8>, length: nat)
    requires Realises(t, key, g) && ivec.Length == 16 == tmp.Length && ivec != tmp
    requires ivec != inp && ivec != out && tmp != inp && tmp != out
    requires length <= inp.Length && Padded(length) <= out.Length
    modifies out, ivec, tmp
    ensures var r := Encrypted(g.e, old(ivec[..]), old(inp[..length]));
      out[..Padded(length)] == r.bytes && out[Padded(length)..] == old(out[Padded(length)..]) && ivec[..] == r.iv
  {
    ghost var p, iv0, was := inp[..length], ivec[..], out[..];
    var pos := EncryptWhole(t, key, ivec, tmp, g, inp, out, length);
    var len := length - pos;
    if len != 0 {
      ghost var before, iv := out[..], ivec[..];
      assert inp[pos..pos + len] == p[pos..];
      ghost var c := ChainTail(t, key, ivec, tmp, g, inp, out, pos, len);
      LastStep(g.e, iv0, p, before, out[..], iv, pos, c);
      assert before[pos..][16..] == before[pos + 16..] && was[pos..][16..] == was[pos + 16..];
    } else {
      assert p[pos..] == [];
    }
  }

  /** The state of the decryption loop after `pos` bytes. */
  ghost predicate DecryptedSoFar(d: Block -> Block, iv0: Block, c: seq<u8>, length: nat, written: seq<u8>, iv: Block,
                                 pos: nat)
    requires Padded(length) <= |c| && pos <= length && pos % 16 == 0
  {
    var rest := Decrypted(d, iv, c[pos..], length - pos);
    Decrypted(d, iv0, c, length) == Chained(written + rest.bytes, rest.iv)
  }

  lemma StartUnchain(d: Block -> Block, iv0: Block, c: seq<u8>, length: nat)
    requires Padded(length) <= |c|
    ensures DecryptedSoFar(d, iv0, c, length, [], iv0, 0)
  {
    assert c[0..] == c && [] + Decrypted(d, iv0, c, length).bytes == Decrypted(d, iv0, c, length).bytes;
  }

  lemma UnchainStep(d: Block -> Block, iv0: Block, c: seq<u8>, length: nat, was: seq<u8>, before: seq<u8>,
                    after: seq<u8>, iv: Block, pos: nat)
    requires Padded(length) <= |c| && pos + 16 <= length && pos % 16 == 0 && length <= |before| == |was|
    requires DecryptedSoFar(d, iv0, c, length, before[..pos], iv, pos) && before[pos..] == was[pos..]
    requires after == Over(before, pos, Masked(d(c[pos..pos + 16]), iv))
    ensures DecryptedSoFar(d, iv0, c, length, after[..pos + 16], c[pos..pos + 16], pos + 16)
    ensures after[pos + 16..] == was[pos + 16..]
  {
    var m := Masked(d(c[pos..pos + 16]), iv);
    assert c[pos..][..16] == c[pos..pos + 16] && c[pos..][16..] == c[pos + 16..];
    var rest := Decrypted(d, c[pos..pos + 16], c[pos + 16..], length - pos - 16);
    assert before[..pos] + (m + rest.bytes) == before[..pos] + m + rest.bytes;
    OverSplits(before, pos, m);
    assert before[pos..][16..] == before[pos + 16..] && was[pos..][16..] == was[pos + 16..];
  }

  lemma LastUnchainStep(d: Block -> Block, iv0: Block, c: seq<u8>, length: nat, before: seq<u8>, after: seq<u8>,
                        iv: Block, pos: nat)
    requires Padded(length) <= |c| && 0 < length - pos < 16 && pos % 16 == 0 && length <= |before| && 0 <= pos
    requires DecryptedSoFar(d, iv0, c, length, before[..pos], iv, pos)
    requires after == Over(before, pos, Masked(d(c[pos..pos + 16]), iv)[..length - pos])
    ensures Decrypted(d, iv0, c, length) == Chained(after[..length], d(c[pos..pos + 16]))
    ensures after[length..] == before[length..]
  {
    assert c[pos..][..16] == c[pos..pos + 16];
    OverSplits(before, pos, Masked(d(c[pos..pos + 16]), iv)[..length - pos]);
  }

  /** The body of the decryption loop; `inp` and `out` may be the same array. */
  method UnchainBlock(t: Tables, key: AesKey, ivec: array<u8>, tmp: array<u8>, ghost g: Blocks, inp: array<u8>,
                      out: array<u8>, pos: nat)
    requires Realises(t, key, g) && ivec.Length == 16 == tmp.Length && ivec != tmp
    requires ivec != inp && ivec != out && tmp != inp && tmp != out
    requires pos + 16 <= inp.Length && pos + 16 <= out.Length
    modifies out, ivec, tmp
    ensures out[..] == Over(old(out[..]), pos, Masked(g.d(old(inp[pos..pos + 16])), old(ivec[..])))
    ensures ivec[..] == old(inp[pos..pos + 16]) && inp[pos + 16..] == old(inp[pos + 16..])
  {
    Copy16(tmp, inp, pos);
    ghost var b := g.d(inp[pos..pos + 16]);
    DecryptBlock(t, inp, pos, out, pos, key, g);
    OverSplits(old(out[..]), pos, b);
    Unmask(out, pos, out, pos, 16, ivec);
    OverTwice(old(out[..]), pos, b, Masked(b, ivec[..]));
    OverSplits(old(out[..]), pos, Masked(b, ivec[..]));
    Copy16(ivec, tmp, 0);
  }

  lemma OverTwice(s: seq<u8>, o: nat, b: seq<u8>, b': seq<u8>)
    requires o + |b| <= |s| && |b| == |b'|
    ensures Over(Over(s, o, b), o, b') == Over(s, o, b')
    ensures |b'| == 16 ==> b'[..16] == b'
  {
  }

  /** The partial last block of decryption, which leaves the decrypted block in `ivec`. */
  method UnchainTail(t: Tables, key: AesKey, ivec: array<u8>, tmp: array<u8>, ghost g: Blocks, inp: array<u8>,
                     out: array<u8>, pos: nat, len: nat)
    requires Realises(t, key, g) && ivec.Length == 16 == tmp.Length && ivec != tmp
    requires ivec != inp && ivec != out && tmp != inp && tmp != out
    requires len < 16 && pos + 16 <= inp.Length && pos + len <= out.Length
    modifies out, ivec, tmp
    ensures out[..] == Over(old(out[..]), pos, Masked(g.d(old(inp[pos..pos + 16])), old(ivec[..]))[..len])
    ensures ivec[..] == g.d(old(inp[pos..pos + 16]))
  {
    Copy16(tmp, inp, pos);
    assert tmp[0..16] == tmp[..];
    ghost var b := g.d(tmp[..]);
    DecryptBlock(t, tmp, 0, tmp, 0, key, g);
    assert tmp[..] == b == tmp[0..16];
    Unmask(out, pos, tmp, 0, len, ivec);
    Copy16(ivec, tmp, 0);
  }

  lemma NextSixteen(a: seq<u8>, c: seq<u8>, pos: nat)
    requires pos + 16 <= |a| == |c| && a[pos..] == c[pos..]
    ensures a[pos..pos + 16] == c[pos..pos + 16] && a[pos + 16..] == c[pos + 16..]
  {
    assert a[pos..pos + 16] == a[pos..][..16] && c[pos..pos + 16] == c[pos..][..16];
    assert a[pos + 16..] == a[pos..][16..] && c[pos + 16..] == c[pos..][16..];
  }

  /** AES_cbc_encrypt with `enc` clear: the loop over whole blocks. */
  method DecryptWhole(t: Tables, key: AesKey, ivec: array<u8>, tmp: array<u8>, ghost g: Blocks, inp: array<u8>,
                      out: array<u8>, length: nat)
    returns (pos: nat)
    requires Realises(t, key, g) && ivec.Length == 16 == tmp.Length && ivec != tmp
    requires ivec != inp && ivec != out && tmp != inp && tmp != out
    requires Padded(length) <= inp.Length && length <= out.Length
    modifies out, ivec, tmp
    ensures length - 16 < pos <= length && pos % 16 == 0
    ensures DecryptedSoFar(g.d, old(ivec[..]), old(inp[..]), length, out[..pos], ivec[..], pos)
    ensures inp[pos..] == old(inp[pos..]) && out[pos..] == old(out[pos..])
  {
    ghost var c, iv0, was := inp[..], ivec[..], out[..];
    var len := length;
    pos := 0;
    StartUnchain(g.d, iv0, c, length);
    while len >= 16
      invariant pos + len == length && 0 <= len && pos % 16 == 0
      invariant inp[pos..] == c[pos..] && out[pos..] == was[pos..]
      invariant DecryptedSoFar(g.d, iv0, c, length, out[..pos], ivec[..], pos)
    {
      ghost var before, iv := out[..], ivec[..];
      NextSixteen(inp[..], c, pos);
      UnchainBlock(t, key, ivec, tmp, g, inp, out, pos);
      UnchainStep(g.d, iv0, c, length, was, before, out[..], iv, pos);
      len, pos := len - 16, pos + 16;
    }
  }

  /** AES_cbc_encrypt with `enc` clear; `inp` and `out` may be the same array. */
  method DecryptBuffer(t: Tables, key: AesKey, ivec: array<u8>, tmp: array<u8>, ghost g: Blocks, inp: array<u8>,
                       out: array<u8>, length: nat)
    requires Realises(t, key, g) && ivec.Length == 16 == tmp.Length && ivec != tmp
    requires ivec != inp && ivec != out && tmp != inp && tmp != out
    requires Padded(length) <= inp.Length && length <= out.Length
    modifies out, ivec, tmp
    ensures var r := Decrypted(g.d, old(ivec[..]), old(inp[..]), length);
      out[..length] == r.bytes && out[length..] == old(out[length..]) && ivec[..] == r.iv
  {
    ghost var c, iv0, was := inp[..], ivec[..], out[..];
    var pos := DecryptWhole(t, key, ivec, tmp, g, inp, out, length);
    var len := length - pos;
    if len != 0 {
      ghost var before, iv := out[..], ivec[..];
      assert inp[pos..pos + 16] == inp[pos..][..16] == c[pos..][..16] == c[pos..pos + 16];
      UnchainTail(t, key, ivec, tmp, g, inp, out, pos, len);
      LastUnchainStep(g.d, iv0, c, length, before, out[..], iv, pos);
      assert before[pos..][len..] == before[length..] && was[pos..][len..] == was[length..];
    }
  }

  /** AES_cbc_encrypt; `inp` and `out` may be the same array. */
  method AesCbcEncrypt(t: Tables, inp: array<u8>, out: array<u8>, length: nat, key: AesKey, ivec: array<u8>, enc: bool,
                       ghost g: Blocks)
    requires Realises(t, key, g) && ivec.Length == 16 && ivec != inp && ivec != out
    requires (if enc then length else Padded(length)) <= inp.Length
    requires (if enc then Padded(length) else length) <= out.Length
    modifies out, ivec
    ensures enc ==> var r := Encrypted(g.e, old(ivec[..]), old(inp[..length]));
      out[..Padded(length)] == r.bytes && out[Padded(length)..] == old(out[Padded(length)..]) && ivec[..] == r.iv
    ensures !enc ==> var r := Decrypted(g.d, old(ivec[..]), old(inp[..]), length);
      out[..length] == r.bytes && out[length..] == old(out[length..]) && ivec[..] == r.iv
  {
    var tmp := new u8[16](_ => 0);
    if enc {
      EncryptBuffer(t, key, ivec, tmp, g, inp, out, length);
    } else {
      DecryptBuffer(t, key, ivec, tmp, g, inp, out, length);
    }
  }

  /** For every user key, chaining value and message, CBC decryption under the schedule of
      AES_set_decrypt_key gives back what was encrypted under that of AES_set_encrypt_key. */
  lemma AesCbcRoundTrip(t: Tables, key: seq<Word>, iv: Block, p: seq<u8>, e: Block -> Block, d: Block -> Block)
    requires Lawful(t) && KeySize(|key|)
    requires forall b: Block :: e(b) == Encrypt(AesSteps(t), UserRoundKeys(t, key), b)
    requires forall b: Block :: d(b) == Decrypt(AesSteps(t), DecryptKeys(AesSteps(t), UserRoundKeys(t, key)), b)
    ensures Decrypted(d, iv, Encrypted(e, iv, p).bytes, |p|).bytes == p
  {
    forall b: Block ensures d(e(b)) == b { DecryptUndoesEncrypt(t, key, b); }
    DecryptionUndoesEncryption(e, d, iv, p);
  }
}
