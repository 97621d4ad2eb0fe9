/**
  The programs of aes.c together: keys set up for both directions, a block or a buffer encrypted with
  one and decrypted with the other.
 */
module AesRoundTrip {
  import opened Bits
  import opened AesField
  import opened AesCipher
  import opened AesTables
  import opened RoundCipher
  import opened Aes
  import opened Cbc

  /** What a schedule of round keys stands for. */
  function BlocksOf(f: Steps<State>, keys: seq<State>): Blocks
    requires 2 <= |keys|
  {
    Blocks(f, keys, (b: Block) => Encrypt(f, keys, b), (b: Block) => Decrypt(f, keys, b))
  }

  /** A key with a schedule is ready for AES_encrypt and AES_decrypt. */
  lemma ReadyKey(t: Tables, key: AesKey, keys: seq<State>)
    requires Lawful(t) && (key.rounds == 10 || key.rounds == 12 || key.rounds == 14)
    requires 4 * key.rounds + 4 <= key.rdKey.Length
    requires keys == RoundKeys(key.rdKey[..], key.rounds)
    ensures Realises(t, key, BlocksOf(AesSteps(t), keys))
  {
    TablesComputeAes(t);
  }

  /** AES_set_encrypt_key makes a key that AES_encrypt can use. */
  method EncryptKey(t: Tables, userKey: array<u8>, bits: int) returns (status: int, key: AesKey, ghost g: Blocks)
    requires Lawful(t) && (KeyBits(bits) ==> bits / 8 <= userKey.Length)
    ensures status == (if KeyBits(bits) then 0 else -2) && fresh(key) && fresh(key.rdKey)
    ensures status == 0 ==>
      Realises(t, key, g) && g == BlocksOf(AesSteps(t), UserRoundKeys(t, Words(userKey[..], bits / 32)))
  {
    key := new AesKey();
    g := BlocksOf(AesSteps(t), UserRoundKeys(t, Words([0, 0, 0, 0, 0, 0, 0, 0, 0, 0, 0, 0, 0, 0, 0, 0], 4)));
    status := SetEncryptKey(t, userKey, bits, key);
    if status == 0 {
      ghost var words := Words(userKey[..], bits / 32);
      HeldRoundKeys(t, key.rdKey[..], words, key.rounds);
      ReadyKey(t, key, UserRoundKeys(t, words));
      g := BlocksOf(AesSteps(t), UserRoundKeys(t, words));
    }
  }

  /** AES_set_decrypt_key makes a key that AES_decrypt can use. */
  method DecryptKey(t: Tables, userKey: array<u8>, bits: int) returns (status: int, key: AesKey, ghost g: Blocks)
    requires Lawful(t) && (KeyBits(bits) ==> bits / 8 <= userKey.Length)
    ensures status == (if KeyBits(bits) then 0 else -2) && fresh(key) && fresh(key.rdKey)
    ensures status == 0 ==>
      && Realises(t, key, g)
      && g == BlocksOf(AesSteps(t), DecryptKeys(AesSteps(t), UserRoundKeys(t, Words(userKey[..], bits / 32))))
  {
    key := new AesKey();
    g := BlocksOf(AesSteps(t), UserRoundKeys(t, Words([0, 0, 0, 0, 0, 0, 0, 0, 0, 0, 0, 0, 0, 0, 0, 0], 4)));
    status := SetDecryptKey(t, userKey, bits, key);
    if status == 0 {
      ghost var keys := DecryptKeys(AesSteps(t), UserRoundKeys(t, Words(userKey[..], bits / 32)));
      ReadyKey(t, key, keys);
      g := BlocksOf(AesSteps(t), keys);
    }
  }

  /** The two keys undo each other on every block. */
  lemma KeysUndo(t: Tables, user: seq<Word>, g: Blocks, h: Blocks)
    requires Lawful(t) && KeySize(|user|) && g == BlocksOf(AesSteps(t), UserRoundKeys(t, user))
    requires h == BlocksOf(AesSteps(t), DecryptKeys(AesSteps(t), UserRoundKeys(t, user)))
    ensures Inverse(g.e, h.d)
  {
    forall b: Block ensures h.d(g.e(b)) == b { DecryptUndoesEncrypt(t, user, b); }
  }

  /** Both keys of a user key. */
  method Keys(t: Tables, userKey: array<u8>, bits: int)
    returns (status: int, ek: AesKey, dk: AesKey, ghost g: Blocks, ghost h: Blocks)
    requires Lawful(t) && (KeyBits(bits) ==> bits / 8 <= userKey.Length)
    ensures status == (if KeyBits(bits) then 0 else -2) && fresh(ek) && fresh(ek.rdKey) && fresh(dk) && fresh(dk.rdKey)
    ensures status == 0 ==> Realises(t, ek, g) && Realises(t, dk, h) && Inverse(g.e, h.d)
  {
    status, ek, g := EncryptKey(t, userKey, bits);
    status, dk, h := DecryptKey(t, userKey, bits);
    if status == 0 { KeysUndo(t, Words(userKey[..], bits / 32), g, h); }
  }

  /** AES_encrypt and AES_decrypt under keys that undo each other give the block back. */
  method ThereAndBack(t: Tables, ek: AesKey, dk: AesKey, inp: array<u8>, out: array<u8>, ghost g: Blocks,
                      ghost h: Blocks)
    requires Realises(t, ek, g) && Realises(t, dk, h) && Inverse(g.e, h.d) && inp.Length == out.Length == 16
    modifies out
    ensures out[..] == old(inp[..])
  {
    ghost var b := inp[..];
    assert inp[0..16] == b;
    EncryptBlock(t, inp, 0, out, 0, ek, g);
    assert out[0..16] == g.e(b);
    DecryptBlock(t, out, 0, out, 0, dk, h);
  }

  /** For every key of 128, 192 or 256 bits and every block: set up both keys, encrypt, decrypt. */
  method BlockRoundTrip(t: Tables, userKey: array<u8>, bits: int, inp: array<u8>, out: array<u8>) returns (status: int)
    requires Lawful(t) && (KeyBits(bits) ==> bits / 8 <= userKey.Length) && inp.Length == out.Length == 16
    modifies out
    ensures status == (if KeyBits(bits) then 0 else -2)
    ensures out[..] == if status == 0 then old(inp[..]) else old(out[..])
  {
    var ek, dk;
    ghost var g, h;
    status, ek, dk, g, h := Keys(t, userKey, bits);
    if status == 0 { ThereAndBack(t, ek, dk, inp, out, g, h); }
  }

  /** AES_cbc_encrypt both ways under keys that undo each other, from the same chaining value. */
  method BufferThereAndBack(t: Tables, ek: AesKey, dk: AesKey, inp: array<u8>, mid: array<u8>, out: array<u8>,
                            length: nat, iv: array<u8>, iv': array<u8>, ghost g: Blocks, ghost h: Blocks)
    requires Realises(t, ek, g) && Realises(t, dk, h) && Inverse(g.e, h.d)
    requires length <= inp.Length && Padded(length) <= mid.Length && length <= out.Length
    requires iv.Length == 16 == iv'.Length && iv[..] == iv'[..] && iv' !in {iv, inp, mid, out} && iv !in {inp, mid, out}
    modifies mid, out, iv, iv'
    ensures out[..length] == old(inp[..length])
  {
    ghost var p, chain := inp[..length], iv[..];
    AesCbcEncrypt(t, inp, mid, length, ek, iv, true, g);
    ghost var c := Encrypted(g.e, chain, p);
    DecryptionUndoesEncryption(g.e, h.d, chain, p);
    OnlyTheFront(h.d, chain, mid[..], c.bytes, length);
    AesCbcEncrypt(t, mid, out, length, dk, iv', false, h);
  }

  /** Decryption looks at the padded length only. */
  lemma {:induction false} OnlyTheFront(d: Block -> Block, iv: Block, c: seq<u8>, front: seq<u8>, length: nat)
    requires |front| == Padded(length) <= |c| && c[..Padded(length)] == front
    ensures Decrypted(d, iv, c, length) == Decrypted(d, iv, front, length)
    decreases length
  {
    if length == 0 {
    } else {
      assert c[..16] == c[..Padded(length)][..16] == front[..16];
      if length >= 16 {
        assert c[16..][..Padded(length - 16)] == c[..Padded(length)][16..] == front[16..];
        OnlyTheFront(d, c[..16], c[16..], front[16..], length - 16);
      }
    }
  }

  /** For every key, chaining value and length: set up both keys, encrypt a buffer, decrypt it again. */
  method BufferRoundTrip(t: Tables, userKey: array<u8>, bits: int, inp: array<u8>, mid: array<u8>, out: array<u8>,
                         length: nat, iv: array<u8>, iv': array<u8>) returns (status: int)
    requires Lawful(t) && (KeyBits(bits) ==> bits / 8 <= userKey.Length)
    requires length <= inp.Length && Padded(length) <= mid.Length && length <= out.Length
    requires iv.Length == 16 == iv'.Length && iv[..] == iv'[..] && iv' !in {iv, inp, mid, out} && iv !in {inp, mid, out}
    modifies mid, out, iv, iv'
    ensures status == (if KeyBits(bits) then 0 else -2)
    ensures status == 0 ==> out[..length] == old(inp[..length])
    ensures status != 0 ==> out[..] == old(out[..])
  {
    var ek, dk;
    ghost var g, h;
    status, ek, dk, g, h := Keys(t, userKey, bits);
    if status == 0 { BufferThereAndBack(t, ek, dk, inp, mid, out, length, iv, iv', g, h); }
  }
}
