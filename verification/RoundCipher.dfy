/**
  Iterated ciphers: rounds of substitution, mixing and key addition, and their equivalent inverse
  (sections 5.1 and 5.3.5 of FIPS 197), over any type of states.
 */
module RoundCipher {

  /** The steps of a round and their inverses. */
  datatype Steps<!V> = Steps(add: (V, V) -> V, sub: V -> V, mix: V -> V, invSub: V -> V, invMix: V -> V)

  /** The steps of the inverse cipher. */
  function Inverted<V>(f: Steps<V>): Steps<V>
  {
    Steps(f.add, f.invSub, f.invMix, f.sub, f.mix)
  }

  /** The state after the first key addition and `r` full rounds. */
  function Rounds<V>(f: Steps<V>, keys: seq<V>, s: V, r: nat): V
    requires r < |keys|
  {
    if r == 0 then f.add(s, keys[0]) else f.add(f.mix(f.sub(Rounds(f, keys, s, r - 1))), keys[r])
  }

  /** The cipher: as many rounds as there are keys after the first, the last one without mixing. */
  function Cipher<V>(f: Steps<V>, keys: seq<V>, s: V): V
    requires 2 <= |keys|
  {
    f.add(f.sub(Rounds(f, keys, s, |keys| - 2)), keys[|keys| - 1])
  }

  /** The equivalent inverse cipher: the same sequence of steps, inverted one by one. */
  function InvCipher<V>(f: Steps<V>, keys: seq<V>, s: V): V
    requires 2 <= |keys|
  {
    Cipher(Inverted(f), keys, s)
  }

  /** The decryption schedule: the round keys in reverse, all but the outer two passed through the
      inverse of the mixing step. */
  function DecryptKeys<V>(f: Steps<V>, keys: seq<V>): (d: seq<V>)
    ensures |d| == |keys|
  {
    seq(|keys|, r requires 0 <= r < |keys| =>
      if 0 < r < |keys| - 1 then f.invMix(keys[|keys| - 1 - r]) else keys[|keys| - 1 - r])
  }

  /** What the inverse rests on: key addition is an involution, the substitution is inverted, and the
      mixing step is linear and inverted. */
  ghost predicate Undone<V(!new)>(f: Steps<V>)
  {
    && (forall a, k :: AddUndone(f, a, k))
    && (forall a :: f.invSub(f.sub(a)) == a)
    && (forall a, k :: MixUndone(f, a, k))
  }

  ghost predicate AddUndone<V>(f: Steps<V>, a: V, k: V)
  {
    f.add(f.add(a, k), k) == a
  }

  ghost predicate MixUndone<V>(f: Steps<V>, a: V, k: V)
  {
    f.add(f.invMix(f.add(f.mix(a), k)), f.invMix(k)) == a
  }

  lemma InvRoundsBegin<V(!new)>(f: Steps<V>, keys: seq<V>, s: V)
    requires Undone(f) && 2 <= |keys|
    ensures Rounds(Inverted(f), DecryptKeys(f, keys), Cipher(f, keys, s), 0) == f.sub(Rounds(f, keys, s, |keys| - 2))
  {
    assert DecryptKeys(f, keys)[0] == keys[|keys| - 1];
    assert AddUndone(f, f.sub(Rounds(f, keys, s, |keys| - 2)), keys[|keys| - 1]);
  }

  /** One round more of the inverse cipher takes off one round of the cipher. */
  lemma InvRoundUndoes<V(!new)>(f: Steps<V>, keys: seq<V>, s: V, c: V, r: nat)
    requires Undone(f) && 0 < r < |keys| - 1
    requires Rounds(Inverted(f), DecryptKeys(f, keys), c, r - 1) == f.sub(Rounds(f, keys, s, |keys| - 1 - r))
    ensures Rounds(Inverted(f), DecryptKeys(f, keys), c, r) == f.sub(Rounds(f, keys, s, |keys| - 2 - r))
  {
    var k := keys[|keys| - 1 - r];
    var a := f.sub(Rounds(f, keys, s, |keys| - 2 - r));
    assert DecryptKeys(f, keys)[r] == f.invMix(k);
    assert Rounds(f, keys, s, |keys| - 1 - r) == f.add(f.mix(a), k);
    assert MixUndone(f, a, k);
  }

  /** After `r` inverse rounds the state is the one the cipher had before its last `r + 1` rounds,
      with the substitution applied. */
  lemma {:induction false} InvRoundsFollow<V(!new)>(f: Steps<V>, keys: seq<V>, s: V, r: nat)
    requires Undone(f) && 2 <= |keys| && r < |keys| - 1
    ensures Rounds(Inverted(f), DecryptKeys(f, keys), Cipher(f, keys, s), r)
      == f.sub(Rounds(f, keys, s, |keys| - 2 - r))
    decreases r
  {
    InvRoundsBegin(f, keys, s);
    if r == 0 {
    } else {
      InvRoundsFollow(f, keys, s, r - 1);
      InvRoundUndoes(f, keys, s, Cipher(f, keys, s), r);
    }
  }

  /** Decryption under the reversed schedule undoes encryption, for every state. */
  lemma InvCipherUndoesCipher<V(!new)>(f: Steps<V>, keys: seq<V>, s: V)
    requires Undone(f) && 2 <= |keys|
    ensures InvCipher(f, DecryptKeys(f, keys), Cipher(f, keys, s)) == s
  {
    InvRoundsFollow(f, keys, s, |keys| - 2);
    assert AddUndone(f, s, keys[0]);
  }

  // ---------- the loop of the block functions ----------

  /** What a table-driven implementation offers: key addition, a whole round, and the last round. */
  datatype Lookups<!V> = Lookups(add: (V, V) -> V, round: (V, V) -> V, last: (V, V) -> V)

  /** The lookups compute the steps of the cipher `f`. */
  ghost predicate Computes<V(!new)>(l: Lookups<V>, f: Steps<V>)
  {
    && (forall s, k :: l.add(s, k) == f.add(s, k))
    && (forall s, k :: l.round(s, k) == f.add(f.mix(f.sub(s)), k))
    && (forall s, k :: l.last(s, k) == f.add(f.sub(s), k))
  }

  /** The loop that AES_encrypt and AES_decrypt run over their own tables: two rounds in each turn,
      `rk` counting round keys, and the last round outside. */
  method Run<V(!new)>(l: Lookups<V>, keys: seq<V>, nr: nat, s0: V, ghost f: Steps<V>) returns (s: V)
    requires Computes(l, f) && 2 <= nr && nr % 2 == 0 && |keys| == nr + 1
    ensures s == Cipher(f, keys, s0)
  {
    s := l.add(s0, keys[0]);
    var r, rk := nr / 2, 0;
    while true
      invariant 1 <= r && 0 <= rk && rk + 2 * r == nr
      invariant s == Rounds(f, keys, s0, rk)
      decreases r
    {
      var u := l.round(s, keys[rk + 1]);
      rk := rk + 2;
      r := r - 1;
      if r == 0 {
        s := l.last(u, keys[rk]);
        return;
      }
      s := l.round(u, keys[rk]);
    }
  }
}
