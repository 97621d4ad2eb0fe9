/**
  AES as aes.c computes it (loop forms): key expansion into an array of words, the decryption
  schedule made in place, and the table-driven encryption and decryption of one block.
 */
module Aes {
  import opened Bits
  import opened AesField
  import opened AesCipher
  import opened AesTables
  import opened RoundCipher

  /** AES_KEY */
  class AesKey {
    var rounds: nat
    const rdKey: array<Word>

    constructor ()
      ensures fresh(rdKey) && rdKey.Length == 60
    {
      rounds := 0;
      rdKey := new Word[60](_ => ZERO);
    }
  }

  // ---------- specification of the key schedule ----------

  /** rcon; the low three bytes are zero. */
  const RCON: seq<Word> :=
    [Word(0x01, 0, 0, 0), Word(0x02, 0, 0, 0), Word(0x04, 0, 0, 0), Word(0x08, 0, 0, 0), Word(0x10, 0, 0, 0),
     Word(0x20, 0, 0, 0), Word(0x40, 0, 0, 0), Word(0x80, 0, 0, 0), Word(0x1B, 0, 0, 0), Word(0x36, 0, 0, 0)]

  function SubWord(t: Tables, w: Word): Word
  {
    Word(S(t, w.b0), S(t, w.b1), S(t, w.b2), S(t, w.b3))
  }

  function RotWord(w: Word): Word
  {
    Word(w.b1, w.b2, w.b3, w.b0)
  }

  predicate KeySize(nk: nat)
  {
    nk == 4 || nk == 6 || nk == 8
  }

  /** Words of the expanded key that a key of `nk` words gives: four for each round and four more. */
  function Expanded(nk: nat): nat
  {
    4 * (nk + 7)
  }

  /** Which group of `nk` words word `i` belongs to, and its place in the group. */
  function Group(nk: nat, i: nat): nat
    requires KeySize(nk)
  {
    if nk == 4 then i / 4 else if nk == 6 then i / 6 else i / 8
  }

  function Place(nk: nat, i: nat): nat
    requires KeySize(nk)
  {
    if nk == 4 then i % 4 else if nk == 6 then i % 6 else i % 8
  }

  /** Word `i` of the key expansion (section 5.2 of FIPS 197). */
  function KeyWord(t: Tables, key: seq<Word>, i: nat): Word
    requires KeySize(|key|) && i < Expanded(|key|)
  {
    var nk := |key|;
    if i < nk then key[i]
    else
      var prev := KeyWord(t, key, i - 1);
      var step :=
        if Place(nk, i) == 0 then AddW(SubWord(t, RotWord(prev)), RCON[Group(nk, i) - 1])
        else if nk > 6 && Place(nk, i) == 4 then SubWord(t, prev)
        else prev;
      AddW(KeyWord(t, key, i - nk), step)
  }

  /** The round keys held in a sequence of words. */
  function RoundKeys(w: seq<Word>, nr: nat): (keys: seq<State>)
    requires 4 * nr + 4 <= |w|
    ensures |keys| == nr + 1
  {
    seq(nr + 1, r requires 0 <= r <= nr => State(w[4 * r], w[4 * r + 1], w[4 * r + 2], w[4 * r + 3]))
  }

  /** The big-endian words of a user key. */
  function Words(bytes: seq<u8>, n: nat): (w: seq<Word>)
    requires 4 * n <= |bytes|
    ensures |w| == n
  {
    seq(n, i requires 0 <= i < n => Word(bytes[4 * i], bytes[4 * i + 1], bytes[4 * i + 2], bytes[4 * i + 3]))
  }

  ghost predicate Holds(t: Tables, a: seq<Word>, key: seq<Word>, n: nat)
    requires KeySize(|key|) && n <= Expanded(|key|) && n <= |a|
  {
    forall i: nat :: i < n ==> a[i] == KeyWord(t, key, i)
  }

  // ---------- key expansion ----------

  /** The masked `Te4` lookups of the expansion are SubWord, of the word or of the rotated word. */
  lemma ExpansionLookups(t: Tables, w: Word)
    requires Lawful(t)
    ensures Masked(t.te4, w.b1, w.b2, w.b3, w.b0) == SubWord(t, RotWord(w))
    ensures Masked(t.te4, w.b0, w.b1, w.b2, w.b3) == SubWord(t, w)
  {
    LawOf(t, w.b0); LawOf(t, w.b1); LawOf(t, w.b2); LawOf(t, w.b3);
    MaskedIs(t.te4, w.b1, w.b2, w.b3, w.b0);
    MaskedIs(t.te4, w.b0, w.b1, w.b2, w.b3);
  }

  /** The first word of a group of `nk`. */
  lemma GroupHead(t: Tables, key: seq<Word>, i: nat, base: Word, temp: Word, r: nat)
    requires Lawful(t) && KeySize(|key|)
    requires |key| <= i < Expanded(|key|) && Place(|key|, i) == 0 && Group(|key|, i) == r + 1
    requires base == KeyWord(t, key, i - |key|) && temp == KeyWord(t, key, i - 1)
    ensures AddW(AddW(base, Masked(t.te4, temp.b1, temp.b2, temp.b3, temp.b0)), RCON[r])
         == KeyWord(t, key, i)
  {
    ExpansionLookups(t, temp);
    AddWLaws(base, SubWord(t, RotWord(temp)), RCON[r]);
  }

  /** A word inside a group. */
  lemma GroupTail(t: Tables, key: seq<Word>, i: nat)
    requires KeySize(|key|) && |key| <= i < Expanded(|key|)
    requires Place(|key|, i) != 0 && !(|key| > 6 && Place(|key|, i) == 4)
    ensures AddW(KeyWord(t, key, i - |key|), KeyWord(t, key, i - 1)) == KeyWord(t, key, i)
  {
  }

  /** The fifth word of a group of eight. */
  lemma GroupMiddle(t: Tables, key: seq<Word>, i: nat, base: Word, temp: Word)
    requires Lawful(t) && |key| == 8 && 8 <= i < Expanded(8) && i % 8 == 4
    requires base == KeyWord(t, key, i - 8) && temp == KeyWord(t, key, i - 1)
    ensures AddW(base, Masked(t.te4, temp.b0, temp.b1, temp.b2, temp.b3)) == KeyWord(t, key, i)
  {
    ExpansionLookups(t, temp);
  }

  /** Writing word `n` of the expansion extends the part that is done. */
  method Append(t: Tables, a: array<Word>, w: Word, ghost key: seq<Word>, n: nat)
    requires KeySize(|key|) && n < Expanded(|key|) && n < a.Length
    requires Holds(t, a[..], key, n) && w == KeyWord(t, key, n)
    modifies a
    ensures Holds(t, a[..], key, n + 1)
  {
    a[n] := w;
  }

  /** A word inside a group of the expansion. */
  method AppendTail(t: Tables, a: array<Word>, ghost key: seq<Word>, nk: nat, n: nat)
    requires nk == |key| && KeySize(nk) && nk <= n < Expanded(nk) && n < a.Length
    requires Place(nk, n) != 0 && !(nk > 6 && Place(nk, n) == 4)
    requires Holds(t, a[..], key, n)
    modifies a
    ensures Holds(t, a[..], key, n + 1)
  {
    GroupTail(t, key, n);
    Append(t, a, AddW(a[n - nk], a[n - 1]), key, n);
  }

  /** The word at the head of a group, with its masked lookups and round constant. */
  method AppendHead(t: Tables, a: array<Word>, ghost key: seq<Word>, nk: nat, n: nat, i: nat)
    requires Lawful(t) && nk == |key| && KeySize(nk) && nk <= n < Expanded(nk) && n < a.Length
    requires Place(nk, n) == 0 && Group(nk, n) == i + 1
    requires Holds(t, a[..], key, n)
    modifies a
    ensures Holds(t, a[..], key, n + 1)
  {
    var temp := a[n - 1];
    GroupHead(t, key, n, a[n - nk], temp, i);
    var w := AddW(AddW(a[n - nk], Masked(t.te4, temp.b1, temp.b2, temp.b3, temp.b0)), RCON[i]);
    Append(t, a, w, key, n);
  }

  /** The word in the middle of a group of eight, with its masked lookups. */
  method AppendMiddle(t: Tables, a: array<Word>, ghost key: seq<Word>, n: nat)
    requires Lawful(t) && |key| == 8 && 8 <= n < Expanded(8) && n < a.Length && n % 8 == 4
    requires Holds(t, a[..], key, n)
    modifies a
    ensures Holds(t, a[..], key, n + 1)
  {
    var temp := a[n - 1];
    GroupMiddle(t, key, n, a[n - 8], temp);
    var w := AddW(a[n - 8], Masked(t.te4, temp.b0, temp.b1, temp.b2, temp.b3));
    Append(t, a, w, key, n);
  }

  /** The loop for 128-bit keys. */
  method Expand128(t: Tables, a: array<Word>, ghost key: seq<Word>)
    requires Lawful(t) && |key| == 4 && a.Length >= 44 && Holds(t, a[..], key, 4)
    modifies a
    ensures Holds(t, a[..], key, 44)
  {
    var i, rk := 0, 0;
    while true
      invariant 0 <= i < 10 && rk == 4 * i
      invariant Holds(t, a[..], key, rk + 4)
      decreases 10 - i
    {
      AppendHead(t, a, key, 4, rk + 4, i);
      AppendTail(t, a, key, 4, rk + 5);
      AppendTail(t, a, key, 4, rk + 6);
      AppendTail(t, a, key, 4, rk + 7);
      i := i + 1;
      if i == 10 {
        return;
      }
      rk := rk + 4;
    }
  }

  /** The loop for 192-bit keys. */
  method Expand192(t: Tables, a: array<Word>, ghost key: seq<Word>)
    requires Lawful(t) && |key| == 6 && a.Length >= 52 && Holds(t, a[..], key, 6)
    modifies a
    ensures Holds(t, a[..], key, 52)
  {
    var i, rk := 0, 0;
    while true
      invariant 0 <= i < 8 && rk == 6 * i
      invariant Holds(t, a[..], key, rk + 6)
      decreases 8 - i
    {
      AppendHead(t, a, key, 6, rk + 6, i);
      AppendTail(t, a, key, 6, rk + 7);
      AppendTail(t, a, key, 6, rk + 8);
      AppendTail(t, a, key, 6, rk + 9);
      i := i + 1;
      if i == 8 {
        return;
      }
      AppendTail(t, a, key, 6, rk + 10);
      AppendTail(t, a, key, 6, rk + 11);
      rk := rk + 6;
    }
  }

  /** The loop for 256-bit keys. */
  method Expand256(t: Tables, a: array<Word>, ghost key: seq<Word>)
    requires Lawful(t) && |key| == 8 && a.Length >= 60 && Holds(t, a[..], key, 8)
    modifies a
    ensures Holds(t, a[..], key, 60)
  {
    var i, rk := 0, 0;
    while true
      invariant 0 <= i < 7 && rk == 8 * i
      invariant Holds(t, a[..], key, rk + 8)
      decreases 7 - i
    {
      AppendHead(t, a, key, 8, rk + 8, i);
      AppendTail(t, a, key, 8, rk + 9);
      AppendTail(t, a, key, 8, rk + 10);
      AppendTail(t, a, key, 8, rk + 11);
      i := i + 1;
      if i == 7 {
        return;
      }
      AppendMiddle(t, a, key, rk + 12);
      AppendTail(t, a, key, 8, rk + 13);
      AppendTail(t, a, key, 8, rk + 14);
      AppendTail(t, a, key, 8, rk + 15);
      rk := rk + 8;
    }
  }

  predicate KeyBits(bits: int)
  {
    bits == 128 || bits == 192 || bits == 256
  }

  /** The schedule that a user key of `bits` bits expands to. */
  ghost predicate Schedules(t: Tables, key: AesKey, userKey: seq<u8>, bits: int)
    requires KeyBits(bits) && bits / 8 <= |userKey|
    reads key, key.rdKey
  {
    && key.rounds == bits / 32 + 6
    && 4 * key.rounds + 4 <= key.rdKey.Length
    && Holds(t, key.rdKey[..], Words(userKey, bits / 32), 4 * key.rounds + 4)
  }

  /** One word of the user key, most significant byte first. */
  method LoadWord(t: Tables, a: array<Word>, userKey: array<u8>, ghost key: seq<Word>, i: nat)
    requires KeySize(|key|) && i < |key| && |key| <= a.Length && 4 * |key| <= userKey.Length
    requires key == Words(userKey[..], |key|) && Holds(t, a[..], key, i)
    modifies a
    ensures Holds(t, a[..], key, i + 1)
  {
    a[i] := Word(userKey[4 * i], userKey[4 * i + 1], userKey[4 * i + 2], userKey[4 * i + 3]);
  }

  /** AES_set_encrypt_key */
  method SetEncryptKey(t: Tables, userKey: array?<u8>, bits: int, key: AesKey?) returns (status: int)
    requires Lawful(t)
    requires userKey != null && key != null && KeyBits(bits) ==> bits / 8 <= userKey.Length && 60 <= key.rdKey.Length
    modifies if key == null then {} else {key, key.rdKey}
    ensures status == if userKey == null || key == null then -1 else if !KeyBits(bits) then -2 else 0
    ensures status == 0 ==> Schedules(t, key, userKey[..], bits)
    ensures status < 0 && key != null ==> unchanged(key) && unchanged(key.rdKey)
    ensures userKey != null ==> unchanged(userKey)
  {
    if userKey == null || key == null {
      return -1;
    }
    if bits != 128 && bits != 192 && bits != 256 {
      return -2;
    }
    var a := key.rdKey;
    key.rounds := if bits == 128 then 10 else if bits == 192 then 12 else 14;
    ghost var words := Words(userKey[..], bits / 32);
    LoadWord(t, a, userKey, words, 0);
    LoadWord(t, a, userKey, words, 1);
    LoadWord(t, a, userKey, words, 2);
    LoadWord(t, a, userKey, words, 3);
    if bits == 128 {
      Expand128(t, a, words);
      return 0;
    }
    LoadWord(t, a, userKey, words, 4);
    LoadWord(t, a, userKey, words, 5);
    if bits == 192 {
      Expand192(t, a, words);
      return 0;
    }
    LoadWord(t, a, userKey, words, 6);
    LoadWord(t, a, userKey, words, 7);
    Expand256(t, a, words);
    return 0;
  }

  // ---------- decryption schedule ----------

  /** Where word `m` comes from once the first `c` words of round keys `p` and `q` are exchanged. */
  function Partner(p: nat, q: nat, c: nat, m: nat): int
  {
    if 4 * p <= m < 4 * p + c then m - 4 * p + 4 * q else if 4 * q <= m < 4 * q + c then m - 4 * q + 4 * p else m
  }

  lemma SwappedRoundKeys(was: seq<Word>, now: seq<Word>, nr: nat, p: nat, q: nat)
    requires 4 * nr + 4 <= |was| == |now| && p < q <= nr
    requires forall m: nat :: m < |was| ==> now[m] == was[Partner(p, q, 4, m)]
    ensures RoundKeys(now, nr) == RoundKeys(was, nr)[p := RoundKeys(was, nr)[q]][q := RoundKeys(was, nr)[p]]
  {
    forall r | 0 <= r <= nr
      ensures RoundKeys(now, nr)[r] == RoundKeys(was, nr)[if r == p then q else if r == q then p else r]
    {
      assert now[4 * r] == was[Partner(p, q, 4, 4 * r)] && now[4 * r + 1] == was[Partner(p, q, 4, 4 * r + 1)];
      assert now[4 * r + 2] == was[Partner(p, q, 4, 4 * r + 2)] && now[4 * r + 3] == was[Partner(p, q, 4, 4 * r + 3)];
    }
  }

  /** Exchanging the four words of two round keys. */
  method SwapRoundKeys(a: array<Word>, nr: nat, p: nat, q: nat)
    requires 4 * nr + 4 <= a.Length && p < q <= nr
    modifies a
    ensures RoundKeys(a[..], nr)
         == old(RoundKeys(a[..], nr))[p := old(RoundKeys(a[..], nr))[q]][q := old(RoundKeys(a[..], nr))[p]]
  {
    var i, j := 4 * p, 4 * q;
    ghost var was := a[..];
    for c := 0 to 4
      invariant forall m: nat :: m < a.Length ==> a[m] == was[Partner(p, q, c, m)]
    {
      a[i + c], a[j + c] := a[j + c], a[i + c];
    }
    SwappedRoundKeys(was, a[..], nr, p, q);
  }

  /** The keys before `p` and after `q` have changed places. */
  ghost predicate HalfReversed<V>(was: seq<V>, now: seq<V>, p: int, q: int)
    requires |was| == |now|
  {
    forall r :: 0 <= r < |now| ==> now[r] == was[if p <= r <= q then r else |was| - 1 - r]
  }

  lemma ReverseStep<V>(was: seq<V>, before: seq<V>, after: seq<V>, p: nat, q: nat)
    requires |was| == |before| && p + q == |was| - 1 && p < q
    requires after == before[p := before[q]][q := before[p]]
    requires HalfReversed(was, before, p, q)
    ensures HalfReversed(was, after, p + 1, q - 1)
  {
    assert before[p] == was[p] && before[q] == was[q];
  }

  lemma ReverseDone<V>(was: seq<V>, now: seq<V>, p: nat, q: nat)
    requires |was| == |now| && p + q == |was| - 1 && q <= p && HalfReversed(was, now, p, q)
    ensures HalfReversed(was, now, |was|, -1)
  {
    forall r | 0 <= r < |now| ensures now[r] == was[|was| - 1 - r] {
      assert now[r] == was[if p <= r <= q then r else |was| - 1 - r];
    }
  }

  /** The loop of AES_set_decrypt_key that inverts the order of the round keys; `p` and `q` count
      round keys where the C loop counts words. */
  method ReverseRoundKeys(a: array<Word>, nr: nat)
    requires 4 * nr + 4 <= a.Length
    modifies a
    ensures HalfReversed(old(RoundKeys(a[..], nr)), RoundKeys(a[..], nr), nr + 1, -1)
  {
    var p, q := 0, nr;
    ghost var was := RoundKeys(a[..], nr);
    while p < q
      invariant p + q == nr && 0 <= p <= q + 1
      invariant HalfReversed(was, RoundKeys(a[..], nr), p, q)
    {
      ghost var before := RoundKeys(a[..], nr);
      SwapRoundKeys(a, nr, p, q);
      ReverseStep(was, before, RoundKeys(a[..], nr), p, q);
      p, q := p + 1, q - 1;
    }
    ReverseDone(was, RoundKeys(a[..], nr), p, q);
  }

  /** InvMixColumns of a key word, through `Td[Te4[...] & 0xff]`. */
  function InvMixWord(t: Tables, w: Word): Word
  {
    AddW(AddW(AddW(t.td0(S(t, w.b0)), t.td1(S(t, w.b1))), t.td2(S(t, w.b2))), t.td3(S(t, w.b3)))
  }

  lemma InvMixWordIs(t: Tables, w: Word)
    requires Lawful(t)
    ensures InvMixWord(t, w) == InvMixColumn(t.x, w)
  {
    LawOf(t, w.b0); LawOf(t, w.b1); LawOf(t, w.b2); LawOf(t, w.b3);
    LawOf(t, S(t, w.b0)); LawOf(t, S(t, w.b1)); LawOf(t, S(t, w.b2)); LawOf(t, S(t, w.b3));
    InvMixRows(t.x, w.b0, w.b1, w.b2, w.b3);
  }

  /** A function of words applied to each word of a round key. */
  function EachWord(h: Word -> Word): State -> State
  {
    (s: State) => State(h(s.c0), h(s.c1), h(s.c2), h(s.c3))
  }

  lemma ReplacedRoundKey(was: seq<Word>, now: seq<Word>, nr: nat, r: nat, k: State)
    requires 4 * nr + 4 <= |was| && r <= nr
    requires now == was[4 * r := k.c0][4 * r + 1 := k.c1][4 * r + 2 := k.c2][4 * r + 3 := k.c3]
    ensures RoundKeys(now, nr) == RoundKeys(was, nr)[r := k]
  {
  }

  /** The four words of one round key replaced by their images. */
  method MapRoundKey(h: Word -> Word, a: array<Word>, nr: nat, r: nat)
    requires r <= nr && 4 * nr + 4 <= a.Length
    modifies a
    ensures RoundKeys(a[..], nr) == old(RoundKeys(a[..], nr))[r := EachWord(h)(old(RoundKeys(a[..], nr))[r])]
  {
    var rk := 4 * r;
    ghost var was := a[..];
    a[rk] := h(a[rk]);
    a[rk + 1] := h(a[rk + 1]);
    a[rk + 2] := h(a[rk + 2]);
    a[rk + 3] := h(a[rk + 3]);
    ReplacedRoundKey(was, a[..], nr, r, EachWord(h)(RoundKeys(was, nr)[r]));
  }

  /** The keys strictly between the first and `i` have been mapped by `g`. */
  ghost predicate MappedInside<V>(g: V -> V, was: seq<V>, now: seq<V>, i: int)
    requires |was| == |now|
  {
    forall r :: 0 <= r < |now| ==> now[r] == if 0 < r < i then g(was[r]) else was[r]
  }

  lemma MapStep<V>(g: V -> V, was: seq<V>, before: seq<V>, after: seq<V>, i: nat)
    requires |was| == |before| && 0 < i < |was|
    requires MappedInside(g, was, before, i) && after == before[i := g(before[i])]
    ensures before[i] == was[i] && MappedInside(g, was, after, i + 1)
  {
  }

  /** The loop of AES_set_decrypt_key that applies `h` to the inner round keys. */
  method MapRoundKeys(h: Word -> Word, a: array<Word>, nr: nat)
    requires 1 <= nr && 4 * nr + 4 <= a.Length
    modifies a
    ensures MappedInside(EachWord(h), old(RoundKeys(a[..], nr)), RoundKeys(a[..], nr), nr)
  {
    ghost var was := RoundKeys(a[..], nr);
    for i := 1 to nr
      invariant MappedInside(EachWord(h), was, RoundKeys(a[..], nr), i)
    {
      ghost var before := RoundKeys(a[..], nr);
      MapRoundKey(h, a, nr, i);
      MapStep(EachWord(h), was, before, RoundKeys(a[..], nr), i);
    }
  }

  lemma InvMixEachWord(t: Tables, h: Word -> Word, s: State)
    requires Lawful(t) && forall w :: h(w) == InvMixWord(t, w)
    ensures EachWord(h)(s) == AesSteps(t).invMix(s)
  {
    InvMixWordIs(t, s.c0);
    InvMixWordIs(t, s.c1);
    InvMixWordIs(t, s.c2);
    InvMixWordIs(t, s.c3);
  }

  lemma ReversedAndMapped<V(!new)>(f: Steps<V>, m: V -> V, keys: seq<V>, reversed: seq<V>, mapped: seq<V>)
    requires 2 <= |keys| == |reversed| == |mapped| && forall v :: m(v) == f.invMix(v)
    requires HalfReversed(keys, reversed, |keys|, -1) && MappedInside(m, reversed, mapped, |keys| - 1)
    ensures mapped == DecryptKeys(f, keys)
  {
  }

  /** The in-place work of AES_set_decrypt_key after the expansion. */
  method InvertSchedule(t: Tables, a: array<Word>, nr: nat)
    requires Lawful(t) && 1 <= nr && 4 * nr + 4 <= a.Length
    modifies a
    ensures RoundKeys(a[..], nr) == DecryptKeys(AesSteps(t), old(RoundKeys(a[..], nr)))
  {
    ghost var keys := RoundKeys(a[..], nr);
    var h := (w: Word) => InvMixWord(t, w);
    ReverseRoundKeys(a, nr);
    ghost var reversed := RoundKeys(a[..], nr);
    MapRoundKeys(h, a, nr);
    forall s ensures EachWord(h)(s) == AesSteps(t).invMix(s) { InvMixEachWord(t, h, s); }
    ReversedAndMapped(AesSteps(t), EachWord(h), keys, reversed, RoundKeys(a[..], nr));
  }

  /** AES_set_decrypt_key */
  method SetDecryptKey(t: Tables, userKey: array?<u8>, bits: int, key: AesKey?) returns (status: int)
    requires Lawful(t)
    requires userKey != null && key != null && KeyBits(bits) ==> bits / 8 <= userKey.Length && 60 <= key.rdKey.Length
    modifies if key == null then {} else {key, key.rdKey}
    ensures status == if userKey == null || key == null then -1 else if !KeyBits(bits) then -2 else 0
    ensures status == 0 ==> DecryptSchedules(t, key, userKey[..], bits)
    ensures status < 0 && key != null ==> unchanged(key) && unchanged(key.rdKey)
    ensures userKey != null ==> unchanged(userKey)
  {
    status := SetEncryptKey(t, userKey, bits, key);
    if status < 0 {
      return;
    }
    ghost var words := Words(userKey[..], bits / 32);
    HeldRoundKeys(t, key.rdKey[..], words, key.rounds);
    InvertSchedule(t, key.rdKey, key.rounds);
  }

  /** The round keys of a user key. */
  function UserRoundKeys(t: Tables, key: seq<Word>): (keys: seq<State>)
    requires KeySize(|key|)
    ensures |keys| == |key| + 7
  {
    seq(|key| + 7, r requires 0 <= r < |key| + 7 =>
      State(KeyWord(t, key, 4 * r), KeyWord(t, key, 4 * r + 1), KeyWord(t, key, 4 * r + 2), KeyWord(t, key, 4 * r + 3)))
  }

  lemma HeldRoundKeys(t: Tables, w: seq<Word>, key: seq<Word>, nr: nat)
    requires KeySize(|key|) && nr == |key| + 6 && 4 * nr + 4 <= |w| && Holds(t, w, key, 4 * nr + 4)
    ensures RoundKeys(w, nr) == UserRoundKeys(t, key)
  {
  }

  ghost predicate DecryptSchedules(t: Tables, key: AesKey, userKey: seq<u8>, bits: int)
    requires KeyBits(bits) && bits / 8 <= |userKey|
    reads key, key.rdKey
  {
    && key.rounds == bits / 32 + 6
    && 4 * key.rounds + 4 <= key.rdKey.Length
    && RoundKeys(key.rdKey[..], key.rounds) == DecryptKeys(AesSteps(t), UserRoundKeys(t, Words(userKey, bits / 32)))
  }

  // ---------- one block ----------

  /** GETU32 of the four words of a block. */
  function BlockState(b: seq<u8>): State
    requires |b| == 16
  {
    State(Word(b[0], b[1], b[2], b[3]), Word(b[4], b[5], b[6], b[7]),
          Word(b[8], b[9], b[10], b[11]), Word(b[12], b[13], b[14], b[15]))
  }

  /** PUTU32 of the four words of a state. */
  function StateBlock(s: State): (b: seq<u8>)
    ensures |b| == 16
  {
    [s.c0.b0, s.c0.b1, s.c0.b2, s.c0.b3, s.c1.b0, s.c1.b1, s.c1.b2, s.c1.b3,
     s.c2.b0, s.c2.b1, s.c2.b2, s.c2.b3, s.c3.b0, s.c3.b1, s.c3.b2, s.c3.b3]
  }

  /** Encryption and decryption of a block of bytes under a schedule of round keys. */
  function Encrypt(f: Steps<State>, keys: seq<State>, b: seq<u8>): (c: seq<u8>)
    requires 2 <= |keys| && |b| == 16
    ensures |c| == 16
  {
    StateBlock(Cipher(f, keys, BlockState(b)))
  }

  function Decrypt(f: Steps<State>, keys: seq<State>, c: seq<u8>): (b: seq<u8>)
    requires 2 <= |keys| && |c| == 16
    ensures |b| == 16
  {
    StateBlock(InvCipher(f, keys, BlockState(c)))
  }

  /** For every user key and every block, decryption under the schedule of AES_set_decrypt_key undoes
      encryption under the schedule of AES_set_encrypt_key. */
  lemma DecryptUndoesEncrypt(t: Tables, key: seq<Word>, b: seq<u8>)
    requires Lawful(t) && KeySize(|key|) && |b| == 16
    ensures var f, keys := AesSteps(t), UserRoundKeys(t, key);
      Decrypt(f, DecryptKeys(f, keys), Encrypt(f, keys, b)) == b
  {
    AesUndone(t);
    InverseOnBlocks(AesSteps(t), UserRoundKeys(t, key), b);
  }

  lemma InverseOnBlocks(f: Steps<State>, keys: seq<State>, b: seq<u8>)
    requires Undone(f) && 2 <= |keys| && |b| == 16
    ensures Decrypt(f, DecryptKeys(f, keys), Encrypt(f, keys, b)) == b
  {
    InvCipherUndoesCipher(f, keys, BlockState(b));
  }

  // ---------- AES_encrypt and AES_decrypt ----------

  type Block = b: seq<u8> | |b| == 16 witness seq(16, _ => 0)

  /** The steps a key is used with, its round keys, and the functions on blocks that they give. */
  datatype Blocks = Blocks(f: Steps<State>, keys: seq<State>, e: Block -> Block, d: Block -> Block)

  /** A key whose number of rounds AES_set_encrypt_key chose, and what its words stand for. */
  ghost predicate Realises(t: Tables, key: AesKey, g: Blocks)
    reads key, key.rdKey
  {
    && Computes(TeLookups(t), g.f) && Computes(TdLookups(t), Inverted(g.f))
    && (key.rounds == 10 || key.rounds == 12 || key.rounds == 14) && 4 * key.rounds + 4 <= key.rdKey.Length
    && g.keys == RoundKeys(key.rdKey[..], key.rounds)
    && (forall b: Block {:trigger Encrypt(g.f, g.keys, b)} :: Encrypt(g.f, g.keys, b) == g.e(b))
    && (forall b: Block {:trigger Decrypt(g.f, g.keys, b)} :: Decrypt(g.f, g.keys, b) == g.d(b))
  }

  /** The sequence `s` with `b` written over it at `o`. */
  function Over(s: seq<u8>, o: nat, b: seq<u8>): (r: seq<u8>)
    requires o + |b| <= |s|
    ensures |r| == |s|
  {
    s[..o] + b + s[o + |b|..]
  }

  /** The store of a block, a byte at a time. */
  method Put(out: array<u8>, o: nat, b: seq<u8>)
    requires o + |b| <= out.Length
    modifies out
    ensures out[..] == Over(old(out[..]), o, b)
  {
    for k := 0 to |b|
      invariant forall i :: 0 <= i < out.Length ==> out[i] == if o <= i < o + k then b[i - o] else old(out[i])
    {
      out[o + k] := b[k];
    }
  }

  /** A block through the loop of one direction. */
  method Crypt(l: Lookups<State>, keys: seq<State>, nr: nat, b: Block, ghost f: Steps<State>) returns (c: Block)
    requires Computes(l, f) && 2 <= nr && nr % 2 == 0 && |keys| == nr + 1
    ensures c == StateBlock(Cipher(f, keys, BlockState(b)))
  {
    var s := Run(l, keys, nr, BlockState(b), f);
    c := StateBlock(s);
  }

  /** AES_encrypt; the input may lie in the output array. */
  method EncryptBlock(t: Tables, inp: array<u8>, i: nat, out: array<u8>, o: nat, key: AesKey, ghost g: Blocks)
    requires Realises(t, key, g) && i + 16 <= inp.Length && o + 16 <= out.Length
    modifies out
    ensures out[..] == Over(old(out[..]), o, g.e(old(inp[i..i + 16])))
  {
    var b := inp[i..i + 16];
    var c := Crypt(TeLookups(t), RoundKeys(key.rdKey[..], key.rounds), key.rounds, b, g.f);
    assert c == Encrypt(g.f, g.keys, b);
    Put(out, o, c);
  }

  /** AES_decrypt; the input may lie in the output array. */
  method DecryptBlock(t: Tables, inp: array<u8>, i: nat, out: array<u8>, o: nat, key: AesKey, ghost g: Blocks)
    requires Realises(t, key, g) && i + 16 <= inp.Length && o + 16 <= out.Length
    modifies out
    ensures out[..] == Over(old(out[..]), o, g.d(old(inp[i..i + 16])))
  {
    var b := inp[i..i + 16];
    var c := Crypt(TdLookups(t), RoundKeys(key.rdKey[..], key.rounds), key.rounds, b, Inverted(g.f));
    assert c == Decrypt(g.f, g.keys, b);
    Put(out, o, c);
  }
}
