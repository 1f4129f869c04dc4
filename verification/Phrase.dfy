/**
 * Recovery phrases: a 32-byte seed as 24 words of 11 bits each, over a 33-byte buffer whose last
 * byte is zero when encoding and is dropped when decoding.
 */
module Phrase {
  import opened Common
  import opened Bits
  import opened Words

  const SEED_LEN := 32
  const PHRASE_WORDS := 24

  ghost predicate IsSeed(seed: seq<nat>) {
    |seed| == SEED_LEN && AllBelow(seed, 256)
  }

  // ---------------------------------------------------------------------------------------------
  // What the two functions compute, on bits

  /** The bits of the seed followed by eight zeros, in groups of eleven. */
  function SeedIndices(seed: seq<nat>): seq<nat> {
    Pack(Unpack(seed + [0], 8), 11)
  }

  /** The bits of the indices in groups of eight, without the last group. */
  function IndicesSeed(idx: seq<nat>): (seed: seq<nat>)
    requires |idx| == PHRASE_WORDS
    ensures |seed| == SEED_LEN
  {
    UnpackLength(idx, 11);
    UnpackPack(Unpack(idx, 11), 8, 33);
    Pack(Unpack(idx, 11), 8)[..SEED_LEN]
  }

  lemma SeedIndicesFacts(seed: seq<nat>)
    requires IsSeed(seed)
    ensures |SeedIndices(seed)| == PHRASE_WORDS && AllBelow(SeedIndices(seed), 2048)
    ensures Unpack(SeedIndices(seed), 11) == Unpack(seed, 8) + Zeros(8)
    ensures |Unpack(seed, 8)| == 256
  {
    UnpackLength(seed + [0], 8);
    UnpackLength(seed, 8);
    UnpackPack(Unpack(seed + [0], 8), 11, 24);
    assert Pow2(11) == 2048;
    UnpackSnoc(seed, 0, 8);
    ZeroBits(8);
  }

  function PhraseOf(list: seq<string>, seed: seq<nat>): string
    requires |list| == 2048 && IsSeed(seed)
  {
    SeedIndicesFacts(seed);
    Join(WordsAt(list, SeedIndices(seed)), ' ')
  }

  function SeedOf(list: seq<string>, phrase: string): Result<seq<nat>, CodeError> {
    var ws := SplitWhitespace(phrase);
    if |ws| != PHRASE_WORDS then Err(WrongWordCount(|ws|))
    else
      match Indices(list, ws)
      case Err(w) => Err(UnknownWord(w))
      case Ok(idx) => Ok(IndicesSeed(idx))
  }

  // ---------------------------------------------------------------------------------------------
  // The bit loops compute it

  /** The value of bits `start` to `b` of the row. */
  ghost function Group(bytes: seq<nat>, start: nat, b: nat): nat
    requires start <= b <= |Unpack(bytes, 8)|
  {
    Val(Unpack(bytes, 8)[start..b])
  }

  /** The first `i` indices are done. */
  ghost predicate Grouped(bytes: seq<nat>, i: nat, idx: seq<nat>) {
    && |Unpack(bytes, 8)| == 264 && i <= 24 && |idx| == i && AllBelow(idx, 2048)
    && Pack(Unpack(bytes, 8), 11) == idx + Pack(Unpack(bytes, 8)[11 * i..], 11)
  }

  /** The inner loop of `seed_to_phrase`. */
  method ReadGroup(bits: array<nat>, start: nat, end: nat) returns (v: nat)
    requires start <= end <= 8 * bits.Length == |Unpack(bits[..], 8)|
    ensures v == Group(bits[..], start, end)
  {
    v := 0;
    for b := start to end
      invariant v == Group(bits[..], start, b)
    {
      var byte := bits[b / 8];
      var bit := ShiftBit(byte, 7 - b % 8);
      NextBit(bits[..], start, b);
      v := 2 * v + bit;
    }
  }

  /** `seed_to_phrase`. */
  method SeedToPhrase(list: seq<string>, seed: seq<nat>) returns (phrase: string)
    requires |list| == 2048 && IsSeed(seed)
    ensures phrase == PhraseOf(list, seed)
  {
    var bits := new nat[33](_ => 0);
    forall k | 0 <= k < SEED_LEN {
      bits[k] := seed[k];
    }
    ghost var bytes := bits[..];
    assert bytes == seed + [0];
    var words: seq<string> := [];
    ghost var idx: seq<nat> := [];
    NothingGrouped(bytes);
    for i := 0 to 24
      invariant bits[..] == bytes
      invariant Grouped(bytes, i, idx)
      invariant words == WordsAt(list, idx)
    {
      var start := i * 11;
      var v := ReadGroup(bits, start, start + 11);
      NextGroup(bytes, i, idx);
      assert (idx + [v])[i] < 2048;
      idx := idx + [v];
      words := words + [list[v]];
    }
    AllGrouped(seed, bytes, idx);
    phrase := Join(words, ' ');
  }

  /** Bit `b` of the row is bit `7 - b % 8` of byte `b / 8`. */
  lemma BitOfByte(bytes: seq<nat>, b: nat)
    requires b < 8 * |bytes| == |Unpack(bytes, 8)|
    ensures Unpack(bytes, 8)[b] == ShiftBit(bytes[b / 8], 7 - b % 8)
  {
    UnpackLength(bytes[..b / 8], 8);
    RowBit(bytes, 8, b / 8, b % 8);
  }

  lemma NextBit(bytes: seq<nat>, start: nat, b: nat)
    requires start <= b < 8 * |bytes| == |Unpack(bytes, 8)|
    ensures Group(bytes, start, b + 1) == 2 * Group(bytes, start, b) + ShiftBit(bytes[b / 8], 7 - b % 8)
  {
    BitOfByte(bytes, b);
    ValSnoc(Unpack(bytes, 8), start, b);
  }

  lemma ValSnoc(row: seq<Bit>, start: nat, b: nat)
    requires start <= b < |row|
    ensures Val(row[start..b + 1]) == 2 * Val(row[start..b]) + row[b]
  {
    assert row[start..b + 1][..b - start] == row[start..b];
  }

  lemma NothingGrouped(bytes: seq<nat>)
    requires |bytes| == 33
    ensures Grouped(bytes, 0, [])
  {
    UnpackLength(bytes, 8);
    assert Unpack(bytes, 8)[0..] == Unpack(bytes, 8);
  }

  lemma NextGroup(bytes: seq<nat>, i: nat, idx: seq<nat>)
    requires Grouped(bytes, i, idx) && i < 24
    ensures Grouped(bytes, i + 1, idx + [Group(bytes, 11 * i, 11 * i + 11)])
  {
    var row := Unpack(bytes, 8);
    var v := Group(bytes, 11 * i, 11 * i + 11);
    PackStep(row, 11 * i, 11);
    Associative(idx, [v], Pack(row[11 * i + 11..], 11));
    assert Pow2(11) == 2048;
  }

  lemma PackStep(row: seq<Bit>, start: nat, n: nat)
    requires 0 < n && start + n <= |row|
    ensures Pack(row[start..], n) == [Val(row[start..start + n])] + Pack(row[start + n..], n)
    ensures Val(row[start..start + n]) < Pow2(n)
  {
    assert row[start..][..n] == row[start..start + n] && row[start..][n..] == row[start + n..];
    BitsOfVal(row[start..start + n]);
  }

  lemma AllGrouped(seed: seq<nat>, bytes: seq<nat>, idx: seq<nat>)
    requires bytes == seed + [0] && Grouped(bytes, 24, idx)
    ensures SeedIndices(seed) == idx
  {
    assert Unpack(bytes, 8)[264..] == [];
  }

  /** The buffer starts with these bits and is zero behind them. */
  ghost predicate Filled(bytes: seq<nat>, done: seq<Bit>) {
    && |bytes| == 33 && AllBelow(bytes, 256)
    && |done| <= 264 && Unpack(bytes, 8) == done + Zeros(264 - |done|)
  }

  /** The inner loop of `phrase_to_seed`: index `w` goes into the eleven bits after the first `11 * i`. */
  method StoreIndex(bits: array<nat>, i: nat, w: nat, ghost done: seq<Bit>)
    requires bits.Length == 33 && i < 24 && |done| == 11 * i && Filled(bits[..], done)
    modifies bits
    ensures Filled(bits[..], done + BitsOf(w, 11))
  {
    ghost var group := BitsOf(w, 11);
    assert done + group[..0] == done;
    for j := 0 to 11
      invariant Filled(bits[..], done + group[..j])
    {
      var global := i * 11 + j;
      var bit := ShiftBit(w, 10 - j);
      BitIsShift(w, 11, j);
      assert done + group[..j + 1] == done + group[..j] + [bit];
      ghost var bytes := SetNextBit(bits[..], done + group[..j], global, bit);
      bits[global / 8] := OrBit(bits[global / 8], 7 - global % 8, bit);
      assert bits[..] == bytes;
    }
    assert group[..11] == group;
  }

  /** `phrase_to_seed`. */
  method PhraseToSeed(list: seq<string>, phrase: string) returns (r: Result<seq<nat>, CodeError>)
    requires WordList(list)
    ensures r == SeedOf(list, phrase)
  {
    var words := SplitWhitespace(phrase);
    if |words| != PHRASE_WORDS {
      return Err(WrongWordCount(|words|));
    }
    var lookup := BuildLookup(list);
    var bits := new nat[33](_ => 0);
    ghost var idx: seq<nat> := [];
    ghost var done: seq<Bit> := [];
    UnpackZeros(bits[..], 8);
    for i := 0 to 24
      invariant Indices(list, words[..i]) == Ok(idx)
      invariant done == Unpack(idx, 11) && |done| == 11 * i
      invariant Filled(bits[..], done)
    {
      if words[i] !in lookup {
        FirstUnknown(list, words, i);
        return Err(UnknownWord(words[i]));
      }
      var w := lookup[words[i]];
      NextIndex(list, words, i, idx, w);
      StoreIndex(bits, i, w, done);
      UnpackSnoc(idx, w, 11);
      idx, done := idx + [w], done + BitsOf(w, 11);
    }
    assert words[..24] == words;
    AllFilled(bits[..], idx);
    r := Ok(bits[..SEED_LEN]);
  }

  /** `bits[global / 8] |= bit << (7 - global % 8)` on a clear bit stores `bit` there. */
  lemma SetNextBit(bytes: seq<nat>, done: seq<Bit>, global: nat, bit: Bit) returns (bytes': seq<nat>)
    requires global == |done| < 264 && Filled(bytes, done)
    ensures bytes' == bytes[global / 8 := OrBit(bytes[global / 8], 7 - global % 8, bit)]
    ensures Filled(bytes', done + [bit])
  {
    bytes' := bytes[global / 8 := OrBit(bytes[global / 8], 7 - global % 8, bit)];
    UnpackLength(bytes[..global / 8], 8);
    assert Pow2(8) == 256;
    SetRowBit(bytes, 8, global / 8, global % 8, bit, global);
    ReplaceZero(done, bit, 264 - global);
  }

  lemma ReplaceZero(done: seq<Bit>, bit: Bit, left: nat)
    requires left > 0
    ensures (done + Zeros(left))[|done| := bit] == done + [bit] + Zeros(left - 1)
  {
  }

  lemma AllFilled(bytes: seq<nat>, idx: seq<nat>)
    requires |idx| == 24 && |Unpack(idx, 11)| == 264 && Filled(bytes, Unpack(idx, 11))
    ensures bytes[..SEED_LEN] == IndicesSeed(idx)
  {
    assert Unpack(bytes, 8) == Unpack(idx, 11);
    assert Pow2(8) == 256;
    PackUnpack(bytes, 8);
  }

  // ---------------------------------------------------------------------------------------------
  // Round trips

  /** Decoding keeps the first 256 of the 264 bits. */
  lemma SeedBits(idx: seq<nat>)
    requires |idx| == PHRASE_WORDS
    ensures |Unpack(idx, 11)| == 264 && IsSeed(IndicesSeed(idx))
    ensures Unpack(IndicesSeed(idx), 8) == Unpack(idx, 11)[..256]
  {
    var row := Unpack(idx, 11);
    UnpackLength(idx, 11);
    PackTake(row, 8, 32);
    UnpackPack(row[..256], 8, 32);
    assert Pow2(8) == 256;
  }

  /** Those are the bits of the first 23 indices and the top three bits of the last one. */
  lemma RowHalves(idx: seq<nat>)
    requires |idx| == PHRASE_WORDS
    ensures |Unpack(idx, 11)| == 264 && |Unpack(idx[..23], 11)| == 253
    ensures Unpack(idx, 11)[..256] == Unpack(idx[..23], 11) + BitsOf(idx[23] / 256, 3)
    ensures Unpack(idx, 11)[256..] == BitsOf(idx[23], 8)
  {
    UnpackLength(idx, 11);
    UnpackLength(idx[..23], 11);
    UnpackSnoc(idx[..23], idx[23], 11);
    assert idx == idx[..23] + [idx[23]];
    BitsSplit(idx[23], 3, 8);
    ShrIsDiv(idx[23], 8);
    assert Pow2(8) == 256;
  }

  lemma ReadingBack(list: seq<string>, idx: seq<nat>)
    requires WordList(list) && InRange(idx, list) && |idx| == PHRASE_WORDS
    ensures SplitWhitespace(Join(WordsAt(list, idx), ' ')) == WordsAt(list, idx)
    ensures SeedOf(list, Join(WordsAt(list, idx), ' ')) == Ok(IndicesSeed(idx))
  {
    WordsAreFree(list, idx);
    SplitJoin(WordsAt(list, idx), ' ', IsWhitespace);
    NonEmptyKeeps(WordsAt(list, idx));
    IndicesOfWords(list, idx);
  }

  /** Every seed survives being written down as a phrase and read back. */
  lemma SeedRoundTrip(list: seq<string>, seed: seq<nat>)
    requires WordList(list) && IsSeed(seed)
    ensures SeedOf(list, PhraseOf(list, seed)) == Ok(seed)
  {
    var idx := SeedIndices(seed);
    SeedIndicesFacts(seed);
    ReadingBack(list, idx);
    SeedBits(idx);
    assert Unpack(idx, 11)[..256] == Unpack(seed, 8);
    assert Pow2(8) == 256;
    UnpackInjective(IndicesSeed(idx), seed, 8);
  }

  /** A phrase is accepted exactly when it has 24 words and all are in the list; there is no checksum. */
  lemma AcceptedIff(list: seq<string>, phrase: string)
    ensures var ws := SplitWhitespace(phrase);
            SeedOf(list, phrase).Ok? <==> |ws| == 24 && forall i :: 0 <= i < |ws| ==> ws[i] in list
  {
    IndicesFailIff(list, SplitWhitespace(phrase));
  }

  /** The word indices of an accepted phrase. */
  function IndicesOf(list: seq<string>, phrase: string): (idx: seq<nat>)
    requires SeedOf(list, phrase).Ok?
    ensures |idx| == PHRASE_WORDS && InRange(idx, list)
  {
    Indices(list, SplitWhitespace(phrase)).value
  }

  /** Two phrases decode alike exactly when 23 words agree and the last ones agree in the top three bits. */
  lemma DecodeAlikeIff(list: seq<string>, p: string, q: string)
    requires WordList(list) && SeedOf(list, p).Ok? && SeedOf(list, q).Ok?
    ensures var a, b := IndicesOf(list, p), IndicesOf(list, q);
            SeedOf(list, p) == SeedOf(list, q) <==> a[..23] == b[..23] && a[23] / 256 == b[23] / 256
  {
    SameSeedIff(IndicesOf(list, p), IndicesOf(list, q));
  }

  lemma SameSeedIff(a: seq<nat>, b: seq<nat>)
    requires |a| == |b| == PHRASE_WORDS && AllBelow(a, 2048) && AllBelow(b, 2048)
    ensures IndicesSeed(a) == IndicesSeed(b) <==> a[..23] == b[..23] && a[23] / 256 == b[23] / 256
  {
    SeedBits(a);
    SeedBits(b);
    RowHalves(a);
    RowHalves(b);
    assert Pow2(8) == 256 && Pow2(11) == 2048 && Pow2(3) == 8;
    var a', b' := Unpack(a[..23], 11), Unpack(b[..23], 11);
    if IndicesSeed(a) == IndicesSeed(b) {
      var row := Unpack(IndicesSeed(a), 8);
      assert a' == row[..253] == b' && BitsOf(a[23] / 256, 3) == row[253..] == BitsOf(b[23] / 256, 3);
      UnpackInjective(a[..23], b[..23], 11);
      BitsInjective(a[23] / 256, b[23] / 256, 3);
    } else if a[..23] == b[..23] && a[23] / 256 == b[23] / 256 {
      UnpackInjective(IndicesSeed(a), IndicesSeed(b), 8);
    }
  }

  /** Re-encoding gives an accepted phrase's words back exactly when the last index is a multiple of 256. */
  lemma ReencodeIff(list: seq<string>, phrase: string)
    requires WordList(list) && SeedOf(list, phrase).Ok?
    ensures IsSeed(SeedOf(list, phrase).value)
    ensures PhraseOf(list, SeedOf(list, phrase).value) == Join(SplitWhitespace(phrase), ' ')
            <==> IndicesOf(list, phrase)[23] % 256 == 0
  {
    var idx := IndicesOf(list, phrase);
    var seed := IndicesSeed(idx);
    SeedBits(idx);
    SeedIndicesFacts(seed);
    WordsOfIndices(list, SplitWhitespace(phrase));
    SameIndicesIff(idx);
    if PhraseOf(list, seed) == Join(SplitWhitespace(phrase), ' ') {
      ReadingBack(list, SeedIndices(seed));
      ReadingBack(list, idx);
      IndicesInjective(list, SeedIndices(seed), idx);
    }
  }

  lemma SameIndicesIff(idx: seq<nat>)
    requires |idx| == PHRASE_WORDS && AllBelow(idx, 2048)
    ensures IsSeed(IndicesSeed(idx))
    ensures SeedIndices(IndicesSeed(idx)) == idx <==> idx[23] % 256 == 0
  {
    var seed := IndicesSeed(idx);
    var row := Unpack(idx, 11);
    SeedBits(idx);
    SeedIndicesFacts(seed);
    RowHalves(idx);
    ZeroBitsIff(idx[23], 8);
    assert Pow2(8) == 256;
    assert row == row[..256] + row[256..];
    assert Unpack(SeedIndices(seed), 11) == row[..256] + Zeros(8);
    assert Unpack(SeedIndices(seed), 11)[256..] == Zeros(8);
    if idx[23] % 256 == 0 {
      assert Pow2(11) == 2048;
      UnpackInjective(SeedIndices(seed), idx, 11);
    }
  }

  /** Every seed has a phrase for each value of the bits that decoding strips. */
  lemma PhraseWithStripped(list: seq<string>, seed: seq<nat>, k: nat) returns (phrase: string)
    requires WordList(list) && IsSeed(seed) && k < 256
    ensures SeedOf(list, phrase) == Ok(seed) && IndicesOf(list, phrase)[23] % 256 == k
  {
    var idx := SeedIndices(seed);
    SeedIndicesFacts(seed);
    SeedRoundTrip(list, seed);
    ReadingBack(list, idx);
    SameIndicesIff(idx);
    var idx' := idx[23 := idx[23] + k];
    LastIndexFits(idx[23], k);
    SameSeedIff(idx, idx');
    phrase := Join(WordsAt(list, idx'), ' ');
    ReadingBack(list, idx');
    IndicesOfWords(list, idx');
  }

  lemma LastIndexFits(v: nat, k: nat)
    requires v < 2048 && v % 256 == 0 && k < 256
    ensures v + k < 2048 && (v + k) / 256 == v / 256 && (v + k) % 256 == k
  {
  }

  /** So the words do not stand for the seed alone: for every list, each seed has two phrases of other words. */
  lemma TwoPhrasesOneSeed(list: seq<string>, seed: seq<nat>) returns (p: string, q: string)
    requires WordList(list) && IsSeed(seed)
    ensures SplitWhitespace(p) != SplitWhitespace(q)
    ensures SeedOf(list, p) == SeedOf(list, q) == Ok(seed)
    ensures PhraseOf(list, seed) == Join(SplitWhitespace(p), ' ') && PhraseOf(list, seed) != Join(SplitWhitespace(q), ' ')
  {
    p := PhraseWithStripped(list, seed, 0);
    q := PhraseWithStripped(list, seed, 1);
    ReencodeIff(list, p);
    ReencodeIff(list, q);
  }
}
