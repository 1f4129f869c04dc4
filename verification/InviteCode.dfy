/**
 * Invite codes: 44 bits as four words joined with dashes. The canonical token holds them in the
 * top 44 bits of 32 bytes.
 */
module InviteCode {
  import opened Common
  import opened Bits
  import opened Words

  const CODE_WORDS := 4
  const CANONICAL_TOKEN_LEN := 32
  const TOKEN_PREFIX_LEN := 6

  ghost predicate IsToken(token: seq<nat>) {
    |token| == CANONICAL_TOKEN_LEN && AllBelow(token, 256)
  }

  // ---------------------------------------------------------------------------------------------
  // What the two functions compute, on bits

  /** The first 44 bits of the token in groups of eleven. */
  function CodeIndices(token: seq<nat>): seq<nat>
    requires |token| == CANONICAL_TOKEN_LEN
  {
    UnpackLength(token, 8);
    Pack(Unpack(token, 8)[..44], 11)
  }

  /** The bits of the indices, then zeros, in groups of eight. */
  function Canonical(idx: seq<nat>): seq<nat> {
    Pack(Unpack(idx, 11) + Zeros(212), 8)
  }

  lemma CodeIndicesFacts(token: seq<nat>)
    requires |token| == CANONICAL_TOKEN_LEN
    ensures |CodeIndices(token)| == CODE_WORDS && AllBelow(CodeIndices(token), 2048)
    ensures |Unpack(token, 8)| == 256 && Unpack(CodeIndices(token), 11) == Unpack(token, 8)[..44]
  {
    UnpackLength(token, 8);
    UnpackPack(Unpack(token, 8)[..44], 11, 4);
    assert Pow2(11) == 2048;
  }

  lemma CanonicalFacts(idx: seq<nat>)
    requires |idx| == CODE_WORDS
    ensures IsToken(Canonical(idx))
    ensures |Unpack(idx, 11)| == 44 && Unpack(Canonical(idx), 8) == Unpack(idx, 11) + Zeros(212)
  {
    UnpackLength(idx, 11);
    UnpackPack(Unpack(idx, 11) + Zeros(212), 8, 32);
    assert Pow2(8) == 256;
  }

  function EncodeOf(list: seq<string>, token: seq<nat>): string
    requires |list| == 2048 && IsToken(token)
  {
    CodeIndicesFacts(token);
    Join(WordsAt(list, CodeIndices(token)), '-')
  }

  function DecodeOf(list: seq<string>, lower: string -> string, code: string): Result<seq<nat>, CodeError> {
    var parts := Split(lower(Trim(code)), IsDash);
    if |parts| != CODE_WORDS then Err(WrongWordCount(|parts|))
    else
      match Indices(list, parts)
      case Err(w) => Err(UnknownWord(w))
      case Ok(idx) => Ok(Canonical(idx))
  }

  // ---------------------------------------------------------------------------------------------
  // The shifts and masks compute it

  /** The six byte stores of `canonical_token_from_n44`. */
  method StorePrefix(out: array<nat>, prefix: nat)
    requires out.Length == 32
    modifies out
    ensures out[0] == Shr(prefix, 40) % 256 && out[1] == Shr(prefix, 32) % 256 && out[2] == Shr(prefix, 24) % 256
    ensures out[3] == Shr(prefix, 16) % 256 && out[4] == Shr(prefix, 8) % 256 && out[5] == prefix % 256
    ensures forall i :: 6 <= i < 32 ==> out[i] == old(out[i])
  {
    out[0] := Shr(prefix, 40) % 256;
    out[1] := Shr(prefix, 32) % 256;
    out[2] := Shr(prefix, 24) % 256;
    out[3] := Shr(prefix, 16) % 256;
    out[4] := Shr(prefix, 8) % 256;
    out[5] := prefix % 256;
  }

  /** `canonical_token_from_n44`. */
  method CanonicalToken(n44: nat) returns (token: seq<nat>)
    requires n44 < Pow2(44)
    ensures IsToken(token) && Unpack(token, 8) == BitsOf(n44, 44) + Zeros(212)
  {
    var prefix := Shl(n44, 4);
    var out := new nat[32](_ => 0);
    StorePrefix(out, prefix);
    token := out[..];
    PrefixBytes(n44, prefix, token);
  }

  lemma PrefixBytes(n44: nat, prefix: nat, token: seq<nat>)
    requires |token| == 32 && prefix == Shl(n44, 4)
    requires token[0] == Shr(prefix, 40) % 256 && token[1] == Shr(prefix, 32) % 256 && token[2] == Shr(prefix, 24) % 256
    requires token[3] == Shr(prefix, 16) % 256 && token[4] == Shr(prefix, 8) % 256 && token[5] == prefix % 256
    requires forall i :: 6 <= i < 32 ==> token[i] == 0
    ensures IsToken(token) && Unpack(token, 8) == BitsOf(n44, 44) + Zeros(212)
  {
    var head, tail := token[..6], token[6..];
    SixBytes(prefix, head);
    DigitsBits(prefix, 8, 6);
    assert Pow2(8) == 256;
    assert token == head + tail;
    assert forall i :: 0 <= i < 6 ==> token[i] == head[i];
    UnpackAppend(head, tail, 8);
    UnpackZeros(tail, 8);
    ShiftedBits(n44, 44, 4);
    ZerosSum(4, 208);
    Associative(BitsOf(n44, 44), Zeros(4), Zeros(208));
  }

  lemma {:induction false} SixBytes(v: nat, bytes: seq<nat>)
    requires |bytes| == 6
    requires bytes[0] == Shr(v, 40) % 256 && bytes[1] == Shr(v, 32) % 256 && bytes[2] == Shr(v, 24) % 256
    requires bytes[3] == Shr(v, 16) % 256 && bytes[4] == Shr(v, 8) % 256 && bytes[5] == v % 256
    ensures bytes == Digits(v, 8, 6)
  {
    assert Pow2(8) == 256;
    DigitIsShift(v, 8, 6, 0);
    DigitIsShift(v, 8, 6, 1);
    DigitIsShift(v, 8, 6, 2);
    DigitIsShift(v, 8, 6, 3);
    DigitIsShift(v, 8, 6, 4);
    DigitIsShift(v, 8, 6, 5);
    assert Times(8, 5) == 40 && Times(8, 4) == 32 && Times(8, 3) == 24 && Times(8, 2) == 16 && Times(8, 1) == 8;
    assert Shr(v, 0) == v;
  }

  lemma {:induction false} ShiftedBits(v: nat, n: nat, k: nat)
    ensures BitsOf(Shl(v, k), n + k) == BitsOf(v, n) + Zeros(k)
  {
    if k == 0 {
    } else {
      ShiftedBits(v, n, k - 1);
      assert Zeros(k) == Zeros(k - 1) + [0];
    }
  }

  /** `n44_from_token_prefix`. */
  method N44FromTokenPrefix(token: seq<nat>) returns (n44: nat)
    requires IsToken(token)
    ensures |Unpack(token, 8)| == 256 && BitsOf(n44, 44) == Unpack(token, 8)[..44]
  {
    var n: nat := 0;
    for k := 0 to TOKEN_PREFIX_LEN
      invariant n == Val(Unpack(token[..k], 8))
    {
      assert token[..k + 1] == token[..k] + [token[k]];
      assert Pow2(8) == 256;
      UnpackSnoc(token[..k], token[k], 8);
      ValAppend(Unpack(token[..k], 8), token[k], 8);
      n := Shl(n, 8) + token[k];
    }
    n44 := Shr(n, 4);
    Top44Bits(token, n);
  }

  lemma Top44Bits(token: seq<nat>, n: nat)
    requires |token| == 32 && n == Val(Unpack(token[..6], 8))
    ensures |Unpack(token, 8)| == 256 && BitsOf(Shr(n, 4), 44) == Unpack(token, 8)[..44]
  {
    UnpackLength(token, 8);
    UnpackLength(token[..6], 8);
    UnpackAppend(token[..6], token[6..], 8);
    assert token == token[..6] + token[6..];
    BitsOfVal(Unpack(token[..6], 8));
    BitsSplit(n, 44, 4);
  }

  /** `encode_code`. */
  method EncodeCode(list: seq<string>, token: seq<nat>) returns (code: string)
    requires |list| == 2048 && IsToken(token)
    ensures code == EncodeOf(list, token)
  {
    var n44 := N44FromTokenPrefix(token);
    var w0 := Shr(n44, 33) % 2048;
    var w1 := Shr(n44, 22) % 2048;
    var w2 := Shr(n44, 11) % 2048;
    var w3 := n44 % 2048;
    var idx := [w0, w1, w2, w3];
    FourWords(n44, idx);
    CodeIndicesFacts(token);
    assert Pow2(11) == 2048;
    UnpackInjective(idx, CodeIndices(token), 11);
    code := Join(WordsAt(list, idx), '-');
  }

  lemma FourWords(v: nat, idx: seq<nat>)
    requires |idx| == 4
    requires idx[0] == Shr(v, 33) % 2048 && idx[1] == Shr(v, 22) % 2048 && idx[2] == Shr(v, 11) % 2048 && idx[3] == v % 2048
    ensures AllBelow(idx, 2048) && Unpack(idx, 11) == BitsOf(v, 44)
  {
    assert Pow2(11) == 2048;
    DigitIsShift(v, 11, 4, 0);
    DigitIsShift(v, 11, 4, 1);
    DigitIsShift(v, 11, 4, 2);
    DigitIsShift(v, 11, 4, 3);
    assert Times(11, 3) == 33 && Times(11, 2) == 22 && Times(11, 1) == 11;
    assert Shr(v, 0) == v;
    assert idx == Digits(v, 11, 4);
    DigitsBits(v, 11, 4);
  }

  /** `decode_code`; `lower` is `str::to_lowercase`. */
  method DecodeCode(list: seq<string>, lower: string -> string, code: string) returns (r: Result<seq<nat>, CodeError>)
    requires WordList(list)
    ensures r == DecodeOf(list, lower, code)
  {
    var parts := Split(lower(Trim(code)), IsDash);
    if |parts| != CODE_WORDS {
      return Err(WrongWordCount(|parts|));
    }
    var lookup := BuildLookup(list);
    var indices := new nat[4](_ => 0);
    for k := 0 to CODE_WORDS
      invariant Indices(list, parts[..k]) == Ok(indices[..k])
    {
      if parts[k] !in lookup {
        FirstUnknown(list, parts, k);
        return Err(UnknownWord(parts[k]));
      }
      ghost var was := indices[..k];
      indices[k] := lookup[parts[k]];
      NextIndex(list, parts, k, was, indices[k]);
      assert indices[..k + 1] == was + [indices[k]];
    }
    assert parts[..4] == parts && indices[..4] == indices[..];
    var n44 := Shl(indices[0], 33) + Shl(indices[1], 22) + Shl(indices[2], 11) + indices[3];
    IndicesValue(indices[..], n44);
    var token := CanonicalToken(n44);
    TokenIsCanonical(indices[..], token);
    r := Ok(token);
  }

  lemma TokenIsCanonical(idx: seq<nat>, token: seq<nat>)
    requires |idx| == CODE_WORDS && IsToken(token) && Unpack(token, 8) == Unpack(idx, 11) + Zeros(212)
    ensures token == Canonical(idx)
  {
    CanonicalFacts(idx);
    assert Pow2(8) == 256;
    UnpackInjective(token, Canonical(idx), 8);
  }

  /** The shifted indices do not overlap, so `|` adds them up. */
  lemma IndicesValue(idx: seq<nat>, n44: nat)
    requires |idx| == 4 && AllBelow(idx, 2048)
    requires n44 == Shl(idx[0], 33) + Shl(idx[1], 22) + Shl(idx[2], 11) + idx[3]
    ensures n44 < Pow2(44) && BitsOf(n44, 44) == Unpack(idx, 11)
  {
    ThreeShifts(idx[0], idx[1], idx[2]);
    FourDigits(idx, 11);
    assert Pow2(11) == 2048;
    HornerIsValue(idx, 11);
    UnpackLength(idx, 11);
    BitsOfVal(Unpack(idx, 11));
  }

  lemma ThreeShifts(a: nat, b: nat, c: nat)
    ensures Shl(Shl(Shl(a, 11) + b, 11) + c, 11) == Shl(a, 33) + Shl(b, 22) + Shl(c, 11)
  {
    ShlSum(Shl(a, 11), b, 11);
    ShlShl(a, 11, 11);
    ShlSum(Shl(a, 22) + Shl(b, 11), c, 11);
    ShlSum(Shl(a, 22), Shl(b, 11), 11);
    ShlShl(a, 22, 11);
    ShlShl(b, 11, 11);
  }

  lemma FourDigits(idx: seq<nat>, n: nat)
    requires |idx| == 4
    ensures Horner(idx, n) == Shl(Shl(Shl(idx[0], n) + idx[1], n) + idx[2], n) + idx[3]
  {
    var p3 := idx[..3];
    var p2 := p3[..2];
    var p1 := p2[..1];
    ShlZero(n);
    assert p1[..0] == [] && Horner(p1, n) == idx[0];
    assert Horner(p2, n) == Shl(idx[0], n) + idx[1];
    assert Horner(p3, n) == Shl(Shl(idx[0], n) + idx[1], n) + idx[2];
  }

  // ---------------------------------------------------------------------------------------------
  // Round trips

  /** The 44 bits a code carries, at byte level: five bytes, the high half of the sixth, then zeros. */
  function Top44(token: seq<nat>): (r: seq<nat>)
    requires |token| == CANONICAL_TOKEN_LEN
    ensures |r| == CANONICAL_TOKEN_LEN
  {
    token[..5] + [token[5] - token[5] % 16] + seq(26, _ => 0)
  }

  lemma Top44Row(token: seq<nat>)
    requires IsToken(token)
    ensures IsToken(Top44(token)) && |Unpack(token, 8)| == 256
    ensures Unpack(Top44(token), 8) == Unpack(token, 8)[..44] + Zeros(212)
  {
    var head, half, tail := token[..5], token[5] - token[5] % 16, seq(26, _ => 0);
    assert Top44(token) == head + [half] + tail;
    assert token == head + [token[5]] + token[6..];
    UnpackLength(token, 8);
    UnpackLength(head, 8);
    UnpackSnoc(head, half, 8);
    UnpackSnoc(head, token[5], 8);
    UnpackAppend(head + [half], tail, 8);
    UnpackAppend(head + [token[5]], token[6..], 8);
    UnpackZeros(tail, 8);
    HighHalf(token[5], half);
    HalfRow(Unpack(head, 8), BitsOf(token[5], 8), BitsOf(half, 8), Unpack(token[6..], 8));
  }

  /** Clearing the low four bits of a byte. */
  lemma HighHalf(b: nat, half: nat)
    requires half == b - b % 16
    ensures BitsOf(half, 8) == BitsOf(b, 8)[..4] + Zeros(4)
  {
    HighBits(b);
    HighBits(half);
    assert half / 16 == b / 16 && half % 16 == 0;
    assert Pow2(4) == 16;
    ZeroBitsIff(half, 4);
  }

  lemma HighBits(b: nat)
    ensures BitsOf(b, 8) == BitsOf(b / 16, 4) + BitsOf(b, 4)
    ensures BitsOf(b, 8)[..4] == BitsOf(b / 16, 4)
  {
    BitsSplit(b, 4, 4);
    ShrIsDiv(b, 4);
    assert Pow2(4) == 16;
  }

  lemma HalfRow(head: seq<Bit>, byte: seq<Bit>, half: seq<Bit>, rest: seq<Bit>)
    requires |head| == 40 && |byte| == 8 && half == byte[..4] + Zeros(4)
    ensures head + half + Zeros(208) == (head + byte + rest)[..44] + Zeros(212)
  {
    assert (head + byte + rest)[..44] == head + byte[..4];
  }

  lemma CanonicalOfCode(token: seq<nat>)
    requires IsToken(token)
    ensures |CodeIndices(token)| == CODE_WORDS && Canonical(CodeIndices(token)) == Top44(token)
  {
    Top44Row(token);
    CodeIndicesFacts(token);
    TokenIsCanonical(CodeIndices(token), Top44(token));
  }

  lemma CodeOfCanonical(idx: seq<nat>)
    requires |idx| == CODE_WORDS && AllBelow(idx, 2048)
    ensures IsToken(Canonical(idx)) && CodeIndices(Canonical(idx)) == idx
  {
    CanonicalFacts(idx);
    CodeIndicesFacts(Canonical(idx));
    assert Unpack(Canonical(idx), 8)[..44] == Unpack(idx, 11);
    assert Pow2(11) == 2048;
    UnpackInjective(CodeIndices(Canonical(idx)), idx, 11);
  }

  /** Nothing but lowercase letters and dashes. */
  ghost predicate Plain(s: string) {
    forall i :: 0 <= i < |s| ==> 'a' <= s[i] <= 'z' || s[i] == '-'
  }

  /** What is used of `str::to_lowercase`: it leaves lowercase letters and dashes alone. */
  ghost predicate LowerCases(lower: string -> string) {
    forall s: string :: Plain(s) ==> lower(s) == s
  }

  lemma {:induction false} JoinIsPlain(pieces: seq<string>)
    requires forall i :: 0 <= i < |pieces| ==> Plain(pieces[i])
    ensures Plain(Join(pieces, '-'))
  {
    if |pieces| > 1 {
      JoinIsPlain(pieces[1..]);
    }
  }

  lemma PlainIsTrimmed(s: string)
    requires Plain(s)
    ensures Trim(s) == s
  {
  }

  /** Every code the printer writes is read back: the token's top 44 bits, the rest zero. */
  lemma DecodeEncode(list: seq<string>, lower: string -> string, token: seq<nat>)
    requires WordList(list) && LowerCases(lower) && IsToken(token)
    ensures DecodeOf(list, lower, EncodeOf(list, token)) == Ok(Top44(token))
  {
    var idx := CodeIndices(token);
    CodeIndicesFacts(token);
    var ws := WordsAt(list, idx);
    WordsAreFree(list, idx);
    forall i | 0 <= i < |ws| ensures Plain(ws[i]) {
      assert IsWord(list[idx[i]]);
    }
    JoinIsPlain(ws);
    PlainIsTrimmed(Join(ws, '-'));
    SplitJoin(ws, '-', IsDash);
    IndicesOfWords(list, idx);
    CanonicalOfCode(token);
  }

  /** Every code the parser accepts is printed again as it was, but for blanks around it and case. */
  lemma EncodeDecode(list: seq<string>, lower: string -> string, code: string)
    requires WordList(list) && DecodeOf(list, lower, code).Ok?
    ensures IsToken(DecodeOf(list, lower, code).value)
    ensures EncodeOf(list, DecodeOf(list, lower, code).value) == lower(Trim(code))
  {
    var parts := Split(lower(Trim(code)), IsDash);
    var idx := Indices(list, parts).value;
    CodeOfCanonical(idx);
    WordsOfIndices(list, parts);
    JoinSplit(lower(Trim(code)));
  }

  /** A code is accepted exactly when it has four parts between dashes, each a word of the list. */
  lemma AcceptedIff(list: seq<string>, lower: string -> string, code: string)
    ensures var parts := Split(lower(Trim(code)), IsDash);
            DecodeOf(list, lower, code).Ok? <==> |parts| == 4 && forall i :: 0 <= i < |parts| ==> parts[i] in list
  {
    IndicesFailIff(list, Split(lower(Trim(code)), IsDash));
  }

  /** Two accepted codes stand for the same invite exactly when they differ at most in case and blanks around. */
  lemma SameTokenIff(list: seq<string>, lower: string -> string, c: string, d: string)
    requires WordList(list) && DecodeOf(list, lower, c).Ok? && DecodeOf(list, lower, d).Ok?
    ensures DecodeOf(list, lower, c) == DecodeOf(list, lower, d) <==> lower(Trim(c)) == lower(Trim(d))
  {
    EncodeDecode(list, lower, c);
    EncodeDecode(list, lower, d);
  }
}
