/** The two encodings of a set of key codes that `button.py` reads: 64-bit hex words,
    most significant word first, and a little-endian byte bitmap. */
module KeyBits {
  import opened Basics

  const WORD := 64

  /** Bit `b` of `v`. */
  predicate Bit(v: nat, b: nat)
    decreases b
  {
    if b == 0 then v % 2 == 1 else Bit(v / 2, b - 1)
  }

  lemma {:induction false} NoBitsInZero(b: nat)
    ensures !Bit(0, b)
  {
    if b > 0 { NoBitsInZero(b - 1); }
  }

  /** What the token list advertises: bit `b` of the token with `i` tokens after it is code `64 i + b`. */
  ghost predicate Advertises(words: seq<nat>, c: nat) {
    exists i: nat, b: nat :: HasBit(words, i, b) && c == i * WORD + b
  }

  predicate HasBit(words: seq<nat>, i: nat, b: nat) {
    i < |words| && Bit(words[|words| - 1 - i], b)
  }

  /** `_parse_key_bits`, on the tokens' values. */
  method ParseKeyBits(words: seq<nat>) returns (bits: set<nat>)
    ensures forall c: nat :: c in bits <==> Advertises(words, c)
  {
    var n := |words|;
    bits := {};
    var i := 0;
    hide SeenBefore, BitBelow, Shifted, Bit, Advertises;
    NothingSeen(words);
    while i < n
      invariant i <= n
      invariant forall c :: c in bits <==> SeenBefore(words, i, c)
    {
      var wordIndex := n - 1 - i;
      var value := words[i];
      var b := 0;
      ghost var before := bits;
      NothingBelow(value, wordIndex);
      while value != 0
        invariant Shifted(words[i], value, b)
        invariant forall c :: c in bits <==> c in before || BitBelow(words[i], b, wordIndex, c)
        decreases value
      {
        BitsShift(words[i], value, b);
        BelowGrows(words[i], b, wordIndex);
        if value % 2 == 1 {
          bits := bits + {wordIndex * WORD + b};
        }
        value := value / 2;
        b := b + 1;
      }
      WordDone(words, i, b, before, bits);
      i := i + 1;
    }
    AllSeen(words);
  }

  /** `value` is `v` without its `b` lowest bits. */
  ghost predicate Shifted(v: nat, value: nat, b: nat) {
    forall x: nat :: x >= b ==> (Bit(v, x) <==> Bit(value, x - b))
  }

  lemma NothingSeen(words: seq<nat>)
    ensures forall c :: !SeenBefore(words, 0, c)
  {
  }

  lemma NothingBelow(v: nat, wordIndex: nat)
    ensures Shifted(v, v, 0) && forall c :: !BitBelow(v, 0, wordIndex, c)
  {
  }

  ghost predicate SeenBefore(words: seq<nat>, i: nat, c: nat) {
    exists j: nat, b: nat :: j < i && j < |words| && Bit(words[j], b) && c == (|words| - 1 - j) * WORD + b
  }

  ghost predicate BitBelow(v: nat, b: nat, wordIndex: nat, c: nat) {
    exists x: nat :: x < b && Bit(v, x) && c == wordIndex * WORD + x
  }

  lemma BitsShift(v: nat, value: nat, b: nat)
    requires Shifted(v, value, b)
    ensures Bit(v, b) <==> value % 2 == 1
    ensures Shifted(v, value / 2, b + 1)
  {
    assert Bit(v, b) <==> Bit(value, 0);
    forall x: nat | x >= b + 1
      ensures Bit(v, x) <==> Bit(value / 2, x - (b + 1))
    {
      assert Bit(v, x) <==> Bit(value, x - b);
    }
  }

  lemma BelowGrows(v: nat, b: nat, wordIndex: nat)
    ensures forall c :: BitBelow(v, b + 1, wordIndex, c) <==>
      BitBelow(v, b, wordIndex, c) || (Bit(v, b) && c == wordIndex * WORD + b)
  {
    forall c
      ensures BitBelow(v, b + 1, wordIndex, c) <==>
        BitBelow(v, b, wordIndex, c) || (Bit(v, b) && c == wordIndex * WORD + b)
    {
      if BitBelow(v, b + 1, wordIndex, c) {
        var x: nat :| x < b + 1 && Bit(v, x) && c == wordIndex * WORD + x;
        assert x < b ==> BitBelow(v, b, wordIndex, c);
      }
      if BitBelow(v, b, wordIndex, c) {
        var x: nat :| x < b && Bit(v, x) && c == wordIndex * WORD + x;
        assert x < b + 1;
      }
    }
  }

  lemma WordDone(words: seq<nat>, i: nat, b: nat, before: set<nat>, bits: set<nat>)
    requires i < |words| && Shifted(words[i], 0, b)
    requires forall c :: c in before <==> SeenBefore(words, i, c)
    requires forall c :: c in bits <==> c in before || BitBelow(words[i], b, |words| - 1 - i, c)
    ensures forall c :: c in bits <==> SeenBefore(words, i + 1, c)
  {
    forall c
      ensures c in bits <==> SeenBefore(words, i + 1, c)
    {
      if SeenBefore(words, i + 1, c) {
        var j: nat, x: nat :| j < i + 1 && Bit(words[j], x) && c == (|words| - 1 - j) * WORD + x;
        if j == i {
          if x >= b { NoBitsInZero(x - b); }
          assert BitBelow(words[i], b, |words| - 1 - i, c);
        } else {
          assert SeenBefore(words, i, c);
        }
      }
      if SeenBefore(words, i, c) {
        var j: nat, x: nat :| j < i && Bit(words[j], x) && c == (|words| - 1 - j) * WORD + x;
        assert j < i + 1;
      }
      if BitBelow(words[i], b, |words| - 1 - i, c) {
        var x: nat :| x < b && Bit(words[i], x) && c == (|words| - 1 - i) * WORD + x;
        assert i < i + 1;
      }
    }
  }

  lemma AllSeen(words: seq<nat>)
    ensures forall c: nat :: SeenBefore(words, |words|, c) <==> Advertises(words, c)
  {
    forall c: nat
      ensures SeenBefore(words, |words|, c) <==> Advertises(words, c)
    {
      if SeenBefore(words, |words|, c) {
        var j: nat, b: nat :| j < |words| && Bit(words[j], b) && c == (|words| - 1 - j) * WORD + b;
        assert HasBit(words, |words| - 1 - j, b);
      }
      if Advertises(words, c) {
        var i: nat, b: nat :| HasBit(words, i, b) && c == i * WORD + b;
        var j := |words| - 1 - i;
        assert Bit(words[j], b) && |words| - 1 - j == i;
      }
    }
  }

  // ------------------------------------------------------------- printing a set, reading it back

  /** The `k` bits of `bits` from code `base` on, as a number. */
  function ValueOf(bits: set<nat>, base: nat, k: nat): nat
    decreases k
  {
    if k == 0 then 0 else (if base in bits then 1 else 0) + 2 * ValueOf(bits, base + 1, k - 1)
  }

  lemma {:induction false} ValueBits(bits: set<nat>, base: nat, k: nat, b: nat)
    ensures Bit(ValueOf(bits, base, k), b) <==> b < k && base + b in bits
    ensures ValueOf(bits, base, k) < Pow2(k)
    decreases k
  {
    if k == 0 {
      NoBitsInZero(b);
    } else {
      var rest := ValueOf(bits, base + 1, k - 1);
      ValueBits(bits, base + 1, k - 1, if b > 0 then b - 1 else 0);
      assert ValueOf(bits, base, k) / 2 == rest;
    }
  }

  /** `n` words, most significant first. */
  function Words(bits: set<nat>, n: nat): seq<nat> {
    seq(n, i requires 0 <= i < n => ValueOf(bits, (n - 1 - i) * WORD, WORD))
  }

  /** Any set of codes, printed with enough words, is advertised again exactly. */
  lemma PrintedIsAdvertised(bits: set<nat>, n: nat, c: nat)
    requires forall x | x in bits :: x < n * WORD
    ensures Advertises(Words(bits, n), c) <==> c in bits
  {
    var words := Words(bits, n);
    forall i: nat, b: nat
      ensures HasBit(words, i, b) <==> i < n && b < WORD && i * WORD + b in bits
    {
      PrintedBit(bits, n, i, b);
    }
    hide HasBit, Words;
    if c in bits {
      CodeSplits(c, n);
      assert HasBit(words, c / WORD, c % WORD);
    }
  }

  lemma CodeSplits(c: nat, n: nat)
    requires c < n * WORD
    ensures c == (c / WORD) * WORD + c % WORD && c / WORD < n && c % WORD < WORD
  {
  }

  lemma PrintedBit(bits: set<nat>, n: nat, i: nat, b: nat)
    ensures HasBit(Words(bits, n), i, b) <==> i < n && b < WORD && i * WORD + b in bits
  {
    hide Bit, ValueOf, Pow2;
    if i < n {
      ValueBits(bits, i * WORD, WORD, b);
      assert n - 1 - (n - 1 - i) == i;
      assert Words(bits, n)[n - 1 - i] == ValueOf(bits, i * WORD, WORD);
    }
  }

  // ------------------------------------------------------------- the byte bitmap

  /** `_key_bit_set`. */
  predicate KeyBitSet(bitmap: seq<Byte>, code: nat) {
    code / 8 < |bitmap| && Bit(bitmap[code / 8], code % 8)
  }

  /** The low `k` bits of `v`, and what is above them. */
  function Low(v: nat, k: nat): nat
    decreases k
  {
    if k == 0 then 0 else v % 2 + 2 * Low(v / 2, k - 1)
  }

  function High(v: nat, k: nat): nat
    decreases k
  {
    if k == 0 then v else High(v / 2, k - 1)
  }

  lemma {:induction false} LowAndHigh(v: nat, k: nat)
    ensures v == Low(v, k) + Pow2(k) * High(v, k) && Low(v, k) < Pow2(k)
    decreases k
  {
    if k > 0 {
      LowAndHigh(v / 2, k - 1);
      TwiceInside(Pow2(k - 1), High(v, k));
    }
  }

  lemma TwiceInside(p: nat, h: nat)
    ensures 2 * (p * h) == (2 * p) * h
  {
  }

  lemma {:induction false} LowBits(v: nat, k: nat, b: nat)
    ensures Bit(Low(v, k), b) <==> b < k && Bit(v, b)
    decreases k
  {
    if k == 0 {
      NoBitsInZero(b);
    } else {
      assert Low(v, k) / 2 == Low(v / 2, k - 1) && Low(v, k) % 2 == v % 2;
      if b > 0 { LowBits(v / 2, k - 1, b - 1); }
    }
  }

  lemma {:induction false} HighBits(v: nat, k: nat, b: nat)
    ensures Bit(High(v, k), b) <==> Bit(v, b + k)
    decreases k
  {
    if k > 0 { HighBits(v / 2, k - 1, b); }
  }

  /** Byte `k` of a word, counted from the least significant. */
  function ByteAt(w: nat, k: nat): (r: nat)
    ensures r < 256
    decreases k
  {
    LowAndHigh(w, 8);
    assert Pow2(4) == 16 && Pow2(8) == 256;
    if k == 0 then Low(w, 8) else ByteAt(High(w, 8), k - 1)
  }

  /** The same words as little-endian bytes, the last word first. */
  function LittleEndian(words: seq<nat>): seq<Byte> {
    if words == [] then []
    else seq(8, k requires 0 <= k < 8 => ByteAt(words[|words| - 1], k)) + LittleEndian(words[..|words| - 1])
  }

  lemma {:induction false} ByteBits(w: nat, k: nat, b: nat)
    requires b < 8
    ensures Bit(ByteAt(w, k), b) <==> Bit(w, 8 * k + b)
    decreases k
  {
    hide Bit, Low, High, Pow2;
    if k == 0 {
      LowBits(w, 8, b);
    } else {
      ByteBits(High(w, 8), k - 1, b);
      HighBits(w, 8, 8 * (k - 1) + b);
    }
  }

  lemma {:induction false} NoHighBits(v: nat, m: nat, b: nat)
    requires v < Pow2(m) && b >= m
    ensures !Bit(v, b)
    decreases m
  {
    if m == 0 {
      NoBitsInZero(b);
    } else {
      NoHighBits(v / 2, m - 1, b - 1);
    }
  }

  lemma LittleEndianAt(words: seq<nat>, c: nat)
    requires words != [] && |LittleEndian(words[..|words| - 1])| == 8 * (|words| - 1)
    ensures |LittleEndian(words)| == 8 * |words|
    ensures c < WORD ==> (KeyBitSet(LittleEndian(words), c) <==> Bit(ByteAt(words[|words| - 1], c / 8), c % 8))
    ensures c >= WORD ==>
      (KeyBitSet(LittleEndian(words), c) <==> KeyBitSet(LittleEndian(words[..|words| - 1]), c - WORD))
  {
    hide Bit, ByteAt;
    assert c >= WORD ==> c / 8 == (c - WORD) / 8 + 8 && c % 8 == (c - WORD) % 8;
  }

  /** For 64-bit words both encodings say the same about every code. */
  lemma {:induction false} EncodingsAgree(words: seq<nat>, c: nat)
    requires forall w | w in words :: w < Pow2(WORD)
    ensures KeyBitSet(LittleEndian(words), c) <==> Advertises(words, c)
    ensures |LittleEndian(words)| == 8 * |words|
    decreases |words|
  {
    if words != [] {
      var last, init := words[|words| - 1], words[..|words| - 1];
      assert last in words && forall w | w in init :: w in words;
      hide Pow2, Bit, ByteAt, KeyBitSet, Advertises, LittleEndian;
      EncodingsAgree(init, if c < WORD then 0 else c - WORD);
      LittleEndianAt(words, c);
      if c < WORD {
        ByteBits(last, c / 8, c % 8);
        FirstWord(words, c);
        assert c == 8 * (c / 8) + c % 8;
      } else {
        OtherWords(words, c);
      }
    }
  }

  lemma FirstWord(words: seq<nat>, c: nat)
    requires words != [] && c < WORD
    ensures Advertises(words, c) <==> Bit(words[|words| - 1], c)
  {
    if Bit(words[|words| - 1], c) {
      assert HasBit(words, 0, c);
    }
    if Advertises(words, c) {
      var i: nat, b: nat :| HasBit(words, i, b) && c == i * WORD + b;
      assert i == 0;
    }
  }

  lemma OtherWords(words: seq<nat>, c: nat)
    requires words != [] && c >= WORD && words[|words| - 1] < Pow2(WORD)
    ensures Advertises(words, c) <==> Advertises(words[..|words| - 1], c - WORD)
  {
    var init := words[..|words| - 1];
    if Advertises(words, c) {
      var i: nat, b: nat :| HasBit(words, i, b) && c == i * WORD + b;
      if i == 0 {
        NoHighBits(words[|words| - 1], WORD, c);
      } else {
        assert HasBit(init, i - 1, b);
      }
    }
    if Advertises(init, c - WORD) {
      var i: nat, b: nat :| HasBit(init, i, b) && c - WORD == i * WORD + b;
      assert HasBit(words, i + 1, b);
    }
  }
}
