/** The deterministic loss draw of `MessageTransportGate.cpp`: 64-bit FNV mixing
    of the two entity ids, the message serial and the revision. */
module LossDraw {

  const TWO_64: nat := 0x1_0000_0000_0000_0000

  /** A `uint64_t`. */
  type Word = n: nat | n < TWO_64

  const BASIS: Word := 1469598103934665603

  // ----- Multiplying by the prime ------------------------------------------------------

  /** Multiplication by the FNV prime, which wraps around and can be undone. */
  function Times(hash: Word): Word {
    (hash * 1099511628211) % TWO_64
  }

  function Untimes(hash: Word): Word {
    (hash * 14886173955864302971) % TWO_64
  }

  lemma ModIs(a: int, q: int, r: int)
    requires a == q * TWO_64 + r && 0 <= r < TWO_64
    ensures a % TWO_64 == r
  {
  }

  lemma TimesUndone(hash: Word)
    ensures Untimes(Times(hash)) == hash && Times(Untimes(hash)) == hash
  {
    var p := hash * 1099511628211 / TWO_64;
    ModIs(Times(hash) * 14886173955864302971, hash * 887285111055 - p * 14886173955864302971, hash);
    var q := hash * 14886173955864302971 / TWO_64;
    ModIs(Untimes(hash) * 1099511628211, hash * 887285111055 - q * 1099511628211, hash);
  }

  // ----- Exclusive or ----------------------------------------------------------------------

  function XorBits(a: nat, b: nat): nat
    decreases a + b
  {
    if a == 0 && b == 0 then 0 else (if a % 2 != b % 2 then 1 else 0) + 2 * XorBits(a / 2, b / 2)
  }

  function Pow2(n: nat): nat {
    if n == 0 then 1 else 2 * Pow2(n - 1)
  }

  lemma {:induction false} XorBelow(a: nat, b: nat, n: nat)
    requires a < Pow2(n) && b < Pow2(n)
    ensures XorBits(a, b) < Pow2(n)
    decreases n
  {
    if n > 0 {
      XorBelow(a / 2, b / 2, n - 1);
    }
  }

  lemma {:induction false} Pow2Sum(m: nat, n: nat)
    ensures Pow2(m + n) == Pow2(m) * Pow2(n)
  {
    if m > 0 {
      Pow2Sum(m - 1, n);
    }
  }

  lemma Pow64()
    ensures Pow2(64) == TWO_64
  {
    assert Pow2(8) == 0x100;
    Pow2Sum(8, 8);
    Pow2Sum(16, 16);
    Pow2Sum(32, 32);
  }

  function Xor(hash: Word, byte: Word): Word {
    Pow64();
    XorBelow(hash, byte, 64);
    XorBits(hash, byte)
  }

  /** Bit `i` of a number, from the least significant one. */
  function Bit(n: nat, i: nat): nat {
    if i == 0 then n % 2 else Bit(n / 2, i - 1)
  }

  /** The exclusive or sets exactly the bits in which the two differ. */
  lemma {:induction false} XorIsBitwise(a: nat, b: nat, i: nat)
    ensures Bit(XorBits(a, b), i) == if Bit(a, i) != Bit(b, i) then 1 else 0
    decreases i
  {
    assert XorBits(a, b) / 2 == XorBits(a / 2, b / 2);
    if i > 0 {
      XorIsBitwise(a / 2, b / 2, i - 1);
    }
  }

  lemma {:induction false} XorBitsTwice(a: nat, b: nat)
    ensures XorBits(XorBits(a, b), b) == a
    decreases a + b
  {
    if a != 0 || b != 0 {
      XorBitsTwice(a / 2, b / 2);
    }
  }

  lemma {:induction false} XorBitsSwap(a: nat, b: nat)
    ensures XorBits(a, b) == XorBits(b, a)
    decreases a + b
  {
    if a != 0 || b != 0 {
      XorBitsSwap(a / 2, b / 2);
    }
  }

  lemma XorTwice(hash: Word, byte: Word)
    ensures Xor(Xor(hash, byte), byte) == hash
  {
    XorBitsTwice(hash, byte);
  }

  lemma XorCancels(hash: Word, a: Word, b: Word)
    ensures Xor(hash, a) == Xor(hash, b) ==> a == b
  {
    XorBitsSwap(hash, a);
    XorBitsSwap(hash, b);
    XorBitsTwice(a, hash);
    XorBitsTwice(b, hash);
  }

  // ----- One byte ----------------------------------------------------------------------------

  function Step(hash: Word, byte: Word): Word {
    Times(Xor(hash, byte))
  }

  function Unstep(hash: Word, byte: Word): Word {
    Xor(Untimes(hash), byte)
  }

  lemma StepUndone(hash: Word, byte: Word)
    ensures Unstep(Step(hash, byte), byte) == hash && Step(Unstep(hash, byte), byte) == hash
  {
    hide Times, Untimes, Xor;
    TimesUndone(Xor(hash, byte));
    XorTwice(hash, byte);
    XorTwice(Untimes(hash), byte);
    TimesUndone(hash);
  }

  /** Different bytes take one state to different states. */
  lemma StepSeparates(hash: Word, a: Word, b: Word)
    requires a != b
    ensures Step(hash, a) != Step(hash, b)
  {
    hide Times, Untimes, Xor;
    TimesUndone(Xor(hash, a));
    TimesUndone(Xor(hash, b));
    XorCancels(hash, a, b);
  }

  // ----- Hashing bytes ----------------------------------------------------------------

  function Hash(hash: Word, bytes: seq<Word>): Word
    decreases |bytes|
  {
    if bytes == [] then hash else Hash(Step(hash, bytes[0]), bytes[1..])
  }

  function Unhash(hash: Word, bytes: seq<Word>): Word
    decreases |bytes|
  {
    if bytes == [] then hash else Unstep(Unhash(hash, bytes[1..]), bytes[0])
  }

  /** Every pass is a permutation of the 64-bit states: it has an inverse. */
  lemma {:induction false} HashIsPermutation(hash: Word, bytes: seq<Word>)
    ensures Unhash(Hash(hash, bytes), bytes) == hash
    ensures Hash(Unhash(hash, bytes), bytes) == hash
    decreases |bytes|
  {
    hide Step, Unstep;
    if bytes != [] {
      HashIsPermutation(Step(hash, bytes[0]), bytes[1..]);
      StepUndone(hash, bytes[0]);
      HashIsPermutation(hash, bytes[1..]);
      StepUndone(Unhash(hash, bytes[1..]), bytes[0]);
    }
  }

  /** One pass over a concatenation is two passes. */
  lemma {:induction false} HashConcat(hash: Word, a: seq<Word>, b: seq<Word>)
    ensures Hash(hash, a + b) == Hash(Hash(hash, a), b)
    decreases |a|
  {
    hide Step;
    if a == [] {
      assert a + b == b;
    } else {
      assert (a + b)[1..] == a[1..] + b && (a + b)[0] == a[0];
      HashConcat(Step(hash, a[0]), a[1..], b);
    }
  }

  /** Each byte is first mixed in and then multiplied, modulo two to the 64. */
  lemma HashSnoc(hash: Word, bytes: seq<Word>, byte: Word)
    ensures Hash(hash, bytes + [byte]) == Xor(Hash(hash, bytes), byte) * 1099511628211 % 0x1_0000_0000_0000_0000
  {
    hide Xor;
    HashConcat(hash, bytes, [byte]);
    HashOne(Hash(hash, bytes), byte);
  }

  /** Byte strings that differ in exactly one place never hash alike. */
  lemma OneByteSeparates(hash: Word, front: seq<Word>, x: Word, y: Word, back: seq<Word>)
    requires x != y
    ensures Hash(hash, front + [x] + back) != Hash(hash, front + [y] + back)
  {
    hide Hash, Unhash, Step;
    HashConcat(hash, front + [x], back);
    HashConcat(hash, front + [y], back);
    HashConcat(hash, front, [x]);
    HashConcat(hash, front, [y]);
    var state := Hash(hash, front);
    HashOne(state, x);
    HashOne(state, y);
    StepSeparates(state, x, y);
    HashIsPermutation(Step(state, x), back);
    HashIsPermutation(Step(state, y), back);
  }

  lemma HashOne(hash: Word, byte: Word)
    ensures Hash(hash, [byte]) == Step(hash, byte)
  {
    assert [byte][1..] == [];
  }

  // ----- The draw -----------------------------------------------------------------------

  /** A trailing byte of a UTF-8 sequence (section 3 of RFC 3629). */
  function Trailing(n: nat): Word {
    0x80 + n % 0x40
  }

  /** The UTF-8 bytes of a character. */
  function Utf8(c: char): (bytes: seq<Word>)
    ensures 1 <= |bytes| <= 4 && forall i :: 0 <= i < |bytes| ==> bytes[i] < 0x100
  {
    var n := c as nat;
    var a := n / 0x40;
    var b := a / 0x40;
    if n < 0x80 then [n]
    else if n < 0x800 then [0xC0 + a, Trailing(n)]
    else if n < 0x1_0000 then [0xE0 + b, Trailing(a), Trailing(n)]
    else [0xF0 + b / 0x40, Trailing(b), Trailing(a), Trailing(n)]
  }

  /** The bits of the bytes, put together, are the character's number again. */
  lemma Utf8Decodes(c: char)
    ensures var bytes, n := Utf8(c), c as nat;
      && (|bytes| == 1 ==> n == bytes[0] < 0x80)
      && (|bytes| == 2 ==>
            && 0xC0 <= bytes[0] < 0xE0 && 0x80 <= bytes[1] < 0xC0
            && n == (bytes[0] - 0xC0) * 0x40 + (bytes[1] - 0x80))
      && (|bytes| == 3 ==>
            && 0xE0 <= bytes[0] < 0xF0 && 0x80 <= bytes[1] < 0xC0 && 0x80 <= bytes[2] < 0xC0
            && n == (bytes[0] - 0xE0) * 0x1000 + (bytes[1] - 0x80) * 0x40 + (bytes[2] - 0x80))
      && (|bytes| == 4 ==>
            && 0xF0 <= bytes[0] < 0xF8 && 0x80 <= bytes[1] < 0xC0 && 0x80 <= bytes[2] < 0xC0 && 0x80 <= bytes[3] < 0xC0
            && n == (bytes[0] - 0xF0) * 0x4_0000 + (bytes[1] - 0x80) * 0x1000 + (bytes[2] - 0x80) * 0x40
                    + (bytes[3] - 0x80))
      && (|bytes| == 1 <==> n < 0x80) && (|bytes| == 2 <==> 0x80 <= n < 0x800)
      && (|bytes| == 3 <==> 0x800 <= n < 0x1_0000)
  {
  }

  /** The bytes that the client holds of an id. */
  function Bytes(text: string): seq<Word> {
    if text == "" then [] else Utf8(text[0]) + Bytes(text[1..])
  }

  /** Byte `index` of a 64-bit word, from the least significant one. */
  function ByteAt(word: Word, index: nat): Word
    requires index < 8
  {
    if index == 0 then word % 0x100 else ByteAt(word / 0x100, index - 1)
  }

  /** The number with the bytes, the least significant one first. */
  function FromBytes(bytes: seq<Word>): nat {
    if bytes == [] then 0 else bytes[0] + 0x100 * FromBytes(bytes[1..])
  }

  /** The first `n` bytes of a word. */
  function FirstBytes(word: Word, n: nat): (bytes: seq<Word>)
    requires n <= 8
    ensures |bytes| == n && forall i :: 0 <= i < n ==> bytes[i] == ByteAt(word, i)
  {
    seq(n, i requires 0 <= i < 8 => ByteAt(word, i))
  }

  lemma {:induction false} FirstBytesMake(word: Word, n: nat)
    requires n <= 8 && word < Pow2(8 * n)
    ensures FromBytes(FirstBytes(word, n)) == word
    decreases n
  {
    if n == 0 {
      assert Pow2(0) == 1;
    } else {
      Pow2Sum(8, 8 * (n - 1));
      assert Pow2(8) == 0x100;
      assert word / 0x100 < Pow2(8 * (n - 1));
      FirstBytesMake(word / 0x100, n - 1);
      assert FirstBytes(word, n)[1..] == FirstBytes(word / 0x100, n - 1);
    }
  }

  /** The eight bytes make up the word. */
  lemma WordIsItsBytes(word: Word)
    ensures FromBytes(FirstBytes(word, 8)) == word
  {
    Pow64();
    FirstBytesMake(word, 8);
  }

  /** The bytes of serial and revision as they are mixed, from `index` on. */
  function Interleaved(serial: Word, revision: Word, index: nat): seq<Word>
    requires index <= 8
    decreases 8 - index
  {
    if index == 8 then []
    else [ByteAt(serial, index), ByteAt(revision, index)] + Interleaved(serial, revision, index + 1)
  }

  function DrawHash(source: string, target: string, serial: Word, revision: Word): Word {
    Hash(Hash(Hash(BASIS, Bytes(source)), Bytes(target)), Interleaved(serial, revision, 0))
  }

  const TWO_53: nat := 0x20_0000_0000_0000

  function Unit(hash: Word): real {
    (hash / 2048) as real / TWO_53 as real
  }

  function UnitDrawValue(source: string, target: string, serial: Word, revision: Word): real {
    Unit(DrawHash(source, target, serial, revision))
  }

  /** The draw hashes one string of bytes: those of the source, those of the target,
      then those of serial and revision in turn, least significant first. */
  lemma DrawIsOneHash(source: string, target: string, serial: Word, revision: Word)
    ensures DrawHash(source, target, serial, revision)
         == Hash(1469598103934665603, Bytes(source) + Bytes(target) + DrawTail(serial, revision))
  {
    hide Hash, Bytes, ByteAt;
    HashConcat(BASIS, Bytes(source) + Bytes(target), DrawTail(serial, revision));
    HashConcat(BASIS, Bytes(source), Bytes(target));
    TailIsInterleaved(serial, revision, 0);
  }

  function DrawTail(serial: Word, revision: Word): (bytes: seq<Word>)
    ensures |bytes| == 16
  {
    seq(16, i requires 0 <= i < 16 => if i % 2 == 0 then ByteAt(serial, i / 2) else ByteAt(revision, i / 2))
  }

  lemma {:induction false} TailIsInterleaved(serial: Word, revision: Word, index: nat)
    requires index <= 8
    ensures Interleaved(serial, revision, index) == DrawTail(serial, revision)[2 * index..]
    decreases 8 - index
  {
    hide ByteAt;
    if index < 8 {
      TailIsInterleaved(serial, revision, index + 1);
    }
  }

  /** Draws whose strings of bytes differ in exactly one place, be it in the source, the
      target, the serial or the revision, never hash alike. */
  lemma OneByteOfDrawSeparates(
    source: string, target: string, serial: Word, revision: Word,
    source': string, target': string, serial': Word, revision': Word, k: nat)
    requires var a := Bytes(source) + Bytes(target) + DrawTail(serial, revision);
      var b := Bytes(source') + Bytes(target') + DrawTail(serial', revision');
      && |a| == |b| && k < |a| && a[k] != b[k] && forall i :: 0 <= i < |a| && i != k ==> a[i] == b[i]
    ensures DrawHash(source, target, serial, revision) != DrawHash(source', target', serial', revision')
  {
    hide Hash, Bytes, DrawTail, DrawHash;
    DrawIsOneHash(source, target, serial, revision);
    DrawIsOneHash(source', target', serial', revision');
    var a := Bytes(source) + Bytes(target) + DrawTail(serial, revision);
    var b := Bytes(source') + Bytes(target') + DrawTail(serial', revision');
    assert a == a[..k] + [a[k]] + a[k + 1..];
    assert b == a[..k] + [b[k]] + a[k + 1..];
    OneByteSeparates(BASIS, a[..k], a[k], b[k], a[k + 1..]);
  }

  /** The draw is the hash over two to the 64, cut off after 53 bits. */
  lemma UnitIsTopBits(hash: Word)
    ensures Unit(hash) * 18446744073709551616.0 <= hash as real < Unit(hash) * 18446744073709551616.0 + 2048.0
  {
    var top := hash / 2048;
    assert Unit(hash) * 18446744073709551616.0 == (top * 2048) as real;
  }

  lemma UnitIsUnit(hash: Word)
    ensures 0.0 <= Unit(hash) < 1.0
  {
    assert hash / 2048 < TWO_53;
  }

  method HashText(start: Word, text: seq<Word>) returns (hash: Word)
    ensures hash == Hash(start, text)
  {
    hide Step;
    hash := start;
    for i := 0 to |text|
      invariant Hash(start, text) == Hash(hash, text[i..])
    {
      assert text[i..][1..] == text[i + 1..];
      hash := Step(hash, text[i]);
    }
  }

  method UnitDraw(source: string, target: string, serial: Word, revision: Word) returns (draw: real)
    ensures draw == UnitDrawValue(source, target, serial, revision)
  {
    hide Step, ByteAt, Unit, Bytes;
    var hash := HashText(BASIS, Bytes(source));
    hash := HashText(hash, Bytes(target));
    for index := 0 to 8
      invariant DrawHash(source, target, serial, revision) == Hash(hash, Interleaved(serial, revision, index))
    {
      var s, r := ByteAt(serial, index), ByteAt(revision, index);
      var rest := Interleaved(serial, revision, index + 1);
      assert Interleaved(serial, revision, index)[1..] == [r] + rest && ([r] + rest)[1..] == rest;
      hash := Step(Step(hash, s), r);
    }
    draw := Unit(hash);
  }

  /** Serials that differ in exactly one byte hash differently, for the same
      ids and revision. */
  lemma OneSerialByteSeparates(source: string, target: string, s: Word, t: Word, revision: Word, k: nat)
    requires k < 8 && ByteAt(s, k) != ByteAt(t, k)
    requires forall i :: 0 <= i < 8 && i != k ==> ByteAt(s, i) == ByteAt(t, i)
    ensures DrawHash(source, target, s, revision) != DrawHash(source, target, t, revision)
  {
    hide Hash, ByteAt;
    var state := Hash(Hash(BASIS, Bytes(source)), Bytes(target));
    var front, back := SplitAt(s, t, revision, k, 0);
    OneByteSeparates(state, front, ByteAt(s, k), ByteAt(t, k), back);
  }

  lemma {:induction false} SplitAt(s: Word, t: Word, revision: Word, k: nat, index: nat)
    returns (front: seq<Word>, back: seq<Word>)
    requires index <= k < 8
    requires forall i :: 0 <= i < 8 && i != k ==> ByteAt(s, i) == ByteAt(t, i)
    ensures Interleaved(s, revision, index) == front + [ByteAt(s, k)] + back
    ensures Interleaved(t, revision, index) == front + [ByteAt(t, k)] + back
    decreases k - index
  {
    hide ByteAt;
    if index == k {
      SameBytesAfter(s, t, revision, k, k + 1);
      front, back := [], [ByteAt(revision, k)] + Interleaved(s, revision, k + 1);
    } else {
      var inner;
      inner, back := SplitAt(s, t, revision, k, index + 1);
      var now := [ByteAt(s, index), ByteAt(revision, index)];
      front := now + inner;
      Regroup(now, inner, [ByteAt(s, k)], back);
      Regroup(now, inner, [ByteAt(t, k)], back);
    }
  }

  lemma Regroup(a: seq<Word>, b: seq<Word>, c: seq<Word>, d: seq<Word>)
    ensures a + (b + c + d) == a + b + c + d
  {
  }

  lemma {:induction false} SameBytesAfter(s: Word, t: Word, revision: Word, k: nat, index: nat)
    requires k < index <= 8
    requires forall i :: 0 <= i < 8 && i != k ==> ByteAt(s, i) == ByteAt(t, i)
    ensures Interleaved(s, revision, index) == Interleaved(t, revision, index)
    decreases 8 - index
  {
    hide ByteAt;
    if index < 8 {
      SameBytesAfter(s, t, revision, k, index + 1);
    }
  }
}
