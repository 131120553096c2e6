/**
 The big-integer codec: big-endian bytes on one side, 64-bit words, most significant first, on the other.
 The machine operations on unsigned 64-bit values are written out on natural numbers.
 */
module BigIntCodec {

  type u8 = x: nat | x < 256
  type u64 = x: nat | x < 0x1_0000_0000_0000_0000

  const UI64TOUI8: nat := 8
  const BITNUMOFUI64: nat := 64
  const WORD: nat := 0x1_0000_0000_0000_0000

  // ---- shifts and the bitwise or ----

  function Pow2(n: nat): (r: nat)
    ensures r >= 1
  {
    if n == 0 then 1 else 2 * Pow2(n - 1)
  }

  function Shl(x: nat, n: nat): nat { (x * Pow2(n)) % WORD }

  function Shr(x: nat, n: nat): nat { if n == 0 then x else Shr(x / 2, n - 1) }

  function Or(x: nat, y: nat): nat {
    if x == 0 && y == 0 then 0
    else (if x % 2 == 1 || y % 2 == 1 then 1 else 0) + 2 * Or(x / 2, y / 2)
  }

  lemma {:induction false} OrZero(y: nat)
    ensures Or(0, y) == y && Or(y, 0) == y
  {
    if y != 0 { OrZero(y / 2); }
  }

  /** Or-ing into bits that are all zero is addition. */
  lemma {:induction false} OrDisjoint(x: nat, y: nat, k: nat)
    requires y < Pow2(k)
    ensures Or(x * Pow2(k), y) == x * Pow2(k) + y
    decreases k
  {
    if k == 0 {
      OrZero(x);
    } else {
      var p := Pow2(k - 1);
      assert x * Pow2(k) == 2 * (x * p);
      OrDisjoint(x, y / 2, k - 1);
    }
  }

  lemma {:induction false} Pow2Byte(m: nat)
    ensures Pow2(8 * (m + 1)) == 256 * Pow2(8 * m)
  {
    assert Pow2(8 * m + 8) == 2 * Pow2(8 * m + 7) == 4 * Pow2(8 * m + 6) == 8 * Pow2(8 * m + 5);
    assert Pow2(8 * m + 5) == 2 * Pow2(8 * m + 4) == 4 * Pow2(8 * m + 3) == 8 * Pow2(8 * m + 2);
    assert Pow2(8 * m + 2) == 2 * Pow2(8 * m + 1) == 4 * Pow2(8 * m);
  }

  lemma {:induction false} Pow2Grows(m: nat, n: nat)
    requires m <= n
    ensures Pow2(8 * m) <= Pow2(8 * n)
    decreases n
  {
    if m < n {
      Pow2Grows(m, n - 1);
      Pow2Byte(n - 1);
    }
  }

  lemma Pow2Word()
    ensures Pow2(64) == WORD
  {
    assert Pow2(8) == 0x100 by { Pow2Byte(0); }
    assert Pow2(16) == 0x1_0000 by { Pow2Byte(1); }
    assert Pow2(24) == 0x100_0000 by { Pow2Byte(2); }
    assert Pow2(32) == 0x1_0000_0000 by { Pow2Byte(3); }
    assert Pow2(40) == 0x100_0000_0000 by { Pow2Byte(4); }
    assert Pow2(48) == 0x1_0000_0000_0000 by { Pow2Byte(5); }
    assert Pow2(56) == 0x100_0000_0000_0000 by { Pow2Byte(6); }
    assert Pow2(64) == WORD by { Pow2Byte(7); }
  }

  // ---- what byte and word strings denote ----

  function Value(s: seq<nat>, base: nat): nat {
    if s == [] then 0 else Value(s[..|s| - 1], base) * base + s[|s| - 1]
  }

  /** The `k` low base-256 digits of `v`, most significant first. */
  function Digits(v: nat, k: nat): (r: seq<u8>)
    ensures |r| == k
  {
    if k == 0 then [] else Digits(v / 256, k - 1) + [v % 256]
  }

  function Zeros(k: nat): (r: seq<u8>)
    ensures |r| == k
  {
    if k == 0 then [] else Zeros(k - 1) + [0]
  }

  /** The packed words: eights from the right, a short word first. */
  function Pack(bytes: seq<u8>): seq<nat> {
    if bytes == [] then []
    else if |bytes| <= 8 then [Value(bytes, 256)]
    else Pack(bytes[..|bytes| - 8]) + [Value(bytes[|bytes| - 8..], 256)]
  }

  function Unpack(words: seq<nat>): (r: seq<u8>)
    ensures |r| == 8 * |words|
  {
    if words == [] then [] else Unpack(words[..|words| - 1]) + Digits(words[|words| - 1], 8)
  }

  /** The byte string padded on the left to the next multiple of eight. */
  function Padded(bytes: seq<u8>): seq<u8> { Zeros(PadCount(|bytes|)) + bytes }

  function PadCount(n: nat): (k: nat)
    ensures k < 8 && (n + k) % 8 == 0
  {
    if n % 8 == 0 then 0 else 8 - n % 8
  }

  lemma {:induction false} ValueBound(bytes: seq<u8>)
    ensures Value(bytes, 256) < Pow2(8 * |bytes|)
  {
    if bytes != [] {
      ValueBound(bytes[..|bytes| - 1]);
      Pow2Byte(|bytes| - 1);
    }
  }

  lemma {:induction false} ValueConcat(a: seq<u8>, b: seq<u8>)
    ensures Value(a + b, 256) == Value(a, 256) * Pow2(8 * |b|) + Value(b, 256)
    decreases |b|
  {
    if b == [] {
      assert a + b == a;
    } else {
      var b' := b[..|b| - 1];
      assert (a + b)[..|a + b| - 1] == a + b';
      ValueConcat(a, b');
      Pow2Byte(|b'|);
      Regroup(Value(a, 256), Pow2(8 * |b'|), Value(b', 256), b[|b| - 1]);
    }
  }

  lemma Regroup(x: nat, p: nat, y: nat, z: nat)
    ensures (x * p + y) * 256 + z == x * (256 * p) + (y * 256 + z)
  {
  }

  /** The words denote the number that the bytes denote. */
  lemma {:induction false} PackKeepsValue(bytes: seq<u8>)
    ensures Value(Pack(bytes), WORD) == Value(bytes, 256)
    ensures forall i | 0 <= i < |Pack(bytes)| :: Pack(bytes)[i] < WORD
    decreases |bytes|
  {
    Pow2Word();
    if bytes == [] {
    } else if |bytes| <= 8 {
      ValueBound(bytes);
      Pow2Grows(|bytes|, 8);
      assert [Value(bytes, 256)][..0] == [];
    } else {
      var a, b := bytes[..|bytes| - 8], bytes[|bytes| - 8..];
      assert bytes == a + b;
      PackKeepsValue(a);
      ValueConcat(a, b);
      ValueBound(b);
      var words := Pack(a) + [Value(b, 256)];
      assert words[..|words| - 1] == Pack(a);
    }
  }

  lemma {:induction false} DigitsOfValue(bytes: seq<u8>, k: nat)
    requires |bytes| <= k
    ensures Digits(Value(bytes, 256), k) == Zeros(k - |bytes|) + bytes
    decreases k
  {
    if bytes == [] {
      DigitsOfZero(k);
    } else {
      var init, last := bytes[..|bytes| - 1], bytes[|bytes| - 1];
      DigitsOfValue(init, k - 1);
      assert Value(bytes, 256) / 256 == Value(init, 256) && Value(bytes, 256) % 256 == last;
      assert Zeros(k - |bytes|) + init + [last] == Zeros(k - |bytes|) + bytes;
    }
  }

  lemma {:induction false} DigitsOfZero(k: nat)
    ensures Digits(0, k) == Zeros(k)
  {
    if k > 0 { DigitsOfZero(k - 1); }
  }

  lemma {:induction false} ValueOfDigits(v: nat, k: nat)
    requires v < Pow2(8 * k)
    ensures Value(Digits(v, k), 256) == v
    decreases k
  {
    if k > 0 {
      Pow2Byte(k - 1);
      ValueOfDigits(v / 256, k - 1);
      assert Digits(v, k)[..k - 1] == Digits(v / 256, k - 1);
    }
  }

  lemma UnpackAppend(words: seq<nat>, w: nat)
    ensures Unpack(words + [w]) == Unpack(words) + Digits(w, 8)
  {
    assert (words + [w])[..|words|] == words;
  }

  lemma {:induction false} UnpackOne(w: nat)
    ensures Unpack([w]) == Digits(w, 8)
  {
    UnpackAppend([], w);
  }

  lemma {:induction false} UnpackPackShort(bytes: seq<u8>)
    requires 1 <= |bytes| <= 8
    ensures Unpack(Pack(bytes)) == Padded(bytes)
  {
    calc {
      Unpack(Pack(bytes));
      Unpack([Value(bytes, 256)]);
      { UnpackOne(Value(bytes, 256)); }
      Digits(Value(bytes, 256), 8);
      { DigitsOfValue(bytes, 8); }
      Zeros(8 - |bytes|) + bytes;
      Padded(bytes);
    }
  }

  lemma {:induction false} PaddedAppend(a: seq<u8>, b: seq<u8>)
    requires |b| == 8
    ensures Padded(a + b) == Padded(a) + b
  {
    var z := Zeros(PadCount(|a|));
    assert PadCount(|a + b|) == PadCount(|a|);
    assert z + (a + b) == (z + a) + b;
  }

  /** Unpacking the packed bytes gives the bytes, padded on the left with zeros to whole words. */
  lemma {:induction false} UnpackPack(bytes: seq<u8>)
    ensures Unpack(Pack(bytes)) == Padded(bytes)
    decreases |bytes|
  {
    if bytes == [] {
    } else if |bytes| <= 8 {
      UnpackPackShort(bytes);
    } else {
      var a, b := bytes[..|bytes| - 8], bytes[|bytes| - 8..];
      calc {
        Unpack(Pack(bytes));
        Unpack(Pack(a) + [Value(b, 256)]);
        { UnpackAppend(Pack(a), Value(b, 256)); }
        Unpack(Pack(a)) + Digits(Value(b, 256), 8);
        { UnpackPack(a); DigitsOfValue(b, 8); assert Zeros(0) + b == b; }
        Padded(a) + b;
        { PaddedAppend(a, b); assert bytes == a + b; }
        Padded(bytes);
      }
    }
  }

  /** Packing the unpacked words gives the words back. */
  lemma {:induction false} PackUnpack(words: seq<u64>)
    ensures Pack(Unpack(words)) == words
  {
    if words != [] {
      var init, last := words[..|words| - 1], words[|words| - 1];
      var a, b := Unpack(init), Digits(last, 8);
      PackUnpack(init);
      Pow2Word();
      ValueOfDigits(last, 8);
      var bytes := a + b;
      assert words == init + [last];
      if init == [] {
        assert bytes == b;
      } else {
        assert bytes[..|bytes| - 8] == a && bytes[|bytes| - 8..] == b;
      }
    }
  }

  // ---- the loops ----

  lemma {:induction false} ShlByte(b: u8, m: nat)
    requires m < 8
    ensures Shl(b, 8 * m) == b * Pow2(8 * m) < Pow2(8 * (m + 1))
  {
    var p := Pow2(8 * m);
    assert 256 * p == Pow2(8 * (m + 1)) <= WORD by {
      Pow2Byte(m);
      Pow2Grows(m + 1, 8);
      Pow2Word();
    }
    Scale(b, p);
  }

  lemma Scale(b: u8, p: nat)
    requires p >= 1
    ensures 0 <= b * p < 256 * p
  {
    assert b * p <= 255 * p;
  }

  lemma Gather(x: nat, b: nat, p: nat)
    ensures x * (256 * p) + b * p == (x * 256 + b) * p
  {
  }

  /** One byte of a chunk or-ed into place. */
  lemma {:induction false} PackStep(chunk: seq<u8>, j: nat)
    requires j < |chunk| <= 8
    ensures Or(Value(chunk[..j], 256) * Pow2(8 * (|chunk| - j)), Shl(chunk[j], 8 * (|chunk| - j - 1)))
         == Value(chunk[..j + 1], 256) * Pow2(8 * (|chunk| - j - 1))
  {
    var m := |chunk| - j - 1;
    var x, b, p := Value(chunk[..j], 256), chunk[j], Pow2(8 * m);
    assert chunk[..j + 1][..j] == chunk[..j];
    assert Value(chunk[..j + 1], 256) == x * 256 + b;
    calc {
      Or(x * Pow2(8 * (m + 1)), Shl(b, 8 * m));
      { ShlByte(b, m); OrDisjoint(x, Shl(b, 8 * m), 8 * (m + 1)); }
      x * Pow2(8 * (m + 1)) + b * p;
      { Pow2Byte(m); }
      x * (256 * p) + b * p;
      { Gather(x, b, p); }
      (x * 256 + b) * p;
    }
  }

  /** The possibly short first word. */
  method FirstWord(head: seq<u8>, firstSize: nat) returns (tempValue: nat)
    requires 1 <= firstSize <= 8 && firstSize <= |head|
    ensures tempValue == Value(head[..firstSize], 256)
  {
    ghost var chunk := head[..firstSize];
    tempValue := 0;
    for j := 0 to firstSize
      invariant tempValue == Value(chunk[..j], 256) * Pow2(8 * (firstSize - j))
    {
      PackStep(chunk, j);
      tempValue := Or(tempValue, Shl(head[j], UI64TOUI8 * (firstSize - j - 1)));
    }
    assert chunk[..firstSize] == chunk;
  }

  lemma ShiftOf(size: nat, start: nat, words: nat, j: nat)
    requires size - start == 8 * words && words >= 1 && j < 8
    ensures (size - (start + j) - 1) % 8 == 7 - j
  {
    assert size - (start + j) - 1 == 8 * (words - 1) + (7 - j);
  }

  /** A full word; the shift is computed from the distance to the end, modulo the word size. */
  method NextWord(head: seq<u8>, size: nat, start: nat, ghost words: nat) returns (tempValue: nat)
    requires size == |head| && size - start == 8 * words && words >= 1
    ensures tempValue == Value(head[start..start + 8], 256)
  {
    ghost var chunk := head[start..start + 8];
    tempValue := 0;
    for j := 0 to UI64TOUI8
      invariant tempValue == Value(chunk[..j], 256) * Pow2(8 * (8 - j))
    {
      PackStep(chunk, j);
      ShiftOf(size, start, words, j);
      tempValue := Or(tempValue, Shl(head[start + j], UI64TOUI8 * ((size - (start + j) - 1) % UI64TOUI8)));
    }
    assert chunk[..8] == chunk;
  }

  /** The word count and the size of the first word add up to the byte count. */
  lemma WordCount(size: nat)
    requires size >= 1
    ensures var first := if size % 8 == 0 then 8 else size % 8;
            var count := (size + 7) / 8;
            1 <= first <= 8 && count >= 1 && size == first + 8 * (count - 1)
  {
  }

  /** One more word behind those of the bytes before it. */
  method AppendWord(head: seq<u8>, start: nat, arr: seq<nat>, ghost words: nat) returns (more: seq<nat>)
    requires 1 <= start && |head| - start == 8 * words && words >= 1 && arr == Pack(head[..start])
    ensures more == Pack(head[..start + 8])
  {
    var tempValue := NextWord(head, |head|, start, words);
    PackMore(head, start);
    more := arr + [tempValue];
  }

  /** The loop over the words: the first may be short, the others are full. */
  method PackEach(head: seq<u8>, firstSize: nat, count: nat) returns (arr: seq<nat>)
    requires 1 <= firstSize <= 8 && 1 <= count && |head| == firstSize + 8 * (count - 1)
    ensures arr == Pack(head)
  {
    arr := [];
    ghost var done: nat := 0;
    for i := 0 to count
      invariant i > 0 ==> done == firstSize + 8 * (i - 1) && done <= |head| && arr == Pack(head[..done])
    {
      if i == 0 {
        PackFirst(head, firstSize);
        var tempValue := FirstWord(head, firstSize);
        arr := [tempValue];
        done := firstSize;
      } else {
        arr := AppendWord(head, UI64TOUI8 * (i - 1) + firstSize, arr, count - i);
        done := done + 8;
      }
    }
    assert head[..done] == head;
  }

  /** Bytes to words; a missing array has size -1 and gives no words. */
  method PackWords(head: seq<u8>, size: int) returns (arr: seq<nat>)
    requires size == |head| || (size == -1 && head == [])
    ensures arr == Pack(head)
  {
    var firstSize := if size % UI64TOUI8 == 0 then UI64TOUI8 else size % UI64TOUI8;
    var count := (size + UI64TOUI8 - 1) / UI64TOUI8;
    if count < 1 { return []; }
    WordCount(size);
    arr := PackEach(head, firstSize, count);
  }

  lemma {:induction false} PackFirst(head: seq<u8>, first: nat)
    requires 1 <= first <= 8 && first <= |head|
    ensures Pack(head[..first]) == [Value(head[..first], 256)]
  {
  }

  lemma {:induction false} PackMore(head: seq<u8>, start: nat)
    requires 1 <= start && start + 8 <= |head|
    ensures Pack(head[..start + 8]) == Pack(head[..start]) + [Value(head[start..start + 8], 256)]
  {
    PackAppend(head[..start], head[start..start + 8]);
    assert head[..start] + head[start..start + 8] == head[..start + 8];
  }

  lemma {:induction false} PackAppend(bytes: seq<u8>, chunk: seq<u8>)
    requires bytes != [] && |chunk| == 8
    ensures Pack(bytes + chunk) == Pack(bytes) + [Value(chunk, 256)]
  {
    var all := bytes + chunk;
    assert all[..|all| - 8] == bytes && all[|all| - 8..] == chunk;
  }

  lemma {:induction false} ShrTwo(v: nat, n: nat)
    ensures Shr(v, n + 2) == Shr(v / 4, n)
  {
    assert Shr(v, n + 2) == Shr(v / 2, n + 1) == Shr(v / 2 / 2, n);
  }

  lemma {:induction false} ShrFour(v: nat, n: nat)
    ensures Shr(v, n + 4) == Shr(v / 16, n)
  {
    ShrTwo(v, n + 2);
    ShrTwo(v / 4, n);
    assert v / 4 / 4 == v / 16;
  }

  lemma {:induction false} ShrByte(v: nat, m: nat)
    ensures Shr(v, 8 * (m + 1)) == Shr(v / 256, 8 * m)
  {
    ShrFour(v, 8 * m + 4);
    ShrFour(v / 16, 8 * m);
    assert v / 16 / 16 == v / 256;
  }

  /** Digit `j` is what the shift by whole bytes and the truncation to eight bits give. */
  lemma {:induction false} DigitAt(v: nat, k: nat, j: nat)
    requires j < k
    ensures Digits(v, k)[j] == Shr(v, 8 * (k - 1 - j)) % 256
    decreases k
  {
    if j < k - 1 {
      DigitAt(v / 256, k - 1, j);
      ShrByte(v, k - 2 - j);
    }
  }

  /** One word into eight zeroed bytes. */
  method UnpackWord(word: u64, head: array<u8>, at: nat)
    requires at + 8 <= head.Length && forall k | at <= k < at + 8 :: head[k] == 0
    modifies head
    ensures head[at..at + 8] == Digits(word, 8)
    ensures head[..at] == old(head[..at]) && forall k | at + 8 <= k < head.Length :: head[k] == old(head[k])
  {
    var j := 0;
    while j < UI64TOUI8
      invariant 0 <= j <= 8
      invariant head[..at] == old(head[..at]) && forall k | at + 8 <= k < head.Length :: head[k] == old(head[k])
      invariant forall k | 0 <= k < j :: head[at + k] == Digits(word, 8)[k]
      invariant forall k | at + j <= k < at + 8 :: head[k] == 0
    {
      var shifted := Shr(word, BITNUMOFUI64 - UI64TOUI8 * (j + 1));
      DigitAt(word, 8, j);
      OrZero(shifted);
      head[at + j] := Or(head[at + j], shifted) % 256;
      j := j + 1;
    }
  }

  /** Words to bytes, one byte at a time into a zeroed buffer. */
  method UnpackWords(value: seq<u64>) returns (head: array<u8>)
    ensures fresh(head) && head[..] == Unpack(value)
  {
    var size := |value|;
    head := new u8[UI64TOUI8 * size](i => 0);
    var i := 0;
    while i < size
      invariant 0 <= i <= size
      invariant head[..8 * i] == Unpack(value[..i])
      invariant forall k | 8 * i <= k < head.Length :: head[k] == 0
    {
      UnpackWord(value[i], head, UI64TOUI8 * i);
      assert value[..i + 1] == value[..i] + [value[i]];
      UnpackAppend(value[..i], value[i]);
      assert head[..8 * (i + 1)] == head[..8 * i] + head[8 * i..8 * i + 8];
      i := i + 1;
    }
    assert value[..size] == value;
  }
}
