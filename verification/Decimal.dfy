/**
 Decimal text of numbers, and reading it back as `strtol` does (section 7.22.1.4 of ISO/IEC 9899:2011).
 */
module Decimal {
  function Digit(d: nat): char
    requires d < 10
  {
    '0' + d as char
  }

  predicate IsDigit(c: char) { '0' <= c <= '9' }

  predicate IsSpace(c: char) { c == ' ' || 9 as char <= c <= 13 as char }

  predicate IsSign(c: char) { c == '-' || c == '+' }

  /** White space, signs and digits, character by character. */
  lemma Classes(c: char)
    ensures IsSpace(c) <==> c in {' ', '\t', '\n', 11 as char, 12 as char, '\r'}
    ensures IsSign(c) <==> c in {'+', '-'}
    ensures IsDigit(c) <==> c in {'0', '1', '2', '3', '4', '5', '6', '7', '8', '9'}
  {
  }

  function DecDigits(n: nat): string {
    if n < 10 then [Digit(n)] else DecDigits(n / 10) + [Digit(n % 10)]
  }

  /** Text of a number as `std::to_string` writes it. */
  function ToString(v: int): string { if v < 0 then "-" + DecDigits(-v) else DecDigits(v) }

  predicate AllDigits(s: string) { forall i | 0 <= i < |s| :: IsDigit(s[i]) }

  function NatValue(s: string): nat
    requires AllDigits(s)
  {
    if s == [] then 0 else NatValue(s[..|s| - 1]) * 10 + (s[|s| - 1] as int - '0' as int)
  }

  function SkipSpace(s: string, i: nat): (p: nat)
    requires i <= |s|
    ensures i <= p <= |s| && (forall j | i <= j < p :: IsSpace(s[j])) && (p < |s| ==> !IsSpace(s[p]))
    decreases |s| - i
  {
    if i < |s| && IsSpace(s[i]) then SkipSpace(s, i + 1) else i
  }

  function EndDigits(s: string, i: nat): (r: nat)
    requires i <= |s|
    ensures i <= r <= |s| && (forall j | i <= j < r :: IsDigit(s[j])) && (r < |s| ==> !IsDigit(s[r]))
    decreases |s| - i
  {
    if i < |s| && IsDigit(s[i]) then EndDigits(s, i + 1) else i
  }

  function Clamp(v: int, lo: int, hi: int): int { if v < lo then lo else if v > hi then hi else v }

  /** The value and the end position; without any digit the end position is the beginning. */
  function Strtol(s: string, lo: int, hi: int): (int, nat) {
    var p := SkipSpace(s, 0);
    var q := if p < |s| && IsSign(s[p]) then p + 1 else p;
    var r := EndDigits(s, q);
    if r == q then (0, 0)
    else
      var n := NatValue(s[q..r]);
      (Clamp(if s[p] == '-' then 0 - n else n, lo, hi), r)
  }

  /** White space up to `p`, a sign or not up to `q`, then one or more digits. */
  predicate Layout(s: string, p: nat, q: nat) {
    && p <= q < |s| && q <= p + 1
    && (forall j | 0 <= j < p :: IsSpace(s[j]))
    && (q == p + 1 ==> IsSign(s[p]))
    && AllDigits(s[q..])
  }

  /** The whole text is read exactly when it is empty or laid out as a number. */
  lemma ReadsAllIff(s: string, lo: int, hi: int)
    ensures Strtol(s, lo, hi).1 == |s| <==> s == "" || exists p, q :: Layout(s, p, q)
  {
    var p := SkipSpace(s, 0);
    var q := if p < |s| && IsSign(s[p]) then p + 1 else p;
    var r := EndDigits(s, q);
    if r == |s| && q < r { assert Layout(s, p, q); }
    forall p1: nat, q1: nat | Layout(s, p1, q1) ensures Strtol(s, lo, hi).1 == |s| {
      assert IsDigit(s[q1..][0]);
      assert p == p1 && q == q1;
      assert forall j | q1 <= j < |s| :: s[j] == s[q1..][j - q1];
    }
  }

  lemma {:induction false} DigitsOf(n: nat)
    ensures DecDigits(n) != "" && AllDigits(DecDigits(n)) && NatValue(DecDigits(n)) == n
  {
    if n >= 10 {
      DigitsOf(n / 10);
      var s := DecDigits(n);
      assert s[..|s| - 1] == DecDigits(n / 10);
    }
  }

  /** Digits are scanned to the end of the text. */
  lemma ScansDigits(s: string, q: nat)
    requires q < |s| && AllDigits(s[q..])
    ensures IsDigit(s[q]) && EndDigits(s, q) == |s| && s[q..EndDigits(s, q)] == s[q..]
  {
    assert forall j | q <= j < |s| :: s[j] == s[q..][j - q];
  }

  /** Digits, behind a minus sign or not, are read as that number. */
  lemma ReadDigits(s: string, q: nat, n: nat, lo: int, hi: int)
    requires q <= 1 && q < |s| && (q == 1 ==> s[0] == '-')
    requires AllDigits(s[q..]) && NatValue(s[q..]) == n
    ensures Strtol(s, lo, hi) == (Clamp(if q == 1 then 0 - n else n, lo, hi), |s|)
  {
    ScansDigits(s, q);
    assert SkipSpace(s, 0) == 0;
  }

  /** Reading back what was written gives the number brought into range, and reads all of the text. */
  lemma ReadBack(v: int, lo: int, hi: int)
    ensures Strtol(ToString(v), lo, hi) == (Clamp(v, lo, hi), |ToString(v)|)
  {
    var n, q := if v < 0 then -v else v, if v < 0 then 1 else 0;
    DigitsOf(n);
    assert ToString(v)[q..] == DecDigits(n);
    ReadDigits(ToString(v), q, n, lo, hi);
  }
}

module DataAsset {
  import opened Decimal
  import opened ErrorCodes
  import opened RowMarshal

  const INT64_MIN := -0x8000_0000_0000_0000
  const INT64_MAX := 0x7fff_ffff_ffff_ffff

  type Int64 = v: int | INT64_MIN <= v <= INT64_MAX

  /** Whether a getter accepts a stored text. */
  ghost predicate Readable(s: string) { UpToNul(s) == "" || exists p, q :: Layout(UpToNul(s), p, q) }

  /** The code and value a getter reads from a stored text, with the limits of its integer type. */
  function ReadAs(s: string, lo: int, hi: int): (int, int) {
    var (v, end) := Strtol(UpToNul(s), lo, hi);
    (if end == |UpToNul(s)| then RDB_OK else RDB_ERR, v)
  }

  function LongMin(longMax: nat): int { 0 - longMax - 1 }

  /** A text is accepted exactly when it is readable, and the value is within the limits. */
  lemma ReadAsIff(s: string, lo: int, hi: int)
    requires lo <= 0 <= hi
    ensures ReadAs(s, lo, hi).0 == RDB_OK <==> Readable(s)
    ensures lo <= ReadAs(s, lo, hi).1 <= hi
  {
    ReadsAllIff(UpToNul(s), lo, hi);
  }

  /** What was written is read back, brought within the limits. */
  lemma WrittenReadsBack(v: int, lo: int, hi: int)
    ensures ReadAs(ToString(v), lo, hi) == (RDB_OK, Clamp(v, lo, hi))
  {
    DigitsOf(if v < 0 then -v else v);
    UpToNulIsNulFree(ToString(v));
    ReadBack(v, lo, hi);
  }

  /** The decimal fields of an asset. `longMax` is the largest `long`; `size_t` has one bit more. */
  class AssetRecord {
    const longMax: nat
    var createTime: string
    var modifyTime: string
    var size: string

    constructor (longMax: nat)
      ensures this.longMax == longMax && createTime == modifyTime == size == ""
    {
      this.longMax, createTime, modifyTime, size := longMax, "", "", "";
    }

    /** What the getters answer. */
    function CreateTime(): (int, int)
      reads this
    {
      ReadAs(createTime, INT64_MIN, INT64_MAX)
    }

    function ModifyTime(): (int, int)
      reads this
    {
      ReadAs(modifyTime, INT64_MIN, INT64_MAX)
    }

    /** A negative `long` becomes a large `size_t`. */
    function Size(): (int, int)
      reads this
    {
      var (code, v) := ReadAs(size, LongMin(longMax), longMax);
      (code, if v < 0 then v + 2 * (longMax + 1) else v)
    }

    /** Every time set is the time got. */
    method SetCreateTime(time: Int64)
      modifies this`createTime
      ensures CreateTime() == (RDB_OK, time)
    {
      createTime := ToString(time);
      WrittenReadsBack(time, INT64_MIN, INT64_MAX);
    }

    method SetModifyTime(time: Int64)
      modifies this`modifyTime
      ensures ModifyTime() == (RDB_OK, time)
    {
      modifyTime := ToString(time);
      WrittenReadsBack(time, INT64_MIN, INT64_MAX);
    }

    /** The size got is the size set exactly when that fits a `long`; above, it is the largest `long`. */
    method SetSize(bytes: nat)
      modifies this`size
      ensures Size() == (RDB_OK, if bytes <= longMax then bytes else longMax)
    {
      size := ToString(bytes);
      WrittenReadsBack(bytes, LongMin(longMax), longMax);
    }

    method GetCreateTime() returns (code: int, time: int)
      ensures (code, time) == CreateTime()
      ensures code == (if Readable(createTime) then RDB_OK else RDB_ERR) && INT64_MIN <= time <= INT64_MAX
    {
      ReadAsIff(createTime, INT64_MIN, INT64_MAX);
      var (v, end) := Strtol(UpToNul(createTime), INT64_MIN, INT64_MAX);
      return if end == |UpToNul(createTime)| then RDB_OK else RDB_ERR, v;
    }

    method GetModifyTime() returns (code: int, time: int)
      ensures (code, time) == ModifyTime()
      ensures code == (if Readable(modifyTime) then RDB_OK else RDB_ERR) && INT64_MIN <= time <= INT64_MAX
    {
      ReadAsIff(modifyTime, INT64_MIN, INT64_MAX);
      var (v, end) := Strtol(UpToNul(modifyTime), INT64_MIN, INT64_MAX);
      return if end == |UpToNul(modifyTime)| then RDB_OK else RDB_ERR, v;
    }

    method GetSize() returns (code: int, bytes: int)
      ensures (code, bytes) == Size()
      ensures code == (if Readable(size) then RDB_OK else RDB_ERR) && 0 <= bytes <= 2 * longMax + 1
    {
      ReadAsIff(size, LongMin(longMax), longMax);
      var (v, end) := Strtol(UpToNul(size), LongMin(longMax), longMax);
      return if end == |UpToNul(size)| then RDB_OK else RDB_ERR, if v < 0 then v + 2 * (longMax + 1) else v;
    }
  }
}
