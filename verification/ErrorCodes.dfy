/**
 Translation of native error codes for NDK callers: tables sorted by native code, searched by bisection.
 */
module ErrorCodes {
  const RDB_ERR := -1
  const RDB_OK := 0
  const RDB_E_ERROR := 14800000
  const RDB_E_INVALID_ARGS := 14800001

  datatype Entry = Entry(nativeCode: int, ndkCode: int)

  predicate Sorted(table: seq<Entry>) {
    forall i, j | 0 <= i < j < |table| :: table[i].nativeCode < table[j].nativeCode
  }

  predicate Listed(table: seq<Entry>, code: int) {
    exists i | 0 <= i < |table| :: table[i].nativeCode == code
  }

  /** The first entry of a code, or the general error. */
  function Lookup(table: seq<Entry>, code: int): int {
    if table == [] then RDB_E_ERROR
    else if table[0].nativeCode == code then table[0].ndkCode
    else Lookup(table[1..], code)
  }

  lemma {:induction false} LookupAt(table: seq<Entry>, code: int, k: nat)
    requires k <= |table| && forall i | 0 <= i < k :: table[i].nativeCode != code
    requires k < |table| ==> table[k].nativeCode == code
    ensures Lookup(table, code) == if k < |table| then table[k].ndkCode else RDB_E_ERROR
  {
    if k > 0 { LookupAt(table[1..], code, k - 1); }
  }

  lemma {:induction false} LookupUnion(a: seq<Entry>, b: seq<Entry>, code: int)
    ensures Lookup(a + b, code) == if Listed(a, code) then Lookup(a, code) else Lookup(b, code)
    ensures !Listed(a, code) ==> Lookup(a, code) == RDB_E_ERROR
  {
    if a == [] {
      assert a + b == b;
    } else {
      assert (a + b)[1..] == a[1..] + b;
      LookupUnion(a[1..], b, code);
      assert forall i | 0 <= i < |a[1..]| :: a[1..][i] == a[i + 1];
      assert Listed(a, code) <==> a[0].nativeCode == code || Listed(a[1..], code) by {
        if Listed(a, code) && a[0].nativeCode != code {
          var i :| 0 <= i < |a| && a[i].nativeCode == code;
          assert a[1..][i - 1].nativeCode == code;
        }
      }
    }
  }

  /** Bisection finds what a search from the front finds. */
  method ConvertCode(table: seq<Entry>, code: int) returns (ndk: int)
    requires Sorted(table)
    ensures ndk == Lookup(table, code)
  {
    var first, count := 0, |table|;
    while count > 0
      invariant 0 <= first && 0 <= count && first + count <= |table|
      invariant forall i | 0 <= i < first :: table[i].nativeCode < code
      invariant forall i | first + count <= i < |table| :: table[i].nativeCode >= code
    {
      var step := count / 2;
      var it := first + step;
      if table[it].nativeCode < code {
        first, count := it + 1, count - (step + 1);
      } else {
        count := step;
      }
    }
    if first < |table| && table[first].nativeCode == code {
      LookupAt(table, code, first);
      return table[first].ndkCode;
    }
    LookupAt(table, code, |table|);
    return RDB_E_ERROR;
  }

  /** The second table is asked whenever the first gives the general error. */
  method GetInterfaceCodeExtend(table: seq<Entry>, extension: seq<Entry>, code: int) returns (ndk: int)
    requires Sorted(table) && Sorted(extension)
    ensures ndk == if Lookup(table, code) != RDB_E_ERROR then Lookup(table, code) else Lookup(extension, code)
    ensures ndk == Lookup(table + extension, code) <==>
            (Listed(table, code) && Lookup(table, code) == RDB_E_ERROR ==> Lookup(extension, code) == RDB_E_ERROR)
  {
    LookupUnion(table, extension, code);
    ndk := ConvertCode(table, code);
    if ndk != RDB_E_ERROR { return; }
    ndk := ConvertCode(extension, code);
  }
}
