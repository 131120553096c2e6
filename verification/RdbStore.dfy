/**
 The backing store as an object, and the removal loop run against it.
 */
module RdbStore {
  import opened Options
  import opened RdbErrno
  import opened Subscription

  class Store {
    var backing: Backing

    constructor (answers: nat -> int)
      ensures backing == Backing(answers, [], {})
    {
      backing := Backing(answers, [], {});
    }

    method Call(call: Call) returns (code: int)
      modifies this
      ensures (backing, code) == Do(old(backing), call)
    {
      var (b, c) := Do(backing, call);
      backing, code := b, c;
    }
  }

  /** The outcome of a loop is what was kept so far followed by the outcome on the rest. */
  ghost predicate RestOf(whole: (seq<Obs>, Backing, int), done: seq<Obs>, part: (seq<Obs>, Backing, int)) {
    whole.0 == done + part.0 && whole.1 == part.1 && whole.2 == part.2
  }

  lemma {:induction false} KeepOne(
    whole: (seq<Obs>, Backing, int), kept: seq<Obs>, i: nat, key: Key, which: Option<int>, b: Backing)
    requires i < |kept| && !Selected(kept[i], which)
    requires RestOf(whole, kept[..i], Remove(kept[i..], key, which, b))
    ensures RestOf(whole, kept[..i + 1], Remove(kept[i + 1..], key, which, b))
  {
    var rest := Remove(kept[i + 1..], key, which, b).0;
    assert kept[i..][1..] == kept[i + 1..];
    assert kept[..i + 1] + rest == kept[..i] + ([kept[i]] + rest);
  }

  lemma {:induction false} EraseOne(
    whole: (seq<Obs>, Backing, int), kept: seq<Obs>, i: nat, key: Key, which: Option<int>, b: Backing)
    requires i < |kept| && Selected(kept[i], which)
    requires RestOf(whole, kept[..i], Remove(kept[i..], key, which, b))
    ensures var (b1, code) := Do(b, Unsub(key, kept[i]));
            var shorter := kept[..i] + kept[i + 1..];
            if code != E_OK then whole == (kept, b1, code)
            else RestOf(whole, shorter[..i], Remove(shorter[i..], key, which, b1))
  {
    var shorter := kept[..i] + kept[i + 1..];
    assert kept[i..][1..] == kept[i + 1..] && kept[..i] + kept[i..] == kept;
    assert shorter[i..] == kept[i + 1..] && shorter[..i] == kept[..i];
  }

  /** Unsubscribes and erases every selected observer in turn; without a callback every observer is selected. */
  method EraseSelected(store: Store, list: seq<Obs>, key: Key, which: Option<int>)
    returns (kept: seq<Obs>, code: int)
    modifies store
    ensures (kept, store.backing, code) == Remove(list, key, which, old(store.backing))
  {
    kept := list;
    var i := 0;
    ghost var whole := Remove(list, key, which, store.backing);
    while i < |kept|
      invariant 0 <= i <= |kept|
      invariant RestOf(whole, kept[..i], Remove(kept[i..], key, which, store.backing))
      decreases |kept| - i
    {
      if !Selected(kept[i], which) {
        KeepOne(whole, kept, i, key, which, store.backing);
        i := i + 1;
      } else {
        EraseOne(whole, kept, i, key, which, store.backing);
        code := store.Call(Unsub(key, kept[i]));
        if code != E_OK { return; }
        kept := kept[..i] + kept[i + 1..];
      }
    }
    assert kept[..i] + [] == kept;
    code := E_OK;
  }
}
