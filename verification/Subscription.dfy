/**
 A backing store that accepts and removes observers, each call succeeding or failing as it likes, and the removal
 loop that the bindings run over a list of tracked observers.
 */
module Subscription {
  import opened Answers
  import opened Options
  import opened RdbErrno

  // DistributedRdb::SubscribeMode
  const CLOUD: nat := 1
  const CLOUD_DETAIL: nat := 2
  const LOCAL: nat := 3
  const LOCAL_SHARED: nat := 4
  const LOCAL_DETAIL: nat := 5
  const SUBSCRIBE_MODE_MAX: nat := 6

  /** The list a binding keeps an observer in. */
  datatype Slot = Mode(mode: nat) | Local(event: string) | Shared(event: string) | Progress | NdkType(kind: nat)

  /** An observer object: its identity, the callback it forwards to, and the list it was made for. */
  datatype Obs = Obs(id: nat, callback: int, home: Slot)

  /** What the backing store files a subscription under. */
  datatype Key = Key(mode: nat, event: string) | AutoSync

  datatype Call = Sub(key: Key, obs: Obs) | Unsub(key: Key, obs: Obs) | UnsubAll(key: Key)

  /** `answers(n)` is the code the `n`-th call returns; a call that fails changes nothing. */
  datatype Backing = Backing(answers: nat -> int, log: seq<Call>, accepted: set<Obs>)

  /** The mode of an NDK subscribe type. */
  function GetSubscribeType(kind: nat): nat {
    if kind == 0 then CLOUD
    else if kind == 1 then CLOUD_DETAIL
    else if kind == 2 then LOCAL_DETAIL
    else SUBSCRIBE_MODE_MAX
  }

  function KeyOf(slot: Slot): Key {
    match slot
    case Mode(m) => Key(m, "dataChange")
    case Local(e) => Key(LOCAL, e)
    case Shared(e) => Key(LOCAL_SHARED, e)
    case Progress => AutoSync
    case NdkType(t) => Key(GetSubscribeType(t), "data_change")
  }

  function Effect(accepted: set<Obs>, call: Call): set<Obs> {
    match call
    case Sub(_, o) => accepted + {o}
    case Unsub(k, o) => if KeyOf(o.home) == k then accepted - {o} else accepted
    case UnsubAll(k) => set o | o in accepted && KeyOf(o.home) != k
  }

  function Do(b: Backing, call: Call): (Backing, int) {
    var code := b.answers(|b.log|);
    (b.(log := b.log + [call], accepted := if code == E_OK then Effect(b.accepted, call) else b.accepted), code)
  }

  predicate Selected(o: Obs, which: Option<int>) { which.None? || o.callback == which.value }

  /** The removal loop: unsubscribe and erase every selected observer, stopping at the first failure. */
  function Remove(list: seq<Obs>, key: Key, which: Option<int>, b: Backing): (seq<Obs>, Backing, int)
  {
    if list == [] then ([], b, E_OK)
    else if !Selected(list[0], which) then
      var (kept, b1, code) := Remove(list[1..], key, which, b);
      ([list[0]] + kept, b1, code)
    else
      var (b1, code) := Do(b, Unsub(key, list[0]));
      if code != E_OK then (list, b1, code) else Remove(list[1..], key, which, b1)
  }

  predicate Distinct(list: seq<Obs>) { forall i, j | 0 <= i < j < |list| :: list[i] != list[j] }

  function Unselected(list: seq<Obs>, which: Option<int>): seq<Obs> {
    if list == [] then []
    else (if Selected(list[0], which) then [] else [list[0]]) + Unselected(list[1..], which)
  }

  /** Success keeps exactly the unselected observers, in order. A failure leaves the unprocessed rest as it was. */
  lemma {:induction false} RemoveShape(list: seq<Obs>, key: Key, which: Option<int>, b: Backing)
    ensures var (kept, b1, code) := Remove(list, key, which, b);
            if code == E_OK then kept == Unselected(list, which) else StoppedSomewhere(list, which, kept)
  {
    if list != [] {
      var tail := list[1..];
      if !Selected(list[0], which) {
        RemoveShape(tail, key, which, b);
        if Remove(tail, key, which, b).2 != E_OK { ShiftStop(list, which, Remove(tail, key, which, b).0); }
      } else {
        var (b1, code) := Do(b, Unsub(key, list[0]));
        if code != E_OK {
          assert StoppedAt(list, which, list, 0);
        } else {
          RemoveShape(tail, key, which, b1);
          var kept := Remove(tail, key, which, b1).0;
          assert [] + kept == kept;
          if Remove(tail, key, which, b1).2 != E_OK { ShiftStop(list, which, kept); }
        }
      }
    }
  }

  ghost predicate StoppedAt(list: seq<Obs>, which: Option<int>, kept: seq<Obs>, n: nat) {
    n < |list| && Selected(list[n], which) && kept == Unselected(list[..n], which) + list[n..]
  }

  ghost predicate StoppedSomewhere(list: seq<Obs>, which: Option<int>, kept: seq<Obs>) {
    exists n :: StoppedAt(list, which, kept, n)
  }

  lemma {:induction false} UnselectedHead(list: seq<Obs>, which: Option<int>, n: nat)
    requires n < |list|
    ensures Unselected(list[..n + 1], which) ==
            (if Selected(list[0], which) then [] else [list[0]]) + Unselected(list[1..][..n], which)
  {
    assert list[..n + 1][1..] == list[1..][..n];
  }

  lemma {:induction false} UnselectedHas(list: seq<Obs>, which: Option<int>, o: Obs)
    ensures o in Unselected(list, which) <==> o in list && !Selected(o, which)
  {
    if list != [] { UnselectedHas(list[1..], which, o); }
  }

  lemma {:induction false} ShiftStop(list: seq<Obs>, which: Option<int>, kept: seq<Obs>)
    requires list != [] && StoppedSomewhere(list[1..], which, kept)
    ensures StoppedSomewhere(list, which, (if Selected(list[0], which) then [] else [list[0]]) + kept)
  {
    var n: nat :| StoppedAt(list[1..], which, kept, n);
    UnselectedHead(list, which, n);
    assert StoppedAt(list, which, (if Selected(list[0], which) then [] else [list[0]]) + kept, n + 1);
  }

  lemma HeadNotInTail(list: seq<Obs>)
    requires list != [] && Distinct(list)
    ensures list[0] !in list[1..] && Distinct(list[1..])
    ensures forall o :: o in list <==> o == list[0] || o in list[1..]
  {
    assert list == [list[0]] + list[1..];
    assert forall j | 0 <= j < |list[1..]| :: list[1..][j] == list[j + 1] != list[0];
  }

  /** Whether the loop succeeds or stops, the store loses exactly the observers the list loses. */
  lemma {:induction false} RemoveMirrors(list: seq<Obs>, key: Key, which: Option<int>, b: Backing)
    requires Distinct(list) && forall o | o in list :: KeyOf(o.home) == key
    ensures var (kept, b1, _) := Remove(list, key, which, b);
            && Distinct(kept)
            && (forall o :: o in kept ==> o in list)
            && (forall o :: o in b1.accepted <==> o in b.accepted && (o in list ==> o in kept))
  {
    if list != [] {
      var tail := list[1..];
      HeadNotInTail(list);
      if !Selected(list[0], which) {
        RemoveMirrors(tail, key, which, b);
        assert list[0] !in Remove(tail, key, which, b).0;
      } else {
        var (b1, code) := Do(b, Unsub(key, list[0]));
        if code == E_OK { RemoveMirrors(tail, key, which, b1); }
      }
    }
  }

  // ---- the removal loop in terms of its calls ----

  /** One unsubscription for each observer of a list. */
  function UnsubEach(list: seq<Obs>, key: Key): seq<Call> {
    if list == [] then [] else [Unsub(key, list[0])] + UnsubEach(list[1..], key)
  }

  /** The observers of a callback, or all of them without one, in order. */
  function Chosen(list: seq<Obs>, which: Option<int>): seq<Obs> {
    if list == [] then []
    else (if which == None || which == Some(list[0].callback) then [list[0]] else []) + Chosen(list[1..], which)
  }

  lemma {:induction false} ChosenHas(list: seq<Obs>, which: Option<int>, o: Obs)
    ensures o in Chosen(list, which) <==> o in list && (which == None || which == Some(o.callback))
    ensures o in Unselected(list, which) <==> o in list && which != None && which != Some(o.callback)
  {
    if list != [] { ChosenHas(list[1..], which, o); }
  }

  /** How many of the calls of a removal succeed. */
  function Removed(list: seq<Obs>, which: Option<int>, b: Backing): (k: nat)
    ensures k <= |Chosen(list, which)|
  {
    Successes(b.answers, |b.log|, |Chosen(list, which)|)
  }

  /** Unsubscribing observers in order, up to the first failure. */
  function CallEach(chosen: seq<Obs>, key: Key, b: Backing): (Backing, int)
    decreases chosen
  {
    if chosen == [] then (b, E_OK)
    else
      var (b1, code) := Do(b, Unsub(key, chosen[0]));
      if code != E_OK then (b1, code) else CallEach(chosen[1..], key, b1)
  }

  lemma {:induction false} RemoveCallsEach(list: seq<Obs>, key: Key, which: Option<int>, b: Backing)
    ensures (Remove(list, key, which, b).1, Remove(list, key, which, b).2) == CallEach(Chosen(list, which), key, b)
  {
    if list != [] {
      var tail := list[1..];
      if !Selected(list[0], which) {
        RemoveCallsEach(tail, key, which, b);
        assert [] + Chosen(tail, which) == Chosen(tail, which);
      } else {
        assert ([list[0]] + Chosen(tail, which))[1..] == Chosen(tail, which);
        RemoveCallsEach(tail, key, which, Do(b, Unsub(key, list[0])).0);
      }
    }
  }

  /** The calls made: those that succeed and, if not all do, the one that fails. */
  function Calls(chosen: seq<Obs>, key: Key, k: nat): seq<Call>
    requires k <= |chosen|
  {
    UnsubEach(if k < |chosen| then chosen[..k + 1] else chosen, key)
  }

  lemma {:induction false} CallEachIs(chosen: seq<Obs>, key: Key, b: Backing, k: nat)
    requires k == Successes(b.answers, |b.log|, |chosen|)
    ensures var (b1, code) := CallEach(chosen, key, b);
            b1.log == b.log + Calls(chosen, key, k) && code == if k < |chosen| then b.answers(|b.log| + k) else E_OK
    decreases chosen
  {
    if chosen != [] {
      var (b1, code) := Do(b, Unsub(key, chosen[0]));
      var rest := chosen[1..];
      if code == E_OK {
        CallEachIs(rest, key, b1, k - 1);
        assert k < |chosen| ==> chosen[..k + 1][1..] == rest[..k];
        assert Calls(chosen, key, k) == [Unsub(key, chosen[0])] + Calls(rest, key, k - 1);
      } else {
        assert chosen[..1] == [chosen[0]];
        assert UnsubEach([chosen[0]], key) == [Unsub(key, chosen[0])] + UnsubEach([], key);
      }
    }
  }

  /**
   The loop calls the store once for each chosen observer in order, up to the first call that fails, and answers its
   code, or success if none does.
   */
  lemma RemoveCalls(list: seq<Obs>, key: Key, which: Option<int>, b: Backing)
    ensures var (_, b1, code) := Remove(list, key, which, b);
            var chosen, k := Chosen(list, which), Removed(list, which, b);
            && b1.log == b.log + Calls(chosen, key, k)
            && code == (if k < |chosen| then b.answers(|b.log| + k) else E_OK)
            && (code == E_OK <==> k == |chosen|)
  {
    RemoveCallsEach(list, key, which, b);
    CallEachIs(Chosen(list, which), key, b, Removed(list, which, b));
    SuccessesAre(b.answers, |b.log|, |Chosen(list, which)|);
  }

  /** The observers chosen and gone. */
  function Gone(list: seq<Obs>, which: Option<int>, b: Backing): seq<Obs> {
    Chosen(list, which)[..Removed(list, which, b)]
  }

  lemma {:induction false} GoneStep(list: seq<Obs>, key: Key, which: Option<int>, b: Backing)
    requires list != []
    ensures var (b1, code) := Do(b, Unsub(key, list[0]));
            Gone(list, which, b) ==
            if !Selected(list[0], which) then Gone(list[1..], which, b)
            else if code != E_OK then [] else [list[0]] + Gone(list[1..], which, b1)
  {
    var chosen := Chosen(list[1..], which);
    if !Selected(list[0], which) {
      assert [] + chosen == chosen;
    } else {
      var (b1, code) := Do(b, Unsub(key, list[0]));
      var k := Removed(list[1..], which, b1);
      assert ([list[0]] + chosen)[..k + 1] == [list[0]] + chosen[..k];
    }
  }

  /** The list loses exactly the chosen observers whose calls succeeded. */
  lemma {:induction false} RemoveKeeps(list: seq<Obs>, key: Key, which: Option<int>, b: Backing, o: Obs)
    requires Distinct(list)
    ensures o in Remove(list, key, which, b).0 <==> o in list && o !in Gone(list, which, b)
    ensures o in Gone(list, which, b) ==> o in list
  {
    if list != [] {
      HeadNotInTail(list);
      GoneStep(list, key, which, b);
      if !Selected(list[0], which) {
        RemoveKeeps(list[1..], key, which, b, o);
        RemoveKeeps(list[1..], key, which, b, list[0]);
      } else {
        var (b1, code) := Do(b, Unsub(key, list[0]));
        if code == E_OK { RemoveKeeps(list[1..], key, which, b1, o); }
      }
    }
  }

  /**
   A removal in terms of its calls: the chosen observers were unsubscribed in order up to the first failure, whose code
   is `code`, and the list lost exactly those whose call succeeded.
   */
  ghost predicate TookAway(
    before: seq<Obs>, after: seq<Obs>, key: Key, which: Option<int>, b: Backing, b1: Backing, code: int)
  {
    var chosen, k := Chosen(before, which), Removed(before, which, b);
    && b1.log == b.log + Calls(chosen, key, k)
    && code == (if k < |chosen| then b.answers(|b.log| + k) else E_OK)
    && (code == E_OK ==> after == Unselected(before, which))
    && forall o :: o in after <==> o in before && o !in chosen[..k]
  }

  lemma RemoveTakesAway(list: seq<Obs>, key: Key, which: Option<int>, b: Backing)
    requires Distinct(list)
    ensures var (kept, b1, code) := Remove(list, key, which, b); TookAway(list, kept, key, which, b, b1, code)
  {
    RemoveCalls(list, key, which, b);
    RemoveShape(list, key, which, b);
    forall o ensures o in Remove(list, key, which, b).0 <==> o in list && o !in Gone(list, which, b) {
      RemoveKeeps(list, key, which, b, o);
    }
  }

  /** Whatever is not chosen stays, and after success nothing chosen does. */
  lemma TookAwayOnly(
    before: seq<Obs>, after: seq<Obs>, key: Key, which: Option<int>, b: Backing, b1: Backing, code: int, o: Obs)
    requires TookAway(before, after, key, which, b, b1, code) && o in before
    ensures which != None && which != Some(o.callback) ==> o in after
    ensures code == E_OK && (which == None || which == Some(o.callback)) ==> o !in after
  {
    ChosenHas(before, which, o);
  }

  // ---- tracked lists against the accepted set ----

  /** What an invariant may look at: the list of every slot, the identities handed out, the accepted observers. */
  datatype View = View(lists: Slot -> seq<Obs>, next: nat, accepted: set<Obs>)

  /** The slots in which a callback may appear once only. */
  predicate Once(slot: Slot) { slot.Local? || slot.Shared? || slot.NdkType? }

  predicate HasCallback(list: seq<Obs>, callback: int) {
    exists i | 0 <= i < |list| :: list[i].callback == callback
  }

  predicate OneEach(list: seq<Obs>) {
    forall i, j | 0 <= i < j < |list| :: list[i].callback != list[j].callback
  }

  ghost predicate GoodList(v: View, slot: Slot) {
    && Distinct(v.lists(slot))
    && (Once(slot) ==> OneEach(v.lists(slot)))
    && forall o | o in v.lists(slot) :: o.home == slot && o.id < v.next
  }

  /** No list holds an observer twice, and the store holds no observer that its list does not. */
  ghost predicate Inv(v: View) {
    && (forall slot :: GoodList(v, slot))
    && (forall o :: o in v.accepted ==> o in v.lists(o.home))
  }

  /** Every list holds exactly the observers that the store accepted for it and did not remove. */
  ghost predicate Mirror(v: View) {
    forall o: Obs :: o in v.lists(o.home) <==> o in v.accepted
  }

  ghost predicate SameElsewhere(v: View, w: View, slot: Slot) {
    forall other | other != slot :: w.lists(other) == v.lists(other)
  }

  lemma AddKeeps(v: View, w: View, o: Obs)
    requires Inv(v) && SameElsewhere(v, w, o.home) && w.lists(o.home) == v.lists(o.home) + [o]
    requires o.id == v.next < w.next && w.accepted == v.accepted + {o}
    requires Once(o.home) ==> !HasCallback(v.lists(o.home), o.callback)
    ensures Inv(w) && (Mirror(v) ==> Mirror(w))
  {
    forall slot ensures GoodList(w, slot) {
      assert GoodList(v, slot);
    }
  }

  lemma SameKeeps(v: View, w: View)
    requires Inv(v) && (forall slot :: w.lists(slot) == v.lists(slot))
    requires v.next <= w.next && w.accepted == v.accepted
    ensures Inv(w) && (Mirror(v) <==> Mirror(w))
  {
    forall slot ensures GoodList(w, slot) {
      assert GoodList(v, slot);
    }
  }

  ghost predicate OneEachKept(kept: seq<Obs>, list: seq<Obs>) { OneEach(list) ==> OneEach(kept) }

  /** A list loses some observers and the store loses the same ones. */
  lemma ShrinkKeeps(v: View, w: View, slot: Slot)
    requires Inv(v) && SameElsewhere(v, w, slot) && w.next == v.next
    requires Distinct(w.lists(slot)) && OneEachKept(w.lists(slot), v.lists(slot))
    requires forall o | o in w.lists(slot) :: o in v.lists(slot)
    requires forall o :: o in w.accepted <==> o in v.accepted && (o in v.lists(slot) ==> o in w.lists(slot))
    ensures Inv(w) && (Mirror(v) ==> Mirror(w))
  {
    forall other ensures GoodList(w, other) {
      assert GoodList(v, other);
    }
    assert GoodList(v, slot);
  }

  /** Everything filed under a key goes, and with it one list. */
  lemma DropKeeps(v: View, w: View, slot: Slot)
    requires Inv(v) && SameElsewhere(v, w, slot) && w.next == v.next && w.lists(slot) == []
    requires w.accepted == Effect(v.accepted, UnsubAll(KeyOf(slot)))
    ensures Inv(w)
    ensures Mirror(v) ==>
      (Mirror(w) <==> forall other | other != slot && KeyOf(other) == KeyOf(slot) :: v.lists(other) == [])
  {
    forall other ensures GoodList(w, other) {
      assert GoodList(v, other);
    }
    if other :| other != slot && KeyOf(other) == KeyOf(slot) && v.lists(other) != [] {
      assert GoodList(v, other);
      var o := v.lists(other)[0];
      assert o in w.lists(o.home) && o !in w.accepted;
    }
  }

  lemma {:induction false} RemoveOneEach(list: seq<Obs>, key: Key, which: Option<int>, b: Backing)
    requires OneEach(list)
    ensures OneEach(Remove(list, key, which, b).0)
    ensures forall o | o in Remove(list, key, which, b).0 :: o in list
  {
    if list != [] {
      var tail := list[1..];
      assert list == [list[0]] + tail;
      if !Selected(list[0], which) {
        RemoveOneEach(tail, key, which, b);
        var kept := Remove(tail, key, which, b).0;
        assert forall j | 0 <= j < |kept| :: kept[j] in tail && kept[j].callback != list[0].callback;
      } else {
        var (b1, code) := Do(b, Unsub(key, list[0]));
        if code == E_OK { RemoveOneEach(tail, key, which, b1); }
      }
    }
  }
}
