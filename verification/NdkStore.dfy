/**
 Data observers of the NDK store: one list per subscribe type, tracking the backing store.
 */
module NdkStoreSpec {
  import opened Answers
  import opened ErrorCodes
  import opened Options
  import opened RdbErrno
  import opened Subscription

  const TYPES: nat := 3

  /** A caller's observer structure: its address, and whether its callback union is set. */
  datatype DataObserver = DataObserver(address: int, callable: bool)

  /** `table` translates native error codes. */
  datatype State = State(open: bool, next: nat, data: seq<seq<Obs>>, b: Backing, table: seq<Entry>)

  function Init(answers: nat -> int, table: seq<Entry>): State {
    State(true, 0, [[], [], []], Backing(answers, [], {}), table)
  }

  predicate Shape(s: State) { |s.data| == TYPES }

  function DoSubScribe(s: State, kind: int, observer: Option<DataObserver>): (State, int)
    requires Shape(s)
  {
    if !s.open || kind < 0 || kind >= TYPES || observer.None? || !observer.value.callable then
      (s, RDB_E_INVALID_ARGS)
    else if HasCallback(s.data[kind], observer.value.address) then (s, RDB_OK)
    else
      var o := Obs(s.next, observer.value.address, NdkType(kind));
      var (b, code) := Do(s.b, Sub(KeyOf(NdkType(kind)), o));
      var s1 := s.(next := s.next + 1, b := b);
      (if code != E_OK then s1 else s1.(data := s.data[kind := s.data[kind] + [o]]), Lookup(s.table, code))
  }

  /** Without an observer every one of the type is removed. */
  function DoUnsubScribe(s: State, kind: int, which: Option<int>): (State, int)
    requires Shape(s)
  {
    if !s.open || kind < 0 || kind >= TYPES then (s, RDB_E_INVALID_ARGS)
    else
      var (kept, b, code) := Remove(s.data[kind], KeyOf(NdkType(kind)), which, s.b);
      (s.(data := s.data[kind := kept], b := b), if code == E_OK then RDB_OK else Lookup(s.table, code))
  }

  datatype Step = Subscribe(kind: int, observer: Option<DataObserver>) | Unsubscribe(kind: int, which: Option<int>)

  function Apply(s: State, step: Step): (State, int)
    requires Shape(s)
  {
    match step
    case Subscribe(k, o) => DoSubScribe(s, k, o)
    case Unsubscribe(k, w) => DoUnsubScribe(s, k, w)
  }

  lemma ApplyShape(s: State, step: Step)
    requires Shape(s)
    ensures Shape(Apply(s, step).0)
  {
  }

  function Run(s: State, steps: seq<Step>): (t: State)
    requires Shape(s)
    ensures Shape(t)
    decreases steps
  {
    if steps == [] then s else ApplyShape(s, steps[0]); Run(Apply(s, steps[0]).0, steps[1..])
  }

  function At(s: State, slot: Slot): seq<Obs> {
    if slot.NdkType? && slot.kind < |s.data| then s.data[slot.kind] else []
  }

  ghost function ViewOf(s: State): View { View(slot => At(s, slot), s.next, s.b.accepted) }

  ghost predicate Good(s: State) { Shape(s) && Inv(ViewOf(s)) && Mirror(ViewOf(s)) }

  lemma SubscribeKeeps(s: State, kind: int, observer: Option<DataObserver>)
    requires Good(s)
    ensures Good(DoSubScribe(s, kind, observer).0)
  {
    var t := DoSubScribe(s, kind, observer).0;
    if t.data == s.data {
      SameKeeps(ViewOf(s), ViewOf(t));
    } else {
      AddKeeps(ViewOf(s), ViewOf(t), Obs(s.next, observer.value.address, NdkType(kind)));
    }
  }

  lemma UnsubscribeKeeps(s: State, kind: int, which: Option<int>)
    requires Good(s)
    ensures Good(DoUnsubScribe(s, kind, which).0)
  {
    if s.open && 0 <= kind < TYPES {
      var slot := NdkType(kind);
      assert GoodList(ViewOf(s), slot);
      RemoveMirrors(s.data[kind], KeyOf(slot), which, s.b);
      RemoveOneEach(s.data[kind], KeyOf(slot), which, s.b);
      ShrinkKeeps(ViewOf(s), ViewOf(DoUnsubScribe(s, kind, which).0), slot);
    }
  }

  lemma {:induction false} RunKeeps(s: State, steps: seq<Step>)
    requires Good(s)
    ensures Good(Run(s, steps))
    decreases steps
  {
    if steps != [] {
      match steps[0]
      case Subscribe(k, o) => SubscribeKeeps(s, k, o); RunKeeps(Apply(s, steps[0]).0, steps[1..]);
      case Unsubscribe(k, w) => UnsubscribeKeeps(s, k, w); RunKeeps(Apply(s, steps[0]).0, steps[1..]);
    }
  }

  lemma InitGood(answers: nat -> int, table: seq<Entry>)
    ensures Good(Init(answers, table))
  {
    var v := ViewOf(Init(answers, table));
    forall slot ensures GoodList(v, slot) && v.lists(slot) == [] {
    }
  }

  /** In every run the list of each type is the accepted set of that type, and no observer structure is in it twice. */
  lemma MirrorInEveryRun(answers: nat -> int, table: seq<Entry>, steps: seq<Step>)
    ensures var s := Run(Init(answers, table), steps);
            && (forall o: Obs :: o in At(s, o.home) <==> o in s.b.accepted)
            && (forall kind | 0 <= kind < TYPES :: Distinct(s.data[kind]) && OneEach(s.data[kind]))
  {
    InitGood(answers, table);
    RunKeeps(Init(answers, table), steps);
    var s := Run(Init(answers, table), steps);
    var v := ViewOf(s);
    forall kind | 0 <= kind < TYPES ensures Distinct(s.data[kind]) && OneEach(s.data[kind]) {
      assert GoodList(v, NdkType(kind)) && v.lists(NdkType(kind)) == s.data[kind];
    }
    assert forall o: Obs :: v.lists(o.home) == At(s, o.home);
  }

  lemma {:induction false} RemoveAllStops(list: seq<Obs>, key: Key, b: Backing)
    ensures var (kept, b1, code) := Remove(list, key, None, b);
            var k := Successes(b.answers, |b.log|, |list|);
            kept == list[k..] && (code == E_OK <==> k == |list|)
  {
    if list != [] {
      var (b1, code) := Do(b, Unsub(key, list[0]));
      if code == E_OK { RemoveAllStops(list[1..], key, b1); }
    }
  }

  /** The subscription mode of each NDK type. */
  function NdkKey(kind: int): Key {
    Key(match kind case 0 => CLOUD case 1 => CLOUD_DETAIL case 2 => LOCAL_DETAIL case _ => SUBSCRIBE_MODE_MAX,
        "data_change")
  }

  /**
   Bad arguments change nothing, and so does a structure already subscribed, which is answered with success. Any other
   one is subscribed in the mode of its type, and joins the end of its list exactly if the store accepts it.
   */
  lemma SubscribeOutcome(s: State, kind: int, observer: Option<DataObserver>)
    requires Shape(s)
    ensures var (t, code) := Apply(s, Subscribe(kind, observer));
            if !s.open || !(0 <= kind < TYPES) || observer.None? || !observer.value.callable then
              t == s && code == RDB_E_INVALID_ARGS
            else if exists o | o in s.data[kind] :: o.callback == observer.value.address then t == s && code == RDB_OK
            else
              var o, result := Obs(s.next, observer.value.address, NdkType(kind)), s.b.answers(|s.b.log|);
              && t.b.log == s.b.log + [Sub(NdkKey(kind), o)] && code == Lookup(s.table, result)
              && t.data == (if result == E_OK then s.data[kind := s.data[kind] + [o]] else s.data)
              && t.b.accepted == (if result == E_OK then s.b.accepted + {o} else s.b.accepted)
  {
    if s.open && 0 <= kind < TYPES && observer.Some? {
      var list, address := s.data[kind], observer.value.address;
      if o :| o in list && o.callback == address {
        var i :| 0 <= i < |list| && list[i] == o;
        assert list[i].callback == address;
      }
    }
  }

  /**
   The structures meant, or all of the type, are unsubscribed in order up to the first call that fails, whose translated
   code is the answer. The list loses exactly those whose call succeeded, and no other list changes.
   */
  lemma UnsubscribeOutcome(s: State, kind: int, which: Option<int>)
    requires Good(s)
    ensures var (t, code) := Apply(s, Unsubscribe(kind, which));
            if !s.open || !(0 <= kind < TYPES) then t == s && code == RDB_E_INVALID_ARGS
            else exists result ::
              && TookAway(s.data[kind], t.data[kind], NdkKey(kind), which, s.b, t.b, result)
              && code == (if result == E_OK then RDB_OK else Lookup(s.table, result))
              && forall other | 0 <= other < TYPES && other != kind :: t.data[other] == s.data[other]
  {
    if s.open && 0 <= kind < TYPES {
      var list := s.data[kind];
      assert GoodList(ViewOf(s), NdkType(kind)) && ViewOf(s).lists(NdkType(kind)) == list;
      RemoveTakesAway(list, NdkKey(kind), which, s.b);
      var result := Remove(list, NdkKey(kind), which, s.b).2;
      var t := Apply(s, Unsubscribe(kind, which)).0;
      assert TookAway(s.data[kind], t.data[kind], NdkKey(kind), which, s.b, t.b, result);
    }
  }

  /** No failure is translated to success. */
  ghost predicate OnlyOkIsOk(table: seq<Entry>) { forall code | Lookup(table, code) == RDB_OK :: code == E_OK }

  /** Unsubscribing one structure keeps every other one, and after success only those. */
  lemma UnsubscribeOne(s: State, kind: int, address: int, o: Obs)
    requires Good(s) && s.open && 0 <= kind < TYPES && o in s.data[kind]
    ensures var (t, code) := Apply(s, Unsubscribe(kind, Some(address)));
            && (o.callback != address ==> o in t.data[kind])
            && (code == RDB_OK && o.callback == address && OnlyOkIsOk(s.table) ==> o !in t.data[kind])
  {
    var (t, code) := Apply(s, Unsubscribe(kind, Some(address)));
    UnsubscribeOutcome(s, kind, Some(address));
    var result :| && TookAway(s.data[kind], t.data[kind], NdkKey(kind), Some(address), s.b, t.b, result)
                  && code == if result == E_OK then RDB_OK else Lookup(s.table, result);
    TookAwayOnly(s.data[kind], t.data[kind], NdkKey(kind), Some(address), s.b, t.b, result, o);
  }

  /**
   Removing all of a type leaves exactly the observers from the first failing call on: none, and an answer of success,
   if every call succeeds.
   */
  lemma UnsubscribeAllLeavesSuffix(s: State, kind: int)
    requires Shape(s) && s.open && 0 <= kind < TYPES
    ensures var (t, code) := DoUnsubScribe(s, kind, None);
            var k := Successes(s.b.answers, |s.b.log|, |s.data[kind]|);
            && t.data[kind] == s.data[kind][k..]
            && (k == |s.data[kind]| ==> code == RDB_OK)
            && (k < |s.data[kind]| ==> s.b.answers(|s.b.log| + k) != E_OK)
  {
    SuccessesAre(s.b.answers, |s.b.log|, |s.data[kind]|);
    RemoveAllStops(s.data[kind], KeyOf(NdkType(kind)), s.b);
  }
}

module NdkStore {
  import opened ErrorCodes
  import opened Options
  import opened RdbErrno
  import opened Subscription
  import opened RdbStore
  import S = NdkStoreSpec

  class RelationalStore {
    const store: Store
    const table: seq<Entry>
    var open: bool
    var next: nat
    var dataObservers: seq<seq<Obs>>

    constructor (store: Store, table: seq<Entry>)
      requires store.backing.log == [] && store.backing.accepted == {}
      ensures this.store == store && Model() == S.Init(store.backing.answers, table)
    {
      this.store, this.table, open, next, dataObservers := store, table, true, 0, [[], [], []];
    }

    function Model(): S.State
      reads this, store
    {
      S.State(open, next, dataObservers, store.backing, table)
    }

    method DoSubScribe(kind: int, observer: Option<S.DataObserver>) returns (code: int)
      requires S.Shape(Model()) && Sorted(table)
      modifies this, store
      ensures (Model(), code) == S.Apply(old(Model()), S.Subscribe(kind, observer))
    {
      if !open || kind < 0 || kind >= S.TYPES || observer.None? || !observer.value.callable {
        return RDB_E_INVALID_ARGS;
      }
      var list := dataObservers[kind];
      for i := 0 to |list|
        invariant forall j | 0 <= j < i :: list[j].callback != observer.value.address
      {
        if list[i].callback == observer.value.address { return RDB_OK; }
      }
      var obs := Obs(next, observer.value.address, NdkType(kind));
      next := next + 1;
      var result := store.Call(Sub(KeyOf(NdkType(kind)), obs));
      if result == E_OK { dataObservers := dataObservers[kind := list + [obs]]; }
      code := ConvertCode(table, result);
    }

    method DoUnsubScribe(kind: int, which: Option<int>) returns (code: int)
      requires S.Shape(Model()) && Sorted(table)
      modifies this, store
      ensures (Model(), code) == S.Apply(old(Model()), S.Unsubscribe(kind, which))
    {
      if !open || kind < 0 || kind >= S.TYPES { return RDB_E_INVALID_ARGS; }
      var kept, result := EraseSelected(store, dataObservers[kind], KeyOf(NdkType(kind)), which);
      dataObservers := dataObservers[kind := kept];
      if result == E_OK { return RDB_OK; }
      code := ConvertCode(table, result);
    }
  }
}
