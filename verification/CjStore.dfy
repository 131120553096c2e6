/**
 The Cangjie store binding's observer registry as an object, refining `CjStoreSpec`.
 */
module CjStore {
  import opened Options
  import opened RdbErrno
  import opened Subscription
  import opened RdbStore
  import S = CjStoreSpec

  class RdbStoreImpl {
    var open: bool
    var next: nat
    var observers: seq<seq<Obs>>
    var localObservers: map<string, seq<Obs>>
    var localSharedObservers: map<string, seq<Obs>>
    var syncObservers: seq<Obs>
    const store: Store

    constructor (store: Store)
      requires store.backing.log == [] && store.backing.accepted == {}
      ensures this.store == store && Model() == S.Init(store.backing.answers)
    {
      open, next, observers := true, 0, [[], [], [], [], [], []];
      localObservers, localSharedObservers, syncObservers := map[], map[], [];
      this.store := store;
    }

    function Model(): S.Registry
      reads this, store
    {
      S.Registry(open, next, observers, localObservers, localSharedObservers, syncObservers, store.backing)
    }

    static method HasRegisteredObserver(list: seq<Obs>, callback: int) returns (found: bool)
      ensures found == HasCallback(list, callback)
    {
      for i := 0 to |list|
        invariant forall j | 0 <= j < i :: list[j].callback != callback
      {
        if list[i].callback == callback { return true; }
      }
      return false;
    }

    method RegisterObserver(event: string, interProcess: bool, callback: int) returns (code: int)
      requires S.Shape(Model())
      modifies this, store
      ensures (Model(), code) == S.Apply(old(Model()), S.Register(event, interProcess, callback))
    {
      if !open { return E_ALREADY_CLOSED; }
      var slot := S.LocalSlot(event, interProcess);
      var lists := if interProcess then localSharedObservers else localObservers;
      if event !in lists {
        lists := lists[event := []];
        if interProcess { localSharedObservers := lists; } else { localObservers := lists; }
      }
      var found := HasRegisteredObserver(lists[event], callback);
      if found { return E_OK; }
      var obs := Obs(next, callback, slot);
      next := next + 1;
      code := store.Call(Sub(KeyOf(slot), obs));
      if code != E_OK { return; }
      lists := lists[event := lists[event] + [obs]];
      if interProcess { localSharedObservers := lists; } else { localObservers := lists; }
    }

    method RegisterObserverArrStr(mode: nat, callback: int) returns (code: int)
      requires S.Shape(Model()) && mode < SUBSCRIBE_MODE_MAX
      modifies this, store
      ensures (Model(), code) == S.Apply(old(Model()), S.RegisterMode(mode, callback))
    {
      if !open { return E_ALREADY_CLOSED; }
      var obs := Obs(next, callback, Mode(mode));
      next := next + 1;
      code := store.Call(Sub(Key(mode, "dataChange"), obs));
      if code == E_OK { observers := observers[mode := observers[mode] + [obs]]; }
    }

    method RegisterObserverProgressDetails(callback: int) returns (code: int)
      requires S.Shape(Model())
      modifies this, store
      ensures (Model(), code) == S.Apply(old(Model()), S.RegisterProgress(callback))
    {
      if !open { return E_ALREADY_CLOSED; }
      var obs := Obs(next, callback, Progress);
      next := next + 1;
      code := store.Call(Sub(AutoSync, obs));
      if code == E_OK { syncObservers := syncObservers + [obs]; }
    }

    /** Erases the first observer of a callback from a list once the store has let it go. */
    method EraseFirst(list: seq<Obs>, key: Key, callback: int) returns (kept: seq<Obs>, code: int)
      modifies store
      ensures (kept, store.backing, code) == S.RemoveFirst(list, key, callback, old(store.backing))
    {
      var i := 0;
      while i < |list|
        invariant 0 <= i <= |list| && store.backing == old(store.backing)
        invariant forall j | 0 <= j < i :: list[j].callback != callback
      {
        if list[i].callback == callback {
          RemoveFirstAt(list, key, callback, i, store.backing);
          code := store.Call(Unsub(key, list[i]));
          if code != E_OK { return list, code; }
          return list[..i] + list[i + 1..], E_OK;
        }
        i := i + 1;
      }
      RemoveFirstNone(list, key, callback, store.backing);
      return list, E_OK;
    }

    method UnRegisterObserver(event: string, interProcess: bool, callback: int) returns (code: int)
      requires S.Shape(Model())
      modifies this, store
      ensures (Model(), code) == S.Apply(old(Model()), S.UnRegister(event, interProcess, callback))
    {
      if !open { return E_ALREADY_CLOSED; }
      var lists := if interProcess then localSharedObservers else localObservers;
      if event !in lists { return E_OK; }
      var kept;
      kept, code := EraseFirst(lists[event], KeyOf(S.LocalSlot(event, interProcess)), callback);
      lists := lists[event := kept];
      if code == E_OK && kept == [] { lists := lists - {event}; }
      if interProcess { localSharedObservers := lists; } else { localObservers := lists; }
    }

    method UnRegisterAllObserver(event: string, interProcess: bool) returns (code: int)
      requires S.Shape(Model())
      modifies this, store
      ensures (Model(), code) == S.Apply(old(Model()), S.UnRegisterAll(event, interProcess))
    {
      if !open { return E_ALREADY_CLOSED; }
      var lists := if interProcess then localSharedObservers else localObservers;
      if event !in lists { return E_OK; }
      code := store.Call(UnsubAll(KeyOf(S.LocalSlot(event, interProcess))));
      if code != E_OK { return; }
      if interProcess {
        localSharedObservers := localSharedObservers - {event};
      } else {
        localObservers := localObservers - {event};
      }
    }

    method UnRegisterObserverArrStrChangeInfo(mode: nat, which: Option<int>) returns (code: int)
      requires S.Shape(Model()) && mode < SUBSCRIBE_MODE_MAX
      modifies this, store
      ensures (Model(), code) == S.Apply(old(Model()), S.UnRegisterMode(mode, which))
    {
      if !open { return E_ALREADY_CLOSED; }
      var kept;
      kept, code := EraseSelected(store, observers[mode], Key(mode, "dataChange"), which);
      observers := observers[mode := kept];
    }

    method UnRegisterObserverProgressDetails(which: Option<int>) returns (code: int)
      requires S.Shape(Model())
      modifies this, store
      ensures (Model(), code) == S.Apply(old(Model()), S.UnRegisterProgress(which))
    {
      if !open { return E_ALREADY_CLOSED; }
      var kept;
      kept, code := EraseSelected(store, syncObservers, AutoSync, which);
      syncObservers := kept;
    }

    /** Unsubscribes a whole list, whatever the store answers. */
    method UnSubscribeEach(list: seq<Obs>, key: Key)
      modifies store
      ensures store.backing == S.DoAll(old(store.backing), UnsubEach(list, key))
    {
      var i := 0;
      while i < |list|
        invariant 0 <= i <= |list|
        invariant S.DoAll(old(store.backing), UnsubEach(list, key)) ==
          S.DoAll(store.backing, UnsubEach(list[i..], key))
      {
        assert list[i..][1..] == list[i + 1..];
        assert UnsubEach(list[i..], key)[1..] == UnsubEach(list[i + 1..], key);
        var _ := store.Call(Unsub(key, list[i]));
        i := i + 1;
      }
    }

    method UnSubscribeEvents(lists: map<string, seq<Obs>>, mode: nat) returns (ghost order: seq<string>)
      modifies store
      ensures S.Walks(order, lists)
      ensures store.backing == S.DoAll(old(store.backing), S.EventCalls(lists, mode, order))
    {
      order := [];
      var left := lists.Keys;
      while left != {}
        invariant left <= lists.Keys
        invariant forall e | e in lists :: e in left || e in order
        invariant forall e | e in order :: e in lists && e !in left
        invariant forall i, j | 0 <= i < j < |order| :: order[i] != order[j]
        invariant store.backing == S.DoAll(old(store.backing), S.EventCalls(lists, mode, order))
        decreases left
      {
        var event :| event in left;
        left := left - {event};
        UnSubscribeEach(lists[event], Key(mode, event));
        EventCallsAppend(lists, mode, order, event);
        DoAllConcat(old(store.backing), S.EventCalls(lists, mode, order), UnsubEach(lists[event], Key(mode, event)));
        order := order + [event];
      }
    }

    /** Unsubscribes and clears the mode lists; the second loop finds its list already empty. */
    method CloseModes()
      requires S.Shape(Model())
      modifies this`observers, store
      ensures observers == [[], [], [], [], [], []]
      ensures store.backing == S.DoAll(old(store.backing), S.ModeCalls(old(observers), 0))
    {
      var mode := 0;
      while mode < SUBSCRIBE_MODE_MAX
        invariant 0 <= mode <= SUBSCRIBE_MODE_MAX && |observers| == SUBSCRIBE_MODE_MAX
        invariant forall m | 0 <= m < mode :: observers[m] == []
        invariant forall m | mode <= m < SUBSCRIBE_MODE_MAX :: observers[m] == old(observers)[m]
        invariant S.DoAll(old(store.backing), S.ModeCalls(old(observers), 0)) ==
          S.DoAll(store.backing, S.ModeCalls(old(observers), mode))
      {
        ghost var before := store.backing;
        UnSubscribeEach(observers[mode], Key(mode, ""));
        DoAllConcat(before, UnsubEach(observers[mode], Key(mode, "")), S.ModeCalls(old(observers), mode + 1));
        observers := observers[mode := []];
        mode := mode + 1;
      }
      UnSubscribeEach(observers[LOCAL_DETAIL], Key(LOCAL_DETAIL, ""));
      observers := observers[LOCAL_DETAIL := []];
    }

    method Close() returns (code: int, ghost localOrder: seq<string>, ghost sharedOrder: seq<string>)
      requires S.Shape(Model())
      modifies this, store
      ensures !old(open) ==> Model() == old(Model()) && code == E_ALREADY_CLOSED
      ensures old(open) ==>
        && S.Walks(localOrder, old(localObservers)) && S.Walks(sharedOrder, old(localSharedObservers))
        && (Model(), code) == S.Apply(old(Model()), S.Shut(localOrder, sharedOrder))
    {
      if !open { return E_ALREADY_CLOSED, [], []; }
      ghost var start := store.backing;
      ghost var m := S.ModeCalls(observers, 0);
      CloseModes();
      localOrder := UnSubscribeEvents(localObservers, LOCAL);
      ghost var l := S.EventCalls(localObservers, LOCAL, localOrder);
      localObservers := map[];
      sharedOrder := UnSubscribeEvents(localSharedObservers, LOCAL_SHARED);
      ghost var h := S.EventCalls(localSharedObservers, LOCAL_SHARED, sharedOrder);
      localSharedObservers := map[];
      UnSubscribeEach(syncObservers, AutoSync);
      ghost var p := UnsubEach(syncObservers, AutoSync);
      syncObservers := [];
      open := false;
      code := E_OK;
      DoAllFour(start, m, l, h, p);
    }
  }

  lemma DoAllFour(b: Backing, m: seq<Call>, l: seq<Call>, h: seq<Call>, p: seq<Call>)
    ensures S.DoAll(b, m + l + h + p) == S.DoAll(S.DoAll(S.DoAll(S.DoAll(b, m), l), h), p)
  {
    DoAllConcat(b, m, l);
    DoAllConcat(b, m + l, h);
    DoAllConcat(b, m + l + h, p);
  }

  /** A list put together again from its head and its tail, with and without element `i`. */
  lemma HeadBack(list: seq<Obs>, i: nat)
    requires 0 < i < |list|
    ensures [list[0]] + list[1..] == list
    ensures [list[0]] + (list[1..][..i - 1] + list[1..][i - 1 + 1..]) == list[..i] + list[i + 1..]
  {
  }

  lemma {:induction false} RemoveFirstAt(list: seq<Obs>, key: Key, callback: int, i: nat, b: Backing)
    requires i < |list| && list[i].callback == callback && forall j | 0 <= j < i :: list[j].callback != callback
    ensures var (b1, code) := Do(b, Unsub(key, list[i]));
            S.RemoveFirst(list, key, callback, b) ==
            if code != E_OK then (list, b1, code) else (list[..i] + list[i + 1..], b1, E_OK)
  {
    if i > 0 {
      RemoveFirstAt(list[1..], key, callback, i - 1, b);
      HeadBack(list, i);
    } else {
      assert list[..0] + list[1..] == list[1..];
    }
  }

  lemma {:induction false} RemoveFirstNone(list: seq<Obs>, key: Key, callback: int, b: Backing)
    requires forall j | 0 <= j < |list| :: list[j].callback != callback
    ensures S.RemoveFirst(list, key, callback, b) == (list, b, E_OK)
  {
    if list != [] {
      RemoveFirstNone(list[1..], key, callback, b);
      assert [list[0]] + list[1..] == list;
    }
  }

  lemma {:induction false} DoAllConcat(b: Backing, x: seq<Call>, y: seq<Call>)
    ensures S.DoAll(b, x + y) == S.DoAll(S.DoAll(b, x), y)
    decreases x
  {
    if x == [] {
      assert x + y == y;
    } else {
      assert (x + y)[1..] == x[1..] + y;
      DoAllConcat(Do(b, x[0]).0, x[1..], y);
    }
  }

  lemma {:induction false} EventCallsAppend(lists: map<string, seq<Obs>>, mode: nat, order: seq<string>, event: string)
    requires forall e | e in order :: e in lists
    requires event in lists
    ensures S.EventCalls(lists, mode, order + [event]) ==
            S.EventCalls(lists, mode, order) + UnsubEach(lists[event], Key(mode, event))
  {
    if order == [] {
      assert order + [event] == [event];
    } else {
      assert (order + [event])[1..] == order[1..] + [event];
      EventCallsAppend(lists, mode, order[1..], event);
    }
  }
}
