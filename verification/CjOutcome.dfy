/**
 What each operation of the Cangjie store's observer registry answers, asks of the store and does to the lists.
 */
module CjOutcome {
  import opened Options
  import opened RdbErrno
  import opened Subscription
  import opened CjStoreSpec

  predicate Uses(list: seq<Obs>, callback: int) { exists o | o in list :: o.callback == callback }

  ghost predicate SameLists(s: Registry, t: Registry) { forall slot :: At(t, slot) == At(s, slot) }

  /** One subscription was asked for, and joined the end of its list exactly if the store accepted it. */
  ghost predicate Subscribed(s: Registry, t: Registry, code: int, slot: Slot, key: Key, callback: int) {
    var o := Obs(s.next, callback, slot);
    && code == s.b.answers(|s.b.log|)
    && t.b.log == s.b.log + [Sub(key, o)]
    && (code == E_OK ==> Differ(s, t, slot, At(s, slot) + [o]) && t.b.accepted == s.b.accepted + {o})
    && (code != E_OK ==> SameLists(s, t) && t.b.accepted == s.b.accepted)
  }

  lemma SubscribeIs(s: Registry, slot: Slot, callback: int)
    requires Shape(s) && IsSlot(slot)
    ensures var (t, code) := CjStoreSpec.Subscribe(s, slot, callback);
            Subscribed(s, t, code, slot, KeyOf(slot), callback)
  {
    var o := Obs(s.next, callback, slot);
    var (b, code) := Do(s.b, Sub(KeyOf(slot), o));
    PutAt(s.(next := s.next + 1, b := b), slot, At(s, slot) + [o]);
  }

  lemma UsesIs(list: seq<Obs>, callback: int)
    ensures HasCallback(list, callback) <==> Uses(list, callback)
  {
    if Uses(list, callback) {
      var o :| o in list && o.callback == callback;
      var i :| 0 <= i < |list| && list[i] == o;
      assert list[i].callback == callback;
    }
  }

  /** The events with an entry, be it an empty one. */
  function Entries(s: Registry, ip: bool): set<string> { if ip then s.shared.Keys else s.local.Keys }

  /** A callback already registered for the event is left alone; another one is subscribed for that event and mode. */
  lemma RegisterOutcome(s: Registry, event: string, ip: bool, callback: int)
    requires Shape(s) && s.open
    ensures var (t, code) := Apply(s, Register(event, ip, callback));
            var slot := if ip then Shared(event) else Local(event);
            && event in Entries(t, ip)
            && if Uses(At(s, slot), callback) then code == E_OK && t.b == s.b && SameLists(s, t)
               else Subscribed(s, t, code, slot, Key(if ip then LOCAL_SHARED else LOCAL, event), callback)
  {
    var slot := if ip then Shared(event) else Local(event);
    UsesIs(At(s, slot), callback);
    PutAt(s, slot, []);
    var s1 := if Has(s, slot) then s else Put(s, slot, []);
    assert SameLists(s, s1);
    SubscribeIs(s1, slot, callback);
  }

  lemma RegisterModeOutcome(s: Registry, mode: nat, callback: int)
    requires Shape(s) && s.open && mode < SUBSCRIBE_MODE_MAX
    ensures var (t, code) := Apply(s, RegisterMode(mode, callback));
            Subscribed(s, t, code, Mode(mode), Key(mode, "dataChange"), callback)
  {
    SubscribeIs(s, Mode(mode), callback);
  }

  lemma RegisterProgressOutcome(s: Registry, callback: int)
    requires Shape(s) && s.open
    ensures var (t, code) := Apply(s, RegisterProgress(callback));
            Subscribed(s, t, code, Progress, AutoSync, callback)
  {
    SubscribeIs(s, Progress, callback);
  }

  /** One list lost observers to a removal, and no other list changed. */
  ghost predicate Unsubscribed(s: Registry, t: Registry, code: int, slot: Slot, key: Key, which: Option<int>) {
    && TookAway(At(s, slot), At(t, slot), key, which, s.b, t.b, code)
    && forall other | other != slot :: At(t, other) == At(s, other)
  }

  lemma RemoveFromIs(s: Registry, slot: Slot, which: Option<int>)
    requires Shape(s) && IsSlot(slot) && Inv(ViewOf(s))
    ensures var (t, code) := RemoveFrom(s, slot, which);
            Shape(t) && Unsubscribed(s, t, code, slot, KeyOf(slot), which)
  {
    var list := At(s, slot);
    assert GoodList(ViewOf(s), slot) && ViewOf(s).lists(slot) == list;
    var (kept, b, code) := Remove(list, KeyOf(slot), which, s.b);
    PutAt(s.(b := b), slot, kept);
    RemoveTakesAway(list, KeyOf(slot), which, s.b);
  }

  lemma UnRegisterModeOutcome(s: Registry, mode: nat, which: Option<int>)
    requires Good(s) && s.open && mode < SUBSCRIBE_MODE_MAX
    ensures var (t, code) := Apply(s, UnRegisterMode(mode, which));
            Unsubscribed(s, t, code, Mode(mode), Key(mode, "dataChange"), which)
  {
    RemoveFromIs(s, Mode(mode), which);
  }

  lemma UnRegisterProgressOutcome(s: Registry, which: Option<int>)
    requires Good(s) && s.open
    ensures var (t, code) := Apply(s, UnRegisterProgress(which));
            Unsubscribed(s, t, code, Progress, AutoSync, which)
  {
    RemoveFromIs(s, Progress, which);
  }

  /** The observer of a callback, if there is one, leaves its event once the store lets it go. */
  lemma UnRegisterOutcome(s: Registry, event: string, ip: bool, callback: int)
    requires Good(s) && s.open
    ensures var (t, code) := Apply(s, UnRegister(event, ip, callback));
            var slot := if ip then Shared(event) else Local(event);
            && Unsubscribed(s, t, code, slot, Key(if ip then LOCAL_SHARED else LOCAL, event), Some(callback))
            && (event in Entries(t, ip) <==> event in Entries(s, ip) && (code != E_OK || At(t, slot) != []))
  {
    var slot := if ip then Shared(event) else Local(event);
    assert GoodList(ViewOf(s), slot) && ViewOf(s).lists(slot) == At(s, slot);
    RemoveFirstIsRemove(At(s, slot), KeyOf(slot), callback, s.b);
    RemoveFromIs(s, slot, Some(callback));
    var (s1, code) := RemoveFrom(s, slot, Some(callback));
    var t := UnRegisteredObserver(s, slot, callback).0;
    if Has(s, slot) {
      DropAt(s1, slot);
      assert SameLists(s1, t) && t.b == s1.b;
    } else {
      assert Calls([], KeyOf(slot), 0) == [];
    }
  }

  /**
   An event without an entry is left alone. For one with an entry the store is asked once to clear it, and the entry
   goes exactly if it does.
   */
  lemma UnRegisterAllOutcome(s: Registry, event: string, ip: bool)
    requires Shape(s) && s.open
    ensures var (t, code) := Apply(s, UnRegisterAll(event, ip));
            var slot, key := if ip then Shared(event) else Local(event), Key(if ip then LOCAL_SHARED else LOCAL, event);
            if event !in Entries(s, ip) then t == s && code == E_OK
            else
              && (event in Entries(t, ip) <==> code != E_OK)
              && code == s.b.answers(|s.b.log|) && t.b.log == s.b.log + [UnsubAll(key)]
              && (code == E_OK ==> && Differ(s, t, slot, [])
                                   && forall o :: o in t.b.accepted <==> o in s.b.accepted && KeyOf(o.home) != key)
              && (code != E_OK ==> SameLists(s, t) && t.b.accepted == s.b.accepted)
  {
    var slot := if ip then Shared(event) else Local(event);
    var b := Do(s.b, UnsubAll(KeyOf(slot))).0;
    DropAt(s.(b := b), slot);
  }
}
