/**
 The observer registry of the Cangjie store binding as a state machine: six lists by subscribe mode, a map of lists
 for local and one for local-shared events, and a list of progress observers, all tracking one backing store.
 */
module CjStoreSpec {
  import opened Options
  import opened RdbErrno
  import opened Subscription

  datatype Registry = Registry(
    open: bool, next: nat, modes: seq<seq<Obs>>, local: map<string, seq<Obs>>, shared: map<string, seq<Obs>>,
    sync: seq<Obs>, b: Backing)

  function Init(answers: nat -> int): Registry {
    Registry(true, 0, [[], [], [], [], [], []], map[], map[], [], Backing(answers, [], {}))
  }

  predicate Shape(s: Registry) { |s.modes| == SUBSCRIBE_MODE_MAX }

  predicate IsSlot(slot: Slot) { !slot.NdkType? && (slot.Mode? ==> slot.mode < SUBSCRIBE_MODE_MAX) }

  function At(s: Registry, slot: Slot): seq<Obs> {
    match slot
    case Mode(m) => if m < |s.modes| then s.modes[m] else []
    case Local(e) => if e in s.local then s.local[e] else []
    case Shared(e) => if e in s.shared then s.shared[e] else []
    case Progress => s.sync
    case NdkType(_) => []
  }

  /** Whether a list is there; an event map may hold an empty one. */
  predicate Has(s: Registry, slot: Slot) {
    match slot
    case Local(e) => e in s.local
    case Shared(e) => e in s.shared
    case _ => true
  }

  function Put(s: Registry, slot: Slot, list: seq<Obs>): Registry
    requires Shape(s) && IsSlot(slot)
  {
    match slot
    case Mode(m) => s.(modes := s.modes[m := list])
    case Local(e) => s.(local := s.local[e := list])
    case Shared(e) => s.(shared := s.shared[e := list])
    case Progress => s.(sync := list)
  }

  function Drop(s: Registry, slot: Slot): Registry {
    match slot
    case Local(e) => s.(local := s.local - {e})
    case Shared(e) => s.(shared := s.shared - {e})
    case _ => s
  }

  function LocalSlot(event: string, interProcess: bool): Slot {
    if interProcess then Shared(event) else Local(event)
  }

  function Subscribe(s: Registry, slot: Slot, callback: int): (Registry, int)
    requires Shape(s) && IsSlot(slot)
  {
    var o := Obs(s.next, callback, slot);
    var (b, code) := Do(s.b, Sub(KeyOf(slot), o));
    var s1 := s.(next := s.next + 1, b := b);
    if code != E_OK then (s1, code) else (Put(s1, slot, At(s1, slot) + [o]), E_OK)
  }

  function RegisteredObserver(s: Registry, slot: Slot, callback: int): (Registry, int)
    requires Shape(s) && IsSlot(slot)
  {
    var s1 := if Has(s, slot) then s else Put(s, slot, []);
    if HasCallback(At(s1, slot), callback) then (s1, E_OK) else Subscribe(s1, slot, callback)
  }

  /** Unsubscribes and erases the first observer of a callback. */
  function RemoveFirst(list: seq<Obs>, key: Key, callback: int, b: Backing): (seq<Obs>, Backing, int) {
    if list == [] then ([], b, E_OK)
    else if list[0].callback != callback then
      var (kept, b1, code) := RemoveFirst(list[1..], key, callback, b);
      ([list[0]] + kept, b1, code)
    else
      var (b1, code) := Do(b, Unsub(key, list[0]));
      if code != E_OK then (list, b1, code) else (list[1..], b1, E_OK)
  }

  function UnRegisteredObserver(s: Registry, slot: Slot, callback: int): (Registry, int)
    requires Shape(s) && IsSlot(slot)
  {
    if !Has(s, slot) then (s, E_OK)
    else
      var (kept, b, code) := RemoveFirst(At(s, slot), KeyOf(slot), callback, s.b);
      var s1 := Put(s.(b := b), slot, kept);
      if code != E_OK then (s1, code) else if kept == [] then (Drop(s1, slot), E_OK) else (s1, E_OK)
  }

  function UnRegisteredAllObserver(s: Registry, slot: Slot): (Registry, int) {
    if !Has(s, slot) then (s, E_OK)
    else
      var (b, code) := Do(s.b, UnsubAll(KeyOf(slot)));
      if code != E_OK then (s.(b := b), code) else (Drop(s.(b := b), slot), E_OK)
  }

  function RemoveFrom(s: Registry, slot: Slot, which: Option<int>): (Registry, int)
    requires Shape(s) && IsSlot(slot)
  {
    var (kept, b, code) := Remove(At(s, slot), KeyOf(slot), which, s.b);
    (Put(s.(b := b), slot, kept), code)
  }

  // ---- closing ----

  /** The mode lists are unsubscribed without an event. */
  function ModeCalls(modes: seq<seq<Obs>>, m: nat): seq<Call>
    requires m <= |modes|
    decreases |modes| - m
  {
    if m == |modes| then [] else UnsubEach(modes[m], Key(m, "")) + ModeCalls(modes, m + 1)
  }

  function EventCalls(lists: map<string, seq<Obs>>, mode: nat, order: seq<string>): seq<Call>
    requires forall e | e in order :: e in lists
  {
    if order == [] then [] else UnsubEach(lists[order[0]], Key(mode, order[0])) + EventCalls(lists, mode, order[1..])
  }

  /** An order in which a map may be walked. */
  predicate Walks(order: seq<string>, lists: map<string, seq<Obs>>) {
    && (forall e | e in order :: e in lists)
    && (forall e | e in lists :: e in order)
    && (forall i, j | 0 <= i < j < |order| :: order[i] != order[j])
  }

  function CloseCalls(s: Registry, localOrder: seq<string>, sharedOrder: seq<string>): seq<Call>
    requires Walks(localOrder, s.local) && Walks(sharedOrder, s.shared)
  {
    ModeCalls(s.modes, 0) + EventCalls(s.local, LOCAL, localOrder) + EventCalls(s.shared, LOCAL_SHARED, sharedOrder)
    + UnsubEach(s.sync, AutoSync)
  }

  function DoAll(b: Backing, calls: seq<Call>): Backing
    decreases calls
  {
    if calls == [] then b else DoAll(Do(b, calls[0]).0, calls[1..])
  }

  function Close(s: Registry, localOrder: seq<string>, sharedOrder: seq<string>): Registry
    requires Walks(localOrder, s.local) && Walks(sharedOrder, s.shared)
  {
    var b := DoAll(s.b, CloseCalls(s, localOrder, sharedOrder));
    Registry(false, s.next, [[], [], [], [], [], []], map[], map[], [], b)
  }

  // ---- runs ----

  datatype Step =
    | Register(event: string, interProcess: bool, callback: int)
    | RegisterMode(mode: nat, callback: int)
    | RegisterProgress(callback: int)
    | UnRegister(event: string, interProcess: bool, callback: int)
    | UnRegisterAll(event: string, interProcess: bool)
    | UnRegisterMode(mode: nat, which: Option<int>)
    | UnRegisterProgress(which: Option<int>)
    | Shut(localOrder: seq<string>, sharedOrder: seq<string>)

  predicate Enabled(s: Registry, step: Step) {
    && Shape(s)
    && (step.RegisterMode? || step.UnRegisterMode? ==> step.mode < SUBSCRIBE_MODE_MAX)
    && (step.Shut? ==> Walks(step.localOrder, s.local) && Walks(step.sharedOrder, s.shared))
  }

  function Apply(s: Registry, step: Step): (Registry, int)
    requires Enabled(s, step)
  {
    if !s.open then (s, E_ALREADY_CLOSED)
    else
      match step
      case Register(e, ip, cb) => RegisteredObserver(s, LocalSlot(e, ip), cb)
      case RegisterMode(m, cb) => Subscribe(s, Mode(m), cb)
      case RegisterProgress(cb) => Subscribe(s, Progress, cb)
      case UnRegister(e, ip, cb) => UnRegisteredObserver(s, LocalSlot(e, ip), cb)
      case UnRegisterAll(e, ip) => UnRegisteredAllObserver(s, LocalSlot(e, ip))
      case UnRegisterMode(m, which) => RemoveFrom(s, Mode(m), which)
      case UnRegisterProgress(which) => RemoveFrom(s, Progress, which)
      case Shut(lo, so) => (Close(s, lo, so), E_OK)
  }

  ghost function ViewOf(s: Registry): View { View(slot => At(s, slot), s.next, s.b.accepted) }

  ghost predicate Good(s: Registry) { Shape(s) && (s.open ==> Inv(ViewOf(s))) }

  /**
   The only step that parts a list from the store: removing all observers of the event that the mode lists also use,
   while the mode list of the same mode is not empty, and the store doing so.
   */
  predicate Clobbers(s: Registry, step: Step) {
    && s.open && step.UnRegisterAll? && step.event == "dataChange"
    && Has(s, LocalSlot(step.event, step.interProcess))
    && At(s, Mode(if step.interProcess then LOCAL_SHARED else LOCAL)) != []
    && s.b.answers(|s.b.log|) == E_OK
  }

  // ---- single operations ----

  lemma PutAt(s: Registry, slot: Slot, list: seq<Obs>)
    requires Shape(s) && IsSlot(slot)
    ensures Shape(Put(s, slot, list)) && At(Put(s, slot, list), slot) == list
    ensures forall other | other != slot :: At(Put(s, slot, list), other) == At(s, other)
  {
  }

  lemma DropAt(s: Registry, slot: Slot)
    requires slot.Local? || slot.Shared?
    ensures At(Drop(s, slot), slot) == []
    ensures forall other | other != slot :: At(Drop(s, slot), other) == At(s, other)
  {
  }

  lemma SubscribeKeeps(s: Registry, slot: Slot, callback: int)
    requires Shape(s) && IsSlot(slot) && Inv(ViewOf(s))
    requires Once(slot) ==> !HasCallback(At(s, slot), callback)
    ensures var t := Subscribe(s, slot, callback).0;
            Shape(t) && Inv(ViewOf(t)) && (Mirror(ViewOf(s)) ==> Mirror(ViewOf(t)))
  {
    var (t, code) := Subscribe(s, slot, callback);
    if code != E_OK {
      SameKeeps(ViewOf(s), ViewOf(t));
    } else {
      AddKeeps(ViewOf(s), ViewOf(t), Obs(s.next, callback, slot));
    }
  }

  lemma RegisterKeeps(s: Registry, slot: Slot, callback: int)
    requires Shape(s) && IsSlot(slot) && Inv(ViewOf(s))
    ensures var t := RegisteredObserver(s, slot, callback).0;
            Shape(t) && Inv(ViewOf(t)) && (Mirror(ViewOf(s)) ==> Mirror(ViewOf(t)))
  {
    var s1 := if Has(s, slot) then s else Put(s, slot, []);
    SameKeeps(ViewOf(s), ViewOf(s1));
    if !HasCallback(At(s1, slot), callback) { SubscribeKeeps(s1, slot, callback); }
  }

  lemma {:induction false} NoneSelected(list: seq<Obs>, key: Key, callback: int, b: Backing)
    requires !HasCallback(list, callback)
    ensures Remove(list, key, Some(callback), b) == (list, b, E_OK)
  {
    if list != [] {
      assert forall i | 0 <= i < |list[1..]| :: list[1..][i] == list[i + 1];
      NoneSelected(list[1..], key, callback, b);
      assert [list[0]] + list[1..] == list;
    }
  }

  /** On a list with one observer per callback, stopping at the first match removes all there is to remove. */
  lemma {:induction false} RemoveFirstIsRemove(list: seq<Obs>, key: Key, callback: int, b: Backing)
    requires OneEach(list)
    ensures RemoveFirst(list, key, callback, b) == Remove(list, key, Some(callback), b)
  {
    if list != [] {
      assert forall i | 0 <= i < |list[1..]| :: list[1..][i] == list[i + 1];
      if list[0].callback != callback {
        RemoveFirstIsRemove(list[1..], key, callback, b);
      } else {
        NoneSelected(list[1..], key, callback, Do(b, Unsub(key, list[0])).0);
      }
    }
  }

  lemma RemoveFromKeeps(s: Registry, slot: Slot, which: Option<int>)
    requires Shape(s) && IsSlot(slot) && Inv(ViewOf(s))
    ensures var t := RemoveFrom(s, slot, which).0;
            Shape(t) && Inv(ViewOf(t)) && (Mirror(ViewOf(s)) ==> Mirror(ViewOf(t)))
  {
    var list := At(s, slot);
    var t := RemoveFrom(s, slot, which).0;
    assert GoodList(ViewOf(s), slot);
    RemoveMirrors(list, KeyOf(slot), which, s.b);
    if OneEach(list) { RemoveOneEach(list, KeyOf(slot), which, s.b); }
    PutAt(s.(b := t.b), slot, At(t, slot));
    ShrinkKeeps(ViewOf(s), ViewOf(t), slot);
  }

  lemma UnRegisterKeeps(s: Registry, slot: Slot, callback: int)
    requires Shape(s) && (slot.Local? || slot.Shared?) && Inv(ViewOf(s))
    ensures var t := UnRegisteredObserver(s, slot, callback).0;
            Shape(t) && Inv(ViewOf(t)) && (Mirror(ViewOf(s)) ==> Mirror(ViewOf(t)))
  {
    assert GoodList(ViewOf(s), slot);
    RemoveFirstIsRemove(At(s, slot), KeyOf(slot), callback, s.b);
    RemoveFromKeeps(s, slot, Some(callback));
    var s1 := RemoveFrom(s, slot, Some(callback)).0;
    var t := UnRegisteredObserver(s, slot, callback).0;
    if Has(s, slot) {
      DropAt(s1, slot);
      SameKeeps(ViewOf(s1), ViewOf(t));
    }
  }

  lemma TwinSlot(slot: Slot, other: Slot)
    requires (slot.Local? || slot.Shared?) && other != slot && KeyOf(other) == KeyOf(slot) && !other.NdkType?
    ensures slot.event == "dataChange" && other == Mode(if slot.Shared? then LOCAL_SHARED else LOCAL)
  {
  }

  lemma UnRegisterAllKeeps(s: Registry, event: string, ip: bool)
    requires Shape(s) && s.open && Inv(ViewOf(s))
    ensures var t := UnRegisteredAllObserver(s, LocalSlot(event, ip)).0;
            && Shape(t) && Inv(ViewOf(t))
            && (Mirror(ViewOf(s)) ==> (Mirror(ViewOf(t)) <==> !Clobbers(s, UnRegisterAll(event, ip))))
  {
    var slot := LocalSlot(event, ip);
    var (t, code) := UnRegisteredAllObserver(s, slot);
    if !Has(s, slot) || code != E_OK {
      SameKeeps(ViewOf(s), ViewOf(t));
    } else {
      DropAt(s.(b := t.b), slot);
      DropKeeps(ViewOf(s), ViewOf(t), slot);
      forall other | other != slot && KeyOf(other) == KeyOf(slot) && !other.NdkType?
        ensures slot.event == "dataChange" && other == Mode(if slot.Shared? then LOCAL_SHARED else LOCAL)
      {
        TwinSlot(slot, other);
      }
      var twin := Mode(if ip then LOCAL_SHARED else LOCAL);
      if event == "dataChange" { assert KeyOf(twin) == KeyOf(slot); }
      assert ViewOf(s).lists(twin) == At(s, twin);
    }
  }

  // ---- every run ----

  lemma StepKeeps(s: Registry, step: Step)
    requires Good(s) && Enabled(s, step)
    ensures var t := Apply(s, step).0;
            Good(t) && (s.open && t.open && Mirror(ViewOf(s)) ==> (Mirror(ViewOf(t)) <==> !Clobbers(s, step)))
  {
    if s.open {
      match step
      case Register(e, ip, cb) => RegisterKeeps(s, LocalSlot(e, ip), cb);
      case RegisterMode(m, cb) => SubscribeKeeps(s, Mode(m), cb);
      case RegisterProgress(cb) => SubscribeKeeps(s, Progress, cb);
      case UnRegister(e, ip, cb) => UnRegisterKeeps(s, LocalSlot(e, ip), cb);
      case UnRegisterAll(e, ip) => UnRegisterAllKeeps(s, e, ip);
      case UnRegisterMode(m, which) => RemoveFromKeeps(s, Mode(m), which);
      case UnRegisterProgress(which) => RemoveFromKeeps(s, Progress, which);
      case Shut(lo, so) =>
    }
  }

  predicate CanRun(s: Registry, steps: seq<Step>)
    decreases steps
  {
    steps == [] || (Enabled(s, steps[0]) && CanRun(Apply(s, steps[0]).0, steps[1..]))
  }

  function Run(s: Registry, steps: seq<Step>): Registry
    requires CanRun(s, steps)
    decreases steps
  {
    if steps == [] then s else Run(Apply(s, steps[0]).0, steps[1..])
  }

  lemma {:induction false} RunKeeps(s: Registry, steps: seq<Step>)
    requires Good(s) && CanRun(s, steps)
    ensures Good(Run(s, steps))
    decreases steps
  {
    if steps != [] {
      StepKeeps(s, steps[0]);
      RunKeeps(Apply(s, steps[0]).0, steps[1..]);
    }
  }

  lemma InitGood(answers: nat -> int)
    ensures Good(Init(answers)) && Mirror(ViewOf(Init(answers)))
  {
    var v := ViewOf(Init(answers));
    forall slot ensures GoodList(v, slot) && v.lists(slot) == [] {
    }
  }

  /**
   In every run, whatever the store answers: until the close, no list holds an observer twice, no callback is
   registered twice for an event, and the store holds no observer that the lists have forgotten.
   */
  lemma NothingForgotten(answers: nat -> int, steps: seq<Step>)
    requires CanRun(Init(answers), steps) && Run(Init(answers), steps).open
    ensures var s := Run(Init(answers), steps);
            && (forall o | o in s.b.accepted :: o in At(s, o.home))
            && (forall slot :: Distinct(At(s, slot)) && (Once(slot) ==> OneEach(At(s, slot))))
  {
    InitGood(answers);
    RunKeeps(Init(answers), steps);
    var s := Run(Init(answers), steps);
    var v := ViewOf(s);
    assert forall slot :: GoodList(v, slot) && v.lists(slot) == At(s, slot);
  }

  ghost predicate MirrorThroughout(s: Registry, steps: seq<Step>)
    requires CanRun(s, steps)
    decreases steps
  {
    && (s.open ==> Mirror(ViewOf(s)))
    && (steps != [] ==> MirrorThroughout(Apply(s, steps[0]).0, steps[1..]))
  }

  predicate NoClobber(s: Registry, steps: seq<Step>)
    requires CanRun(s, steps)
    decreases steps
  {
    steps == [] || (!Clobbers(s, steps[0]) && NoClobber(Apply(s, steps[0]).0, steps[1..]))
  }

  lemma {:induction false} MirrorFrom(s: Registry, steps: seq<Step>)
    requires Good(s) && CanRun(s, steps) && (s.open ==> Mirror(ViewOf(s)))
    ensures MirrorThroughout(s, steps) <==> NoClobber(s, steps)
    decreases steps
  {
    if steps != [] {
      StepKeeps(s, steps[0]);
      var t := Apply(s, steps[0]).0;
      if t.open ==> Mirror(ViewOf(t)) { MirrorFrom(t, steps[1..]); }
    }
  }

  /** The lists mirror the store in every state of a run exactly when no step of the run is a clobbering one. */
  lemma MirrorIff(answers: nat -> int, steps: seq<Step>)
    requires CanRun(Init(answers), steps)
    ensures MirrorThroughout(Init(answers), steps) <==> NoClobber(Init(answers), steps)
  {
    InitGood(answers);
    MirrorFrom(Init(answers), steps);
  }

  /** An observer of mode list 3 is lost by the store, and kept in the list, when local "dataChange" is cleared. */
  lemma ClobberingRun(answers: nat -> int)
    requires answers(0) == answers(1) == answers(2) == E_OK
    ensures var steps := [RegisterMode(LOCAL, 7), Register("dataChange", false, 8), UnRegisterAll("dataChange", false)];
            && CanRun(Init(answers), steps)
            && At(Run(Init(answers), steps), Mode(LOCAL)) == [Obs(0, 7, Mode(LOCAL))]
            && Run(Init(answers), steps).b.accepted == {}
  {
    var first, second := RegisterMode(LOCAL, 7), Register("dataChange", false, 8);
    var third := UnRegisterAll("dataChange", false);
    var s0 := Init(answers);
    var a, o := Obs(0, 7, Mode(LOCAL)), Obs(1, 8, Local("dataChange"));
    var s1 := Apply(s0, first).0;
    assert s1.modes[LOCAL] == [a] && s1.b.accepted == {a} && s1.next == 1 && |s1.b.log| == 1;
    var s2 := Apply(s1, second).0;
    assert s2.modes == s1.modes && s2.b.accepted == {a, o} && |s2.b.log| == 2 && "dataChange" in s2.local;
    var s3 := Apply(s2, third).0;
    assert s3.b.accepted == {} && s3.modes == s2.modes;
    var steps := [first, second, third];
    assert steps[1..] == [second, third] && steps[1..][1..] == [third] && steps[1..][1..][1..] == [];
    assert CanRun(s3, []) && Run(s3, []) == s3;
    assert CanRun(s2, [third]) && Run(s2, [third]) == s3;
    assert CanRun(s1, [second, third]) && Run(s1, [second, third]) == s3;
  }

  /** A removal from a mode list that succeeds leaves exactly the other observers, in order. */
  lemma RemovedAll(s: Registry, slot: Slot, which: Option<int>)
    requires Shape(s) && IsSlot(slot)
    ensures var (t, code) := RemoveFrom(s, slot, which);
            if code == E_OK then At(t, slot) == Unselected(At(s, slot), which)
            else StoppedSomewhere(At(s, slot), which, At(t, slot))
  {
    RemoveShape(At(s, slot), KeyOf(slot), which, s.b);
    var (kept, b, code) := Remove(At(s, slot), KeyOf(slot), which, s.b);
    PutAt(s.(b := b), slot, kept);
  }

  /** After a successful unregistration no observer of the callback is left for the event; the others are. */
  lemma UnRegisterRemoves(s: Registry, slot: Slot, callback: int, o: Obs)
    requires Shape(s) && (slot.Local? || slot.Shared?) && OneEach(At(s, slot))
    requires UnRegisteredObserver(s, slot, callback).1 == E_OK
    ensures o in At(UnRegisteredObserver(s, slot, callback).0, slot) <==> o in At(s, slot) && o.callback != callback
  {
    var list := At(s, slot);
    RemoveFirstIsRemove(list, KeyOf(slot), callback, s.b);
    RemoveShape(list, KeyOf(slot), Some(callback), s.b);
    UnselectedHas(list, Some(callback), o);
  }

  lemma {:induction false} RemoveFirstLast(list: seq<Obs>, o: Obs, key: Key, b: Backing)
    requires !HasCallback(list, o.callback) && Do(b, Unsub(key, o)).1 == E_OK
    ensures RemoveFirst(list + [o], key, o.callback, b) == (list, Do(b, Unsub(key, o)).0, E_OK)
  {
    if list == [] {
      assert list + [o] == [o];
    } else {
      var tail := list[1..];
      assert forall i | 0 <= i < |tail| :: tail[i] == list[i + 1];
      assert (list + [o])[1..] == tail + [o] && [list[0]] + tail == list;
      RemoveFirstLast(tail, o, key, b);
    }
  }

  ghost predicate Differ(s: Registry, t: Registry, slot: Slot, list: seq<Obs>) {
    At(t, slot) == list && forall other | other != slot :: At(t, other) == At(s, other)
  }

  lemma RegisterAdds(s: Registry, slot: Slot, callback: int, o: Obs)
    requires Shape(s) && (slot.Local? || slot.Shared?) && !HasCallback(At(s, slot), callback)
    requires s.b.answers(|s.b.log|) == E_OK && o == Obs(s.next, callback, slot)
    ensures var t := RegisteredObserver(s, slot, callback).0;
            && Shape(t) && Has(t, slot) && Differ(s, t, slot, At(s, slot) + [o])
            && t.b == Backing(s.b.answers, s.b.log + [Sub(KeyOf(slot), o)], s.b.accepted + {o})
  {
    var s1 := if Has(s, slot) then s else Put(s, slot, []);
    assert At(s1, slot) == At(s, slot);
    PutAt(s, slot, []);
    PutAt(s1.(next := s.next + 1, b := Do(s.b, Sub(KeyOf(slot), o)).0), slot, At(s1, slot) + [o]);
  }

  lemma UnRegisterTakes(t: Registry, slot: Slot, list: seq<Obs>, o: Obs)
    requires Shape(t) && (slot.Local? || slot.Shared?) && Has(t, slot) && At(t, slot) == list + [o]
    requires !HasCallback(list, o.callback) && t.b.answers(|t.b.log|) == E_OK && o.home == slot
    ensures var u := UnRegisteredObserver(t, slot, o.callback).0;
            Differ(t, u, slot, list) && u.b.accepted == t.b.accepted - {o}
  {
    RemoveFirstLast(list, o, KeyOf(slot), t.b);
    var b := Do(t.b, Unsub(KeyOf(slot), o)).0;
    PutAt(t.(b := b), slot, list);
    DropAt(Put(t.(b := b), slot, list), slot);
  }

  /** Registering a new callback and unregistering it again restores every list and the accepted observers. */
  lemma RegisterThenUnRegister(s: Registry, slot: Slot, callback: int)
    requires Shape(s) && (slot.Local? || slot.Shared?) && Inv(ViewOf(s)) && !HasCallback(At(s, slot), callback)
    requires s.b.answers(|s.b.log|) == s.b.answers(|s.b.log| + 1) == E_OK
    ensures var t := RegisteredObserver(s, slot, callback).0;
            && Shape(t)
            && var u := UnRegisteredObserver(t, slot, callback).0;
               Differ(s, u, slot, At(s, slot)) && u.b.accepted == s.b.accepted
  {
    var o := Obs(s.next, callback, slot);
    assert o !in s.b.accepted by { assert GoodList(ViewOf(s), slot) && ViewOf(s).lists(slot) == At(s, slot); }
    RegisterAdds(s, slot, callback, o);
    UnRegisterTakes(RegisteredObserver(s, slot, callback).0, slot, At(s, slot), o);
  }
}
