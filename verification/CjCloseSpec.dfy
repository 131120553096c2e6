/**
 What closing the Cangjie store does to the tracked observers.
 */
module CjCloseSpec {
  import opened RdbErrno
  import opened Subscription
  import opened CjStoreSpec

  /** The observers that some calls are about, in order. */
  function Subjects(calls: seq<Call>): seq<Obs>
    requires forall c | c in calls :: c.Unsub?
  {
    if calls == [] then [] else [calls[0].obs] + Subjects(calls[1..])
  }

  predicate AllUnsub(calls: seq<Call>) { forall c | c in calls :: c.Unsub? }

  lemma {:induction false} SubjectsConcat(a: seq<Call>, b: seq<Call>)
    requires AllUnsub(a) && AllUnsub(b)
    ensures AllUnsub(a + b) && Subjects(a + b) == Subjects(a) + Subjects(b)
  {
    if a == [] {
      assert a + b == b;
    } else {
      SubjectsConcat(a[1..], b);
      assert (a + b)[1..] == a[1..] + b;
    }
  }

  lemma {:induction false} SubjectsOfEach(list: seq<Obs>, key: Key)
    ensures AllUnsub(UnsubEach(list, key)) && Subjects(UnsubEach(list, key)) == list
  {
    if list != [] { SubjectsOfEach(list[1..], key); }
  }

  // ---- concatenating lists by slot ----

  function Gather(lists: Slot -> seq<Obs>, slots: seq<Slot>): seq<Obs> {
    if slots == [] then [] else lists(slots[0]) + Gather(lists, slots[1..])
  }

  lemma {:induction false} GatherConcat(lists: Slot -> seq<Obs>, a: seq<Slot>, b: seq<Slot>)
    ensures Gather(lists, a + b) == Gather(lists, a) + Gather(lists, b)
  {
    if a == [] {
      assert a + b == b;
    } else {
      GatherConcat(lists, a[1..], b);
      assert (a + b)[1..] == a[1..] + b;
    }
  }

  predicate DistinctSlots(slots: seq<Slot>) { forall i, j | 0 <= i < j < |slots| :: slots[i] != slots[j] }

  ghost predicate Homed(list: seq<Obs>, slot: Slot) { Distinct(list) && forall o | o in list :: o.home == slot }

  ghost predicate AllHomed(lists: Slot -> seq<Obs>) { forall slot :: Homed(lists(slot), slot) }

  lemma {:induction false} GatherHas(lists: Slot -> seq<Obs>, slots: seq<Slot>, o: Obs)
    requires AllHomed(lists)
    ensures o in Gather(lists, slots) <==> o.home in slots && o in lists(o.home)
  {
    if slots != [] {
      GatherHas(lists, slots[1..], o);
      assert Homed(lists(slots[0]), slots[0]);
    }
  }

  lemma {:induction false} GatherDistinct(lists: Slot -> seq<Obs>, slots: seq<Slot>)
    requires AllHomed(lists)
    requires DistinctSlots(slots)
    ensures Distinct(Gather(lists, slots))
  {
    if slots != [] {
      var head, rest := lists(slots[0]), Gather(lists, slots[1..]);
      GatherDistinct(lists, slots[1..]);
      assert Homed(head, slots[0]);
      forall i, j | 0 <= i < |head| && 0 <= j < |rest| ensures head[i] != rest[j] {
        assert head[i] in lists(slots[0]);
        GatherHas(lists, slots[1..], rest[j]);
        assert rest[j] in rest;
      }
    }
  }

  // ---- the calls of a close ----

  function ModeSlots(m: nat): seq<Slot>
    requires m <= SUBSCRIBE_MODE_MAX
    decreases SUBSCRIBE_MODE_MAX - m
  {
    if m == SUBSCRIBE_MODE_MAX then [] else [Mode(m)] + ModeSlots(m + 1)
  }

  function EventSlots(order: seq<string>, interProcess: bool): seq<Slot> {
    if order == [] then [] else [LocalSlot(order[0], interProcess)] + EventSlots(order[1..], interProcess)
  }

  lemma {:induction false} ModeSubjects(s: Registry, m: nat)
    requires Shape(s) && m <= SUBSCRIBE_MODE_MAX
    ensures AllUnsub(ModeCalls(s.modes, m)) && Subjects(ModeCalls(s.modes, m)) == Gather(ViewOf(s).lists, ModeSlots(m))
    decreases SUBSCRIBE_MODE_MAX - m
  {
    if m < SUBSCRIBE_MODE_MAX {
      ModeSubjects(s, m + 1);
      SubjectsOfEach(s.modes[m], Key(m, ""));
      SubjectsConcat(UnsubEach(s.modes[m], Key(m, "")), ModeCalls(s.modes, m + 1));
    }
  }

  lemma {:induction false} EventSubjects(
    s: Registry, ip: bool, lists: map<string, seq<Obs>>, mode: nat, order: seq<string>)
    requires lists == (if ip then s.shared else s.local) && forall e | e in order :: e in lists
    ensures var calls := EventCalls(lists, mode, order);
            AllUnsub(calls) && Subjects(calls) == Gather(ViewOf(s).lists, EventSlots(order, ip))
  {
    if order != [] {
      EventSubjects(s, ip, lists, mode, order[1..]);
      SubjectsOfEach(lists[order[0]], Key(mode, order[0]));
      SubjectsConcat(UnsubEach(lists[order[0]], Key(mode, order[0])), EventCalls(lists, mode, order[1..]));
    }
  }

  function AllSlots(lo: seq<string>, so: seq<string>): seq<Slot> {
    ModeSlots(0) + EventSlots(lo, false) + EventSlots(so, true) + [Progress]
  }

  lemma {:induction false} JoinGather(f: Slot -> seq<Obs>, a: seq<Call>, x: seq<Slot>, b: seq<Call>, y: seq<Slot>)
    requires AllUnsub(a) && Subjects(a) == Gather(f, x)
    requires AllUnsub(b) && Subjects(b) == Gather(f, y)
    ensures AllUnsub(a + b) && Subjects(a + b) == Gather(f, x + y)
  {
    SubjectsConcat(a, b);
    GatherConcat(f, x, y);
  }

  lemma {:induction false} CloseSubjects(s: Registry, lo: seq<string>, so: seq<string>)
    requires Shape(s) && Walks(lo, s.local) && Walks(so, s.shared)
    ensures var calls := CloseCalls(s, lo, so);
            AllUnsub(calls) && Subjects(calls) == Gather(ViewOf(s).lists, AllSlots(lo, so))
  {
    var f := ViewOf(s).lists;
    var m, l, h, p := ModeCalls(s.modes, 0), EventCalls(s.local, LOCAL, lo), EventCalls(s.shared, LOCAL_SHARED, so),
      UnsubEach(s.sync, AutoSync);
    ModeSubjects(s, 0);
    EventSubjects(s, false, s.local, LOCAL, lo);
    EventSubjects(s, true, s.shared, LOCAL_SHARED, so);
    SubjectsOfEach(s.sync, AutoSync);
    var ms, ls, hs := ModeSlots(0), EventSlots(lo, false), EventSlots(so, true);
    assert Gather(f, [Progress]) == s.sync + Gather(f, []);
    JoinGather(f, m, ms, l, ls);
    JoinGather(f, m + l, ms + ls, h, hs);
    JoinGather(f, m + l + h, ms + ls + hs, p, [Progress]);
  }

  lemma {:induction false} ModeSlotsAre(m: nat, slot: Slot)
    requires m <= SUBSCRIBE_MODE_MAX
    ensures slot in ModeSlots(m) <==> slot.Mode? && m <= slot.mode < SUBSCRIBE_MODE_MAX
    ensures DistinctSlots(ModeSlots(m))
    decreases SUBSCRIBE_MODE_MAX - m
  {
    if m < SUBSCRIBE_MODE_MAX {
      ModeSlotsAre(m + 1, slot);
      ModeSlotsAre(m + 1, Mode(m));
    }
  }

  lemma {:induction false} EventSlotsAre(order: seq<string>, ip: bool, slot: Slot)
    ensures slot in EventSlots(order, ip) <==> exists e :: e in order && slot == LocalSlot(e, ip)
  {
    if order != [] { EventSlotsAre(order[1..], ip, slot); }
  }

  lemma {:induction false} EventSlotsDistinct(order: seq<string>, ip: bool)
    requires forall i, j | 0 <= i < j < |order| :: order[i] != order[j]
    ensures DistinctSlots(EventSlots(order, ip))
  {
    if order != [] {
      var rest := order[1..];
      assert forall i | 0 <= i < |rest| :: rest[i] == order[i + 1] != order[0];
      EventSlotsDistinct(rest, ip);
      EventSlotsAre(rest, ip, LocalSlot(order[0], ip));
    }
  }

  lemma JoinDistinct(a: seq<Slot>, b: seq<Slot>)
    requires DistinctSlots(a) && DistinctSlots(b) && forall slot | slot in a :: slot !in b
    ensures DistinctSlots(a + b)
  {
    var c := a + b;
    forall i, j | 0 <= i < j < |c| ensures c[i] != c[j] {
      if i < |a| <= j { assert c[i] in a && c[j] in b; }
    }
  }

  lemma AllSlotsDistinct(lo: seq<string>, so: seq<string>)
    requires forall i, j | 0 <= i < j < |lo| :: lo[i] != lo[j]
    requires forall i, j | 0 <= i < j < |so| :: so[i] != so[j]
    ensures DistinctSlots(AllSlots(lo, so))
  {
    var ms, ls, hs := ModeSlots(0), EventSlots(lo, false), EventSlots(so, true);
    ModeSlotsAre(0, Progress);
    EventSlotsDistinct(lo, false);
    EventSlotsDistinct(so, true);
    forall slot ensures slot in ms ==> slot.Mode? { ModeSlotsAre(0, slot); }
    forall slot ensures slot in ls ==> slot.Local? { EventSlotsAre(lo, false, slot); }
    forall slot ensures slot in hs ==> slot.Shared? { EventSlotsAre(so, true, slot); }
    JoinDistinct(ms, ls);
    JoinDistinct(ms + ls, hs);
    JoinDistinct(ms + ls + hs, [Progress]);
  }

  lemma TrackedIsListed(s: Registry, lo: seq<string>, so: seq<string>, slot: Slot)
    requires Shape(s) && Walks(lo, s.local) && Walks(so, s.shared) && At(s, slot) != []
    ensures slot in AllSlots(lo, so)
  {
    ModeSlotsAre(0, slot);
    EventSlotsAre(lo, false, slot);
    EventSlotsAre(so, true, slot);
  }

  /** Some calls unsubscribe every tracked observer once, and nothing else. */
  ghost predicate UnsubscribeOnceEach(calls: seq<Call>, s: Registry) {
    && AllUnsub(calls)
    && Distinct(Subjects(calls))
    && forall o :: o in Subjects(calls) <==> o in At(s, o.home)
  }

  lemma GoodIsHomed(s: Registry)
    requires Inv(ViewOf(s))
    ensures AllHomed(ViewOf(s).lists)
  {
    forall slot ensures Homed(ViewOf(s).lists(slot), slot) {
      assert GoodList(ViewOf(s), slot);
    }
  }

  /** Closing makes exactly one unsubscribe call for every tracked observer, and no other call. */
  lemma CloseUnsubscribesOnce(s: Registry, lo: seq<string>, so: seq<string>)
    requires Good(s) && s.open && Walks(lo, s.local) && Walks(so, s.shared)
    ensures UnsubscribeOnceEach(CloseCalls(s, lo, so), s)
  {
    var lists, slots := ViewOf(s).lists, AllSlots(lo, so);
    GoodIsHomed(s);
    CloseSubjects(s, lo, so);
    AllSlotsDistinct(lo, so);
    GatherDistinct(lists, slots);
    forall o ensures o in Gather(lists, slots) <==> o in At(s, o.home) {
      GatherHas(lists, slots, o);
      if o in At(s, o.home) { TrackedIsListed(s, lo, so, o.home); }
    }
  }

  lemma {:induction false} DoAllLogs(b: Backing, calls: seq<Call>)
    ensures DoAll(b, calls).log == b.log + calls
    decreases calls
  {
    if calls != [] { DoAllLogs(Do(b, calls[0]).0, calls[1..]); }
  }

  /** Once closed, no operation changes or calls anything, and each answers that the store is closed. */
  lemma {:induction false} ClosedStays(s: Registry, steps: seq<Step>)
    requires !s.open && CanRun(s, steps)
    ensures Run(s, steps) == s
    ensures forall i | 0 <= i < |steps| :: Enabled(s, steps[i]) && Apply(s, steps[i]).1 == E_ALREADY_CLOSED
  {
    if steps != [] { ClosedStays(s, steps[1..]); }
  }

  lemma Suffix(log: seq<Call>, calls: seq<Call>)
    ensures (log + calls)[|log|..] == calls && (log + calls)[..|log|] == log
  {
  }

  /** The log of a closed store is the log before and the calls of the close. */
  lemma CloseLogs(s: Registry, lo: seq<string>, so: seq<string>)
    requires Walks(lo, s.local) && Walks(so, s.shared)
    ensures Close(s, lo, so).b.log == s.b.log + CloseCalls(s, lo, so)
  {
    DoAllLogs(s.b, CloseCalls(s, lo, so));
  }

  /** What the log of a closed store adds. */
  lemma CloseFromGood(s: Registry, lo: seq<string>, so: seq<string>)
    requires Good(s) && s.open && Walks(lo, s.local) && Walks(so, s.shared)
    ensures var log := Close(s, lo, so).b.log;
            && |s.b.log| <= |log| && log[..|s.b.log|] == s.b.log
            && UnsubscribeOnceEach(log[|s.b.log|..], s)
  {
    CloseUnsubscribesOnce(s, lo, so);
    CloseLogs(s, lo, so);
    Suffix(s.b.log, CloseCalls(s, lo, so));
  }

  lemma CloseEmpties(s: Registry, lo: seq<string>, so: seq<string>, slot: Slot)
    requires Walks(lo, s.local) && Walks(so, s.shared)
    ensures !Close(s, lo, so).open && At(Close(s, lo, so), slot) == []
  {
  }

  /** What is left of a store after a close: nothing tracked, and a log with one more unsubscription per observer. */
  ghost predicate ClosedFrom(s: Registry, end: Registry) {
    && !end.open && (forall slot :: At(end, slot) == [])
    && |s.b.log| <= |end.b.log| && end.b.log[..|s.b.log|] == s.b.log
    && UnsubscribeOnceEach(end.b.log[|s.b.log|..], s)
  }

  lemma CloseIsClosed(s: Registry, lo: seq<string>, so: seq<string>)
    requires Good(s) && s.open && Walks(lo, s.local) && Walks(so, s.shared)
    ensures ClosedFrom(s, Close(s, lo, so))
  {
    CloseFromGood(s, lo, so);
    forall slot ensures At(Close(s, lo, so), slot) == [] {
      CloseEmpties(s, lo, so, slot);
    }
  }

  /** The step that closes the store does so, and answers success. */
  lemma ShutCloses(s: Registry, lo: seq<string>, so: seq<string>)
    requires Good(s) && s.open && Enabled(s, Shut(lo, so))
    ensures ClosedFrom(s, Apply(s, Shut(lo, so)).0) && Apply(s, Shut(lo, so)).1 == E_OK
  {
    CloseIsClosed(s, lo, so);
  }

  lemma {:induction false} RunSplit(s: Registry, a: seq<Step>, b: seq<Step>)
    requires CanRun(s, a + b)
    ensures CanRun(s, a) && CanRun(Run(s, a), b) && Run(s, a + b) == Run(Run(s, a), b)
    decreases a
  {
    if a == [] {
      assert a + b == b;
    } else {
      assert (a + b)[1..] == a[1..] + b;
      RunSplit(Apply(s, a[0]).0, a[1..], b);
    }
  }

  lemma ReachableGood(answers: nat -> int, steps: seq<Step>)
    requires CanRun(Init(answers), steps)
    ensures Good(Run(Init(answers), steps))
  {
    InitGood(answers);
    RunKeeps(Init(answers), steps);
  }

  lemma {:induction false} ShutThenAnything(s: Registry, shut: Step, after: seq<Step>)
    requires Good(s) && s.open && shut.Shut? && CanRun(s, [shut] + after)
    ensures ClosedFrom(s, Run(s, [shut] + after))
  {
    assert ([shut] + after)[0] == shut && ([shut] + after)[1..] == after;
    ShutCloses(s, shut.localOrder, shut.sharedOrder);
    ClosedStays(Apply(s, shut).0, after);
  }

  /** Any run with a close in it: one unsubscribe call per observer tracked at the close, and nothing more ever. */
  lemma {:induction false} CloseIsFinal(answers: nat -> int, before: seq<Step>, shut: Step, after: seq<Step>)
    requires shut.Shut? && CanRun(Init(answers), before + ([shut] + after))
    ensures CanRun(Init(answers), before)
    ensures var s := Run(Init(answers), before);
            s.open ==> ClosedFrom(s, Run(Init(answers), before + ([shut] + after)))
  {
    RunSplit(Init(answers), before, [shut] + after);
    ReachableGood(answers, before);
    if Run(Init(answers), before).open { ShutThenAnything(Run(Init(answers), before), shut, after); }
  }

  // ---- what a close leaves in the store ----

  lemma {:induction false} EachHas(list: seq<Obs>, key: Key, o: Obs)
    requires o in list
    ensures Unsub(key, o) in UnsubEach(list, key)
  {
    if o != list[0] { EachHas(list[1..], key, o); }
  }

  lemma {:induction false} EventCallsHave(
    lists: map<string, seq<Obs>>, mode: nat, order: seq<string>, event: string, o: Obs)
    requires (forall e | e in order :: e in lists) && event in order && o in lists[event]
    ensures Unsub(Key(mode, event), o) in EventCalls(lists, mode, order)
  {
    if event == order[0] { EachHas(lists[event], Key(mode, event), o); }
    else { EventCallsHave(lists, mode, order[1..], event, o); }
  }

  /** An event or progress observer is unsubscribed under the key it was subscribed under. */
  lemma CloseCallsHave(s: Registry, lo: seq<string>, so: seq<string>, o: Obs)
    requires Walks(lo, s.local) && Walks(so, s.shared) && o in At(s, o.home) && !o.home.Mode?
    ensures Unsub(KeyOf(o.home), o) in CloseCalls(s, lo, so)
  {
    match o.home {
      case Local(e) => EventCallsHave(s.local, LOCAL, lo, e, o);
      case Shared(e) => EventCallsHave(s.shared, LOCAL_SHARED, so, e, o);
      case Progress => EachHas(s.sync, AutoSync, o);
    }
  }

  lemma {:induction false} DoAllRemoves(b: Backing, calls: seq<Call>, o: Obs)
    requires (forall n :: b.answers(n) == E_OK) && AllUnsub(calls)
    ensures o in DoAll(b, calls).accepted <==> o in b.accepted && Unsub(KeyOf(o.home), o) !in calls
    decreases calls
  {
    if calls != [] { DoAllRemoves(Do(b, calls[0]).0, calls[1..], o); }
  }

  lemma ShutAccepted(s: Registry, lo: seq<string>, so: seq<string>, o: Obs)
    requires Good(s) && s.open && Enabled(s, Shut(lo, so)) && forall n :: s.b.answers(n) == E_OK
    ensures o in Apply(s, Shut(lo, so)).0.b.accepted <==>
            o in s.b.accepted && Unsub(KeyOf(o.home), o) !in CloseCalls(s, lo, so)
  {
    CloseUnsubscribesOnce(s, lo, so);
    DoAllRemoves(s.b, CloseCalls(s, lo, so), o);
  }

  lemma AcceptedTracked(s: Registry, o: Obs)
    requires Good(s) && s.open && o in s.b.accepted
    ensures o in At(s, o.home)
  {
    assert o in ViewOf(s).lists(o.home);
  }

  /** If the store answers success throughout, a close leaves no observer of an event or of the progress accepted. */
  lemma {:induction false} CloseReleases(s: Registry, lo: seq<string>, so: seq<string>, o: Obs)
    requires Good(s) && s.open && Enabled(s, Shut(lo, so)) && forall n :: s.b.answers(n) == E_OK
    requires o in Apply(s, Shut(lo, so)).0.b.accepted
    ensures o.home.Mode? && o in s.b.accepted
  {
    ShutAccepted(s, lo, so, o);
    AcceptedTracked(s, o);
    if !o.home.Mode? { CloseCallsHave(s, lo, so, o); }
  }
}
