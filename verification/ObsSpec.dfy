/**
 The shared-observer registry with whole calls as steps: what `Register`, `Unregister` and `CleanUp`
 do to the table of wrappers, to the remote service it mirrors and to the release list.
 */
module ObsSpec {
  import opened Answers
  import opened RdbErrno

  type Uri = string

  const RDB_OBS_DUPLICATE_SUB: int := -1
  const MAX_RETRY: nat := 100

  /** A stub around an observer; observer 0 is the null pointer. `id` is the identity of the stub. */
  datatype Wrapper = Wrapper(id: nat, observer: nat)

  /** The stub's comparison with an observer: a null observer equals nothing. */
  predicate Holds(w: Wrapper, observer: nat) {
    observer != 0 && w.observer == observer
  }

  /**
   The environment: the codes the remote client answers with, call after call, and the stubs whose
   last reference is gone by a given time.
   */
  datatype Env = Env(answers: nat -> int, dead: nat -> set<nat>)

  /** A stub that is gone stays gone. */
  ghost predicate Monotone(e: Env) {
    forall t, u | t <= u :: e.dead(t) <= e.dead(u)
  }

  datatype State = State(
    obs: map<Uri, seq<Wrapper>>,
    release: seq<Wrapper>,
    remote: set<(Uri, Wrapper)>,
    calls: nat,
    clock: nat,
    nextId: nat,
    unregistered: set<Wrapper>)

  const EMPTY := State(map[], [], {}, 0, 0, 0, {})

  function ListOf(obs: map<Uri, seq<Wrapper>>, uri: Uri): seq<Wrapper> {
    if uri in obs then obs[uri] else []
  }

  /** `Compute` and `ComputeIfPresent` drop the entry when the callback leaves it empty. */
  function Put(obs: map<Uri, seq<Wrapper>>, uri: Uri, list: seq<Wrapper>): map<Uri, seq<Wrapper>> {
    if list == [] then obs - {uri} else obs[uri := list]
  }

  predicate Leaves(w: Wrapper, observer: nat) { Holds(w, observer) || observer == 0 }

  function Kept(list: seq<Wrapper>, observer: nat): seq<Wrapper> {
    if list == [] then [] else
      (if Leaves(list[0], observer) then [] else [list[0]]) + Kept(list[1..], observer)
  }

  function Taken(list: seq<Wrapper>, observer: nat): seq<Wrapper> {
    if list == [] then [] else
      (if Leaves(list[0], observer) then [list[0]] else []) + Taken(list[1..], observer)
  }

  /** A list without every occurrence of a wrapper. */
  function Without(list: seq<Wrapper>, w: Wrapper): seq<Wrapper> {
    if list == [] then [] else (if list[0] == w then [] else [list[0]]) + Without(list[1..], w)
  }

  lemma {:induction false} WithoutLast(list: seq<Wrapper>, w: Wrapper)
    requires w !in list
    ensures Without(list + [w], w) == list
  {
    if list == [] {
      assert [w][1..] == [];
    } else {
      assert (list + [w])[1..] == list[1..] + [w];
      WithoutLast(list[1..], w);
    }
  }

  predicate Registered(list: seq<Wrapper>, observer: nat) {
    exists i | 0 <= i < |list| :: Holds(list[i], observer)
  }

  function Pairs(uri: Uri, list: seq<Wrapper>): set<(Uri, Wrapper)> {
    set i | 0 <= i < |list| :: (uri, list[i])
  }

  function Elements(list: seq<Wrapper>): set<Wrapper> {
    set i | 0 <= i < |list| :: list[i]
  }

  /** Unregisters the wrappers of `done` remotely and remembers them for release. */
  function Drained(s: State, uri: Uri, done: seq<Wrapper>): State {
    s.(remote := s.remote - Pairs(uri, done),
       release := s.release + done,
       unregistered := s.unregistered + Elements(done),
       calls := s.calls + |done|)
  }

  /** Unregisters the first `k` wrappers of `list`; unless that is all, one more call is made and fails. */
  function Drain(s: State, uri: Uri, list: seq<Wrapper>, k: nat): State
    requires k <= |list|
  {
    Drained(s, uri, list[..k]).(calls := s.calls + k + if k < |list| then 1 else 0)
  }

  function Sweep(list: seq<Wrapper>, dead: set<nat>): seq<Wrapper> {
    if list == [] then [] else
      (if list[0].id in dead then [] else [list[0]]) + Sweep(list[1..], dead)
  }

  /** The forced clean: sweep, sleep, and again while something is left, at most `MAX_RETRY` times in all. */
  function ForceSweep(e: Env, list: seq<Wrapper>, clock: nat, retry: nat): (seq<Wrapper>, nat)
    requires retry < MAX_RETRY
    decreases MAX_RETRY - retry
  {
    var left := Sweep(list, e.dead(clock));
    if retry + 1 < MAX_RETRY && left != [] then ForceSweep(e, left, clock + 1, retry + 1)
    else (left, clock + 1)
  }

  function CleanReleaseObs(e: Env, s: State, force: bool): (State, bool) {
    if force then
      var (left, clock) := ForceSweep(e, s.release, s.clock, 0);
      (s.(release := left, clock := clock), left == [])
    else (s.(release := Sweep(s.release, e.dead(s.clock))), true)
  }

  function Register(e: Env, s: State, uri: Uri, observer: nat, memory: bool, connected: bool): (State, int) {
    var list := ListOf(s.obs, uri);
    if Registered(list, observer) then (s, RDB_OBS_DUPLICATE_SUB)
    else if !memory then (s, E_ERROR)
    else
      var w := Wrapper(s.nextId, observer);
      var t := s.(nextId := s.nextId + 1);
      if !connected then (t, E_GET_DATAOBSMGRCLIENT_FAIL)
      else if e.answers(s.calls) != 0 then (t.(calls := s.calls + 1), E_ERROR)
      else (t.(calls := s.calls + 1, obs := Put(s.obs, uri, list + [w]), remote := s.remote + {(uri, w)}), E_OK)
  }

  /** What follows the extraction: unregister the taken wrappers, and put back those that could not be. */
  function UnregisterTaken(e: Env, s: State, uri: Uri, taken: seq<Wrapper>, connected: bool): (State, int) {
    if !connected then (s.(obs := Put(s.obs, uri, ListOf(s.obs, uri) + taken)), E_GET_DATAOBSMGRCLIENT_FAIL)
    else
      var k := Successes(e.answers, s.calls, |taken|);
      var t := Drain(s, uri, taken, k);
      if k < |taken| then
        (t.(obs := Put(s.obs, uri, ListOf(s.obs, uri) + taken[k..])), e.answers(s.calls + k))
      else (CleanReleaseObs(e, t, false).0, E_OK)
  }

  function Unregister(e: Env, s: State, uri: Uri, observer: nat, connected: bool): (State, int) {
    var list := ListOf(s.obs, uri);
    var taken := Taken(list, observer);
    if taken == [] then (s, E_OK)
    else UnregisterTaken(e, s.(obs := Put(s.obs, uri, Kept(list, observer))), uri, taken, connected)
  }

  /** One entry of the table during `CleanUp`: a failure keeps the rest of this entry and goes on with the next. */
  function CleanEntry(e: Env, s: State, uri: Uri): State {
    var list := ListOf(s.obs, uri);
    var k := Successes(e.answers, s.calls, |list|);
    Drain(s, uri, list, k).(obs := Put(s.obs, uri, list[k..]))
  }

  function CleanEntries(e: Env, s: State, order: seq<Uri>): State
    decreases |order|
  {
    if order == [] then s else CleanEntries(e, CleanEntry(e, s, order[0]), order[1..])
  }

  function Clean(e: Env, s: State, order: seq<Uri>, connected: bool): (State, bool) {
    var t := if connected then CleanEntries(e, s, order) else s;
    if t.obs != map[] then (t, false) else CleanReleaseObs(e, t, true)
  }

  // ---- runs ----

  datatype Call =
    | CallRegister(uri: Uri, observer: nat, memory: bool, connected: bool)
    | CallUnregister(uri: Uri, observer: nat, connected: bool)
    | CallCleanUp(order: seq<Uri>, connected: bool)
    | Idle

  function ApplyCall(e: Env, s: State, c: Call): State {
    match c
    case CallRegister(uri, observer, memory, connected) => Register(e, s, uri, observer, memory, connected).0
    case CallUnregister(uri, observer, connected) => Unregister(e, s, uri, observer, connected).0
    case CallCleanUp(order, connected) => Clean(e, s, order, connected).0
    case Idle => s.(clock := s.clock + 1)
  }

  function Run(e: Env, s: State, calls: seq<Call>): State
    decreases |calls|
  {
    if calls == [] then s else Run(e, ApplyCall(e, s, calls[0]), calls[1..])
  }

  // ---- what every call keeps ----

  ghost predicate Distinct(list: seq<Wrapper>) {
    forall i, j | 0 <= i < j < |list| :: list[i].id != list[j].id
  }

  ghost predicate UniqueObservers(list: seq<Wrapper>) {
    forall i, j | 0 <= i < j < |list| :: list[i].observer == list[j].observer ==> list[i].observer == 0
  }

  ghost predicate GoodList(list: seq<Wrapper>, nextId: nat) {
    Distinct(list) && UniqueObservers(list) && forall i | 0 <= i < |list| :: list[i].id < nextId
  }

  /** The table and the remote service hold exactly the same wrappers, uri by uri. */
  ghost predicate Mirrors(s: State) {
    forall uri, w :: (uri, w) in s.remote <==> uri in s.obs && w in s.obs[uri]
  }

  ghost predicate Inv(e: Env, s: State) {
    && (forall uri | uri in s.obs :: s.obs[uri] != [] && GoodList(s.obs[uri], s.nextId))
    && Mirrors(s)
    && (forall w | w in s.unregistered :: w in s.release || w.id in e.dead(s.clock))
  }

  /** Every wrapper of `list` is kept or taken, and the order within each part is the list's order. */
  lemma {:induction false} SplitList(list: seq<Wrapper>, observer: nat)
    ensures |Kept(list, observer)| + |Taken(list, observer)| == |list|
    ensures multiset(Kept(list, observer)) + multiset(Taken(list, observer)) == multiset(list)
    ensures forall w | w in Kept(list, observer) :: !Leaves(w, observer)
    ensures forall w | w in Taken(list, observer) :: Leaves(w, observer)
  {
    if list != [] {
      assert list == [list[0]] + list[1..];
      SplitList(list[1..], observer);
    }
  }

  /** A list is good exactly when its elements, as a multiset, are: order does not matter. */
  lemma GoodAfterSplit(list: seq<Wrapper>, nextId: nat, parts: seq<Wrapper>)
    requires GoodList(list, nextId) && multiset(parts) <= multiset(list)
    ensures GoodList(parts, nextId)
  {
    forall i | 0 <= i < |parts|
      ensures parts[i] in list
    {
      assert parts[i] in multiset(parts);
    }
    forall i, j | 0 <= i < j < |parts|
      ensures parts[i].id != parts[j].id
      ensures parts[i].observer == parts[j].observer ==> parts[i].observer == 0
    {
      var a, b := parts[i], parts[j];
      if a == b {
        TwiceInSeq(parts, i, j);
        OnceInSeq(list, a);
      } else {
        var m :| 0 <= m < |list| && list[m] == a;
        var n :| 0 <= n < |list| && list[n] == b;
        assert m < n || n < m;
      }
    }
  }

  lemma TwiceInSeq(list: seq<Wrapper>, i: nat, j: nat)
    requires i < j < |list| && list[i] == list[j]
    ensures multiset(list)[list[i]] >= 2
  {
    assert list == list[..i] + [list[i]] + list[i + 1..j] + [list[j]] + list[j + 1..];
  }

  lemma OnceInSeq(list: seq<Wrapper>, w: Wrapper)
    requires Distinct(list)
    ensures multiset(list)[w] <= 1
  {
    if w in list {
      var i :| 0 <= i < |list| && list[i] == w;
      assert list == list[..i] + [w] + list[i + 1..];
      assert w !in list[..i] && w !in list[i + 1..];
    }
  }

  lemma RegisterKeeps(e: Env, s: State, uri: Uri, observer: nat, memory: bool, connected: bool)
    requires Inv(e, s)
    ensures Inv(e, Register(e, s, uri, observer, memory, connected).0)
  {
    var t := Register(e, s, uri, observer, memory, connected).0;
    var list := ListOf(s.obs, uri);
    var w := Wrapper(s.nextId, observer);
    assert !Registered(list, observer) ==> GoodList(list + [w], s.nextId + 1);
    forall u, v
      ensures (u, v) in t.remote <==> u in t.obs && v in t.obs[u]
    {
      assert (u, v) in s.remote <==> u in s.obs && v in s.obs[u];
    }
  }

  /** Moving the first `k` of the taken wrappers out, here and remotely, and putting the rest back keeps the mirror. */
  lemma DrainKeeps(e: Env, s: State, uri: Uri, kept: seq<Wrapper>, taken: seq<Wrapper>, k: nat, t: State)
    requires Inv(e, s) && k <= |taken|
    requires multiset(kept) + multiset(taken) == multiset(ListOf(s.obs, uri))
    requires t.obs == Put(s.obs, uri, kept + taken[k..]) && t.nextId == s.nextId && t.clock == s.clock
    requires t.remote == s.remote - Pairs(uri, taken[..k])
    requires t.release == s.release + taken[..k] && t.unregistered == s.unregistered + Elements(taken[..k])
    ensures Inv(e, t)
  {
    var list := ListOf(s.obs, uri);
    var done, left := taken[..k], kept + taken[k..];
    assert taken == done + taken[k..];
    assert multiset(done) + multiset(left) == multiset(list);
    GoodAfterSplit(list, s.nextId, left);
    forall w
      ensures w in left <==> w in list && w !in done
    {
      OnceInSeq(list, w);
      assert w in left <==> w in multiset(left);
      assert w in list <==> w in multiset(list);
      assert w in done <==> w in multiset(done);
    }
    forall u, w
      ensures (u, w) in t.remote <==> u in t.obs && w in t.obs[u]
    {
      assert (u, w) in s.remote <==> u in s.obs && w in s.obs[u];
      assert (u, w) in Pairs(uri, done) <==> u == uri && w in done;
    }
  }

  lemma {:induction false} SweepErasesOnlyDead(list: seq<Wrapper>, dead: set<nat>)
    ensures forall w :: w in Sweep(list, dead) <==> w in list && w.id !in dead
  {
    if list != [] {
      assert list == [list[0]] + list[1..];
      SweepErasesOnlyDead(list[1..], dead);
    }
  }

  /** A forced clean ends within the retry limit and erases only wrappers that are gone when it ends. */
  lemma {:induction false} ForceSweepErasesOnlyDead(e: Env, list: seq<Wrapper>, clock: nat, retry: nat)
    requires Monotone(e) && retry < MAX_RETRY
    ensures var (left, end) := ForceSweep(e, list, clock, retry);
            && clock < end <= clock + MAX_RETRY - retry
            && (forall w | w in left :: w in list)
            && (forall w | w in list :: w in left || w.id in e.dead(end))
            && (left == [] || end == clock + MAX_RETRY - retry)
    decreases MAX_RETRY - retry
  {
    SweepErasesOnlyDead(list, e.dead(clock));
    var left := Sweep(list, e.dead(clock));
    assert e.dead(clock) <= e.dead(clock + 1);
    if retry + 1 < MAX_RETRY && left != [] {
      ForceSweepErasesOnlyDead(e, left, clock + 1, retry + 1);
      var (_, end) := ForceSweep(e, left, clock + 1, retry + 1);
      assert e.dead(clock) <= e.dead(end);
    }
  }

  lemma CleanReleaseKeeps(e: Env, s: State, force: bool)
    requires Inv(e, s) && Monotone(e)
    ensures var (t, ok) := CleanReleaseObs(e, s, force);
            Inv(e, t) && t.obs == s.obs && (force && ok ==> t.release == [])
  {
    if force {
      ForceSweepErasesOnlyDead(e, s.release, s.clock, 0);
      var (left, end) := ForceSweep(e, s.release, s.clock, 0);
      assert e.dead(s.clock) <= e.dead(end);
    } else {
      SweepErasesOnlyDead(s.release, e.dead(s.clock));
    }
  }

  lemma PutTwice(obs: map<Uri, seq<Wrapper>>, uri: Uri, a: seq<Wrapper>, b: seq<Wrapper>)
    ensures Put(Put(obs, uri, a), uri, b) == Put(obs, uri, b)
    ensures ListOf(Put(obs, uri, a), uri) == a
  {
  }

  /** `Unregister` in one piece: the unregistered wrappers are gone, the others are in the entry, reordered. */
  lemma UnregisterForm(e: Env, s: State, uri: Uri, observer: nat, connected: bool, k: nat, t: State)
    requires var taken := Taken(ListOf(s.obs, uri), observer);
             && taken != []
             && k == (if connected then Successes(e.answers, s.calls, |taken|) else 0)
             && t == Drain(s, uri, taken, k).(
                       obs := Put(s.obs, uri, Kept(ListOf(s.obs, uri), observer) + taken[k..]),
                       calls := if connected then Drain(s, uri, taken, k).calls else s.calls)
    ensures var u := Unregister(e, s, uri, observer, connected).0; u == t || u == CleanReleaseObs(e, t, false).0
  {
    var list := ListOf(s.obs, uri);
    var kept, taken := Kept(list, observer), Taken(list, observer);
    PutTwice(s.obs, uri, kept, kept + taken[k..]);
    if connected {
      assert k == |taken| ==> kept + taken[k..] == kept;
    } else {
      assert taken[..0] == [] && taken[0..] == taken;
      assert s.release + [] == s.release;
      assert t == s.(obs := Put(s.obs, uri, kept + taken));
    }
  }

  lemma UnregisterKeeps(e: Env, s: State, uri: Uri, observer: nat, connected: bool)
    requires Inv(e, s) && Monotone(e)
    ensures Inv(e, Unregister(e, s, uri, observer, connected).0)
  {
    var list := ListOf(s.obs, uri);
    var kept, taken := Kept(list, observer), Taken(list, observer);
    if taken != [] {
      var k := if connected then Successes(e.answers, s.calls, |taken|) else 0;
      var t := Drain(s, uri, taken, k);
      t := t.(obs := Put(s.obs, uri, kept + taken[k..]), calls := if connected then t.calls else s.calls);
      SplitList(list, observer);
      DrainKeeps(e, s, uri, kept, taken, k, t);
      CleanReleaseKeeps(e, t, false);
      UnregisterForm(e, s, uri, observer, connected, k, t);
    }
  }

  lemma CleanEntryKeeps(e: Env, s: State, uri: Uri)
    requires Inv(e, s)
    ensures Inv(e, CleanEntry(e, s, uri)) && CleanEntry(e, s, uri).clock == s.clock
  {
    var list := ListOf(s.obs, uri);
    var k := Successes(e.answers, s.calls, |list|);
    assert [] + list[k..] == list[k..];
    DrainKeeps(e, s, uri, [], list, k, CleanEntry(e, s, uri));
  }

  lemma {:induction false} CleanEntriesKeep(e: Env, s: State, order: seq<Uri>)
    requires Inv(e, s)
    ensures Inv(e, CleanEntries(e, s, order))
    decreases |order|
  {
    if order != [] {
      CleanEntryKeeps(e, s, order[0]);
      CleanEntriesKeep(e, CleanEntry(e, s, order[0]), order[1..]);
    }
  }

  /**
   `CleanUp` answering true means that nothing is registered here or remotely and that every wrapper that
   was ever unregistered is gone.
   */
  lemma CleanUpTrue(e: Env, s: State, order: seq<Uri>, connected: bool)
    requires Inv(e, s) && Monotone(e)
    ensures var (t, ok) := Clean(e, s, order, connected);
            && Inv(e, t)
            && (ok ==> t.obs == map[] && t.remote == {} && t.release == [])
            && (ok ==> forall w | w in t.unregistered :: w.id in e.dead(t.clock))
  {
    CleanEntriesKeep(e, s, order);
    var u := if connected then CleanEntries(e, s, order) else s;
    CleanReleaseKeeps(e, u, true);
    var (t, ok) := Clean(e, s, order, connected);
    if ok {
      forall p | p in t.remote
        ensures false
      {
        assert (p.0, p.1) in t.remote;
      }
    }
  }

  lemma {:induction false} InvRun(e: Env, s: State, calls: seq<Call>)
    requires Inv(e, s) && Monotone(e)
    ensures Inv(e, Run(e, s, calls))
    decreases |calls|
  {
    if calls != [] {
      match calls[0] {
        case CallRegister(uri, observer, memory, connected) => RegisterKeeps(e, s, uri, observer, memory, connected);
        case CallUnregister(uri, observer, connected) => UnregisterKeeps(e, s, uri, observer, connected);
        case CallCleanUp(order, connected) => CleanUpTrue(e, s, order, connected);
        case Idle => assert e.dead(s.clock) <= e.dead(s.clock + 1);
      }
      InvRun(e, ApplyCall(e, s, calls[0]), calls[1..]);
    }
  }

  /**
   After any sequence of calls, with the remote client failing whenever it likes, the wrappers held per uri are
   those registered remotely, no entry is empty and no observer is wrapped twice under one uri.
   */
  lemma MirrorInEveryRun(e: Env, calls: seq<Call>)
    requires Monotone(e)
    ensures var s := Run(e, EMPTY, calls);
            && Mirrors(s)
            && forall uri | uri in s.obs :: s.obs[uri] != [] && Distinct(s.obs[uri]) && UniqueObservers(s.obs[uri])
  {
    InvRun(e, EMPTY, calls);
  }

  /** If the remote client never fails, `CleanUp` over every entry empties the table whatever the order. */
  lemma {:induction false} CleanEntriesComplete(e: Env, s: State, order: seq<Uri>)
    requires forall n :: e.answers(n) == 0
    requires forall uri | uri in s.obs :: uri in order
    ensures CleanEntries(e, s, order).obs == map[]
    decreases |order|
  {
    if order != [] {
      var list := ListOf(s.obs, order[0]);
      AllSucceed(e.answers, s.calls, |list|);
      assert list[|list|..] == [];
      var t := CleanEntry(e, s, order[0]);
      assert t.obs == s.obs - {order[0]};
      assert order == [order[0]] + order[1..];
      CleanEntriesComplete(e, t, order[1..]);
    }
  }

  lemma {:induction false} KeptAppend(list: seq<Wrapper>, w: Wrapper, observer: nat)
    requires Leaves(w, observer) && forall v | v in list :: !Leaves(v, observer)
    ensures Kept(list + [w], observer) == list && Taken(list + [w], observer) == [w]
  {
    if list == [] {
      assert [w][1..] == [];
    } else {
      assert (list + [w])[1..] == list[1..] + [w];
      KeptAppend(list[1..], w, observer);
    }
  }

  /** An observer that was registered and then unregistered leaves the table and the remote service as they were. */
  lemma RegisterThenUnregister(e: Env, s: State, uri: Uri, observer: nat)
    requires Inv(e, s) && observer != 0
    requires Register(e, s, uri, observer, true, true).1 == E_OK
    requires Unregister(e, Register(e, s, uri, observer, true, true).0, uri, observer, true).1 == E_OK
    ensures var t := Unregister(e, Register(e, s, uri, observer, true, true).0, uri, observer, true).0;
            t.obs == s.obs && t.remote == s.remote
  {
    var list := ListOf(s.obs, uri);
    var w := Wrapper(s.nextId, observer);
    var m := Register(e, s, uri, observer, true, true).0;
    assert ListOf(m.obs, uri) == list + [w];
    KeptAppend(list, w, observer);
    assert Successes(e.answers, m.calls, 1) == 1;
    assert [w][1..] == [] && list + [] == list && [w][..1] == [w];
    var t := Unregister(e, m, uri, observer, true).0;
    assert Pairs(uri, [w]) == {(uri, w)} by { assert [w][0] == w; }
    assert t.remote == m.remote - {(uri, w)};
    assert (uri, w) !in s.remote;
    assert t.obs == s.obs;
  }

  lemma DrainedStep(s: State, uri: Uri, done: seq<Wrapper>, w: Wrapper)
    ensures Drained(s, uri, done + [w])
         == (var t := Drained(s, uri, done);
             t.(remote := t.remote - {(uri, w)}, release := t.release + [w],
                unregistered := t.unregistered + {w}, calls := t.calls + 1))
  {
    assert (done + [w])[|done|] == w;
    assert forall i | 0 <= i < |done| :: (done + [w])[i] == done[i];
    assert Pairs(uri, done + [w]) == Pairs(uri, done) + {(uri, w)};
    assert Elements(done + [w]) == Elements(done) + {w};
    assert s.release + (done + [w]) == s.release + done + [w];
  }
}
