/**
 The shared-observer registry with the real lock granularity: the table is locked for one callback at a time,
 calls to the remote client happen outside it, except for `CleanUp`, which holds the lock throughout.
 The remote client refuses to unregister a wrapper it does not know.
 */
module ObsConcurrent {
  import opened ObsSpec

  datatype Thread =
    | Registering(uri: Uri, w: Wrapper)           // inserted, client call outstanding
    | Removing(uri: Uri, w: Wrapper)              // client call failed, roll-back outstanding
    | Extracted(uri: Uri, left: seq<Wrapper>)     // taken out of the table, client calls outstanding
    | Restoring(uri: Uri, left: seq<Wrapper>)     // a client call failed, re-insertion outstanding
    | Cleaning(todo: set<Uri>)                    // inside `CleanUp`, holding the table lock

  function InFlight(th: Thread): seq<Wrapper> {
    if th.Extracted? || th.Restoring? then th.left else []
  }

  datatype System = System(
    obs: map<Uri, seq<Wrapper>>,
    remote: set<(Uri, Wrapper)>,
    threads: map<nat, Thread>,
    locked: bool,
    nextId: nat,
    history: seq<Wrapper>)

  const START := System(map[], {}, map[], false, 0, [])

  datatype Step =
    | BeginRegister(t: nat, uri: Uri, observer: nat)
    | RegisterOk(t: nat)
    | RegisterFail(t: nat)
    | Remove(t: nat)
    | BeginUnregister(t: nat, uri: Uri, observer: nat)
    | UnregisterOk(t: nat)
    | UnregisterFail(t: nat)
    | Restore(t: nat)
    | BeginClean(t: nat)
    | CleanOk(t: nat, uri: Uri)
    | CleanSkip(t: nat, uri: Uri)                 // a client call failed, or the entry is done
    | EndClean(t: nat)

  predicate Enabled(s: System, step: Step) {
    match step
    case BeginRegister(t, _, _) => t !in s.threads && !s.locked
    case RegisterOk(t) => t in s.threads && s.threads[t].Registering?
    case RegisterFail(t) => t in s.threads && s.threads[t].Registering?
    case Remove(t) => t in s.threads && s.threads[t].Removing? && !s.locked
    case BeginUnregister(t, _, _) => t !in s.threads && !s.locked
    case UnregisterOk(t) =>
      && t in s.threads && s.threads[t].Extracted? && s.threads[t].left != []
      && (s.threads[t].uri, s.threads[t].left[0]) in s.remote
    case UnregisterFail(t) => t in s.threads && s.threads[t].Extracted? && s.threads[t].left != []
    case Restore(t) => t in s.threads && s.threads[t].Restoring? && !s.locked
    case BeginClean(t) => t !in s.threads && !s.locked
    case CleanOk(t, uri) =>
      && t in s.threads && s.threads[t].Cleaning? && uri in s.threads[t].todo
      && ListOf(s.obs, uri) != [] && (uri, s.obs[uri][0]) in s.remote
    case CleanSkip(t, uri) => t in s.threads && s.threads[t].Cleaning? && uri in s.threads[t].todo
    case EndClean(t) => t in s.threads && s.threads[t] == Cleaning({})
  }

  function Done(threads: map<nat, Thread>, t: nat, th: Thread): map<nat, Thread> {
    if th.Extracted? && th.left == [] then threads - {t} else threads[t := th]
  }

  function Apply(s: System, step: Step): System
    requires Enabled(s, step)
  {
    match step
    case BeginRegister(t, uri, observer) =>
      var list := ListOf(s.obs, uri);
      if Registered(list, observer) then s
      else
        var w := Wrapper(s.nextId, observer);
        s.(obs := Put(s.obs, uri, list + [w]), nextId := s.nextId + 1, threads := s.threads[t := Registering(uri, w)])
    case RegisterOk(t) =>
      s.(remote := s.remote + {(s.threads[t].uri, s.threads[t].w)}, threads := s.threads - {t})
    case RegisterFail(t) => s.(threads := s.threads[t := Removing(s.threads[t].uri, s.threads[t].w)])
    case Remove(t) =>
      var uri := s.threads[t].uri;
      s.(obs := Put(s.obs, uri, Without(ListOf(s.obs, uri), s.threads[t].w)), threads := s.threads - {t})
    case BeginUnregister(t, uri, observer) =>
      var list := ListOf(s.obs, uri);
      s.(obs := Put(s.obs, uri, Kept(list, observer)),
         threads := Done(s.threads, t, Extracted(uri, Taken(list, observer))))
    case UnregisterOk(t) =>
      var th := s.threads[t];
      s.(remote := s.remote - {(th.uri, th.left[0])}, history := s.history + [th.left[0]],
         threads := Done(s.threads, t, Extracted(th.uri, th.left[1..])))
    case UnregisterFail(t) => s.(threads := s.threads[t := Restoring(s.threads[t].uri, s.threads[t].left)])
    case Restore(t) =>
      var uri := s.threads[t].uri;
      s.(obs := Put(s.obs, uri, ListOf(s.obs, uri) + s.threads[t].left), threads := s.threads - {t})
    case BeginClean(t) => s.(locked := true, threads := s.threads[t := Cleaning(s.obs.Keys)])
    case CleanOk(t, uri) =>
      s.(obs := Put(s.obs, uri, s.obs[uri][1..]), remote := s.remote - {(uri, s.obs[uri][0])},
         history := s.history + [s.obs[uri][0]])
    case CleanSkip(t, uri) => s.(threads := s.threads[t := Cleaning(s.threads[t].todo - {uri})])
    case EndClean(t) => s.(locked := false, threads := s.threads - {t})
  }

  predicate CanRun(s: System, steps: seq<Step>)
    decreases |steps|
  {
    steps == [] || (Enabled(s, steps[0]) && CanRun(Apply(s, steps[0]), steps[1..]))
  }

  function Run(s: System, steps: seq<Step>): System
    requires CanRun(s, steps)
    decreases |steps|
  {
    if steps == [] then s else Run(Apply(s, steps[0]), steps[1..])
  }

  // ---- where a wrapper is ----

  datatype Place = Table(uri: Uri) | Flight(t: nat)

  function At(s: System, p: Place): seq<Wrapper> {
    match p
    case Table(uri) => ListOf(s.obs, uri)
    case Flight(t) => if t in s.threads then InFlight(s.threads[t]) else []
  }

  /** The uri a place belongs to; a thread keeps its list's uri. */
  function UriOf(s: System, p: Place): Uri {
    match p
    case Table(uri) => uri
    case Flight(t) => if t in s.threads && !s.threads[t].Cleaning? then s.threads[t].uri else ""
  }

  /** The wrapper a thread is registering or rolling back, with its uri. */
  function Owned(s: System, t: nat): set<(Uri, Wrapper)> {
    if t in s.threads && (s.threads[t].Registering? || s.threads[t].Removing?)
    then {(s.threads[t].uri, s.threads[t].w)} else {}
  }

  ghost predicate NoRepeat(list: seq<Wrapper>) {
    forall i, j | 0 <= i < j < |list| :: list[i] != list[j]
  }

  /** The lists of the system, place by place, apart from how the state stores them. */
  datatype View = View(
    at: Place -> seq<Wrapper>,
    uriOf: Place -> Uri,
    remote: set<(Uri, Wrapper)>,
    gone: seq<Wrapper>,
    owned: nat -> set<(Uri, Wrapper)>,
    nextId: nat)

  function ViewOf(s: System): View {
    View(p => At(s, p), p => UriOf(s, p), s.remote, s.history,
         (t: nat) => Owned(s, t), s.nextId)
  }

  ghost predicate Held(v: View, uri: Uri, w: Wrapper) {
    exists p :: w in v.at(p) && v.uriOf(p) == uri
  }

  /** A wrapper is in at most one place, and there only once. */
  ghost predicate OnePlace(v: View) {
    && (forall p, q, w :: w in v.at(p) && w in v.at(q) ==> p == q)
    && (forall p :: NoRepeat(v.at(p)))
  }

  /** A wrapper registered remotely is in the table under its uri, or in a list taken from there. */
  ghost predicate RemoteIsHeld(v: View) {
    forall uri, w :: (uri, w) in v.remote ==> Held(v, uri, w)
  }

  /** An unregistered wrapper is nowhere and is not unregistered again. */
  ghost predicate GoneIsFinal(v: View) {
    && NoRepeat(v.gone)
    && (forall p, w :: w in v.at(p) ==> w !in v.gone)
    && (forall uri, w :: (uri, w) in v.remote ==> w !in v.gone)
  }

  ghost predicate IdsBelow(v: View) {
    && (forall p, w :: w in v.at(p) ==> w.id < v.nextId)
    && (forall w :: w in v.gone ==> w.id < v.nextId)
    && (forall uri, w :: (uri, w) in v.remote ==> w.id < v.nextId)
  }

  /** A wrapper whose registration has not succeeded is held, unknown to the remote service and owned by one thread. */
  ghost predicate OwnersAgree(v: View) {
    && (forall t, uri, w :: (uri, w) in v.owned(t) ==> w.id < v.nextId && w !in v.gone)
    && (forall t, uri, w, u :: (uri, w) in v.owned(t) ==> (u, w) !in v.remote)
    && (forall t, u, uri, w, x :: (uri, w) in v.owned(t) && (x, w) in v.owned(u) ==> t == u)
    && (forall t, uri, w :: (uri, w) in v.owned(t) ==> Held(v, uri, w))
  }

  ghost predicate Good(v: View) {
    OnePlace(v) && RemoteIsHeld(v) && GoneIsFinal(v) && IdsBelow(v) && OwnersAgree(v)
  }

  // ---- changes of a view ----

  ghost predicate FewerOwners(v: View, v': View) {
    forall t, x :: x in v'.owned(t) ==> x in v.owned(t)
  }

  /** Nothing moves. */
  lemma SameKeeps(v: View, v': View)
    requires Good(v) && FewerOwners(v, v')
    requires v'.remote == v.remote && v'.gone == v.gone && v'.nextId == v.nextId
    requires forall p :: v'.at(p) == v.at(p)
    requires forall p :: v.at(p) != [] ==> v'.uriOf(p) == v.uriOf(p)
    ensures Good(v')
  {
    forall x, w
      ensures Held(v, x, w) ==> Held(v', x, w)
    {
      if Held(v, x, w) {
        var p :| w in v.at(p) && v.uriOf(p) == x;
        assert w in v'.at(p);
      }
    }
  }

  /** The list at `a` splits into `left`, which stays, and `moved`, which goes to the end of the list at `b`. */
  lemma MoveKeeps(v: View, v': View, a: Place, b: Place, left: seq<Wrapper>, moved: seq<Wrapper>)
    requires Good(v) && FewerOwners(v, v') && a != b
    requires v'.remote == v.remote && v'.gone == v.gone && v'.nextId == v.nextId
    requires forall w :: w in v.at(a) <==> w in left || w in moved
    requires NoRepeat(left) && NoRepeat(moved) && forall w | w in left :: w !in moved
    requires v'.at(a) == left && v'.at(b) == v.at(b) + moved
    requires forall p | p != a && p != b :: v'.at(p) == v.at(p)
    requires moved != [] ==> v'.uriOf(b) == v.uriOf(a)
    requires forall p :: v.at(p) != [] && v'.at(p) != [] ==> v'.uriOf(p) == v.uriOf(p)
    ensures Good(v')
  {
    forall p, w
      ensures w in v'.at(p) <==> if w in moved then p == b else w in v.at(p)
    {
      if w in moved { assert w in v.at(a) && w in v'.at(b); }
    }
    forall x, w
      ensures Held(v, x, w) ==> Held(v', x, w)
    {
      if Held(v, x, w) {
        var p :| w in v.at(p) && v.uriOf(p) == x;
        if w in moved {
          assert w in v.at(a) && w in v'.at(b);
        } else {
          assert w in v'.at(p);
        }
      }
    }
    MovedOnePlace(v, v', a, b, left, moved);
    forall p, w
      ensures w in v'.at(p) ==> exists q :: w in v.at(q)
    {
      if w in v'.at(p) && w in moved { assert w in v.at(a); }
    }
  }

  lemma MovedOnePlace(v: View, v': View, a: Place, b: Place, left: seq<Wrapper>, moved: seq<Wrapper>)
    requires OnePlace(v) && a != b
    requires forall w :: w in v.at(a) <==> w in left || w in moved
    requires NoRepeat(left) && NoRepeat(moved) && forall w | w in left :: w !in moved
    requires v'.at(a) == left && v'.at(b) == v.at(b) + moved
    requires forall p | p != a && p != b :: v'.at(p) == v.at(p)
    requires forall p, w :: w in v'.at(p) <==> if w in moved then p == b else w in v.at(p)
    ensures OnePlace(v')
  {
    forall p, q, w | w in v'.at(p) && w in v'.at(q)
      ensures p == q
    {
      if w !in moved { assert w in v.at(p) && w in v.at(q); }
    }
    forall w | w in moved
      ensures w !in v.at(b)
    {
      assert w in v.at(a);
    }
    NoRepeatConcat(v.at(b), moved);
  }

  lemma NoRepeatConcat(a: seq<Wrapper>, b: seq<Wrapper>)
    requires NoRepeat(a) && NoRepeat(b) && forall w | w in b :: w !in a
    ensures NoRepeat(a + b)
  {
    forall i, j | 0 <= i < j < |a + b|
      ensures (a + b)[i] != (a + b)[j]
    {
      if i < |a| <= j { assert b[j - |a|] in b && a[i] in a; }
    }
  }

  /** The wrapper `w` leaves place `a`; if it was registered remotely it is unregistered there and remembered. */
  lemma DropKeeps(v: View, v': View, a: Place, w: Wrapper, unregistered: bool)
    requires Good(v) && FewerOwners(v, v') && v'.nextId == v.nextId && w.id < v.nextId
    requires NoRepeat(v'.at(a)) && forall x :: x in v'.at(a) <==> x in v.at(a) && x != w
    requires forall p | p != a :: v'.at(p) == v.at(p)
    requires forall p :: v'.at(p) != [] ==> v'.uriOf(p) == v.uriOf(p)
    requires forall t, uri :: (uri, w) !in v'.owned(t)
    requires if unregistered then w in v.at(a) && v'.gone == v.gone + [w] && v'.remote == v.remote - {(v.uriOf(a), w)}
             else v'.gone == v.gone && v'.remote == v.remote && forall uri :: (uri, w) !in v.remote
    ensures Good(v')
  {
    forall uri | (uri, w) in v.remote
      ensures uri == v.uriOf(a)
    {
      var p :| w in v.at(p) && v.uriOf(p) == uri;
    }
    forall p, x
      ensures x in v'.at(p) ==> x in v.at(p)
      ensures x in v.at(p) && x != w ==> x in v'.at(p)
      ensures unregistered ==> w !in v'.at(p)
    {
    }
    if unregistered { NoRepeatConcat(v.gone, [w]); }
    forall uri, x
      ensures Held(v, uri, x) && x != w ==> Held(v', uri, x)
    {
      if Held(v, uri, x) && x != w {
        var p :| x in v.at(p) && v.uriOf(p) == uri;
        assert x in v'.at(p);
      }
    }
  }

  /** A fresh wrapper appears at the end of the list at `a`, owned by the thread that registers it. */
  lemma FreshKeeps(v: View, v': View, a: Place, w: Wrapper, uri: Uri, owner: nat)
    requires Good(v) && w.id == v.nextId && v'.nextId == v.nextId + 1
    requires v'.remote == v.remote && v'.gone == v.gone
    requires v'.at(a) == v.at(a) + [w] && v'.uriOf(a) == uri
    requires forall p | p != a :: v'.at(p) == v.at(p)
    requires forall p :: v.at(p) != [] ==> v'.uriOf(p) == v.uriOf(p)
    requires forall t, x :: x in v'.owned(t) <==> (t == owner && x == (uri, w)) || (t != owner && x in v.owned(t))
    ensures Good(v')
  {
    assert w in v'.at(a);
    assert Held(v', uri, w);
    forall u, x
      ensures Held(v, u, x) ==> Held(v', u, x)
    {
      if Held(v, u, x) {
        var p :| x in v.at(p) && v.uriOf(p) == u;
        assert x in v'.at(p);
      }
    }
    forall p, x
      ensures x in v'.at(p) <==> (x == w && p == a) || x in v.at(p)
    {
    }
    assert forall p :: w !in v.at(p);
    assert NoRepeat(v.at(a) + [w]);
  }

  /** The remote service accepts the wrapper that thread `owner` is registering. */
  lemma ConfirmKeeps(v: View, v': View, w: Wrapper, uri: Uri, owner: nat)
    requires Good(v) && v.owned(owner) == {(uri, w)}
    requires v'.remote == v.remote + {(uri, w)} && v'.gone == v.gone && v'.nextId == v.nextId
    requires forall p :: v'.at(p) == v.at(p)
    requires forall p :: v.at(p) != [] ==> v'.uriOf(p) == v.uriOf(p)
    requires FewerOwners(v, v') && v'.owned(owner) == {}
    ensures Good(v')
  {
    forall u, x
      ensures Held(v, u, x) ==> Held(v', u, x)
    {
      if Held(v, u, x) {
        var p :| x in v.at(p) && v.uriOf(p) == u;
        assert x in v'.at(p);
      }
    }
    assert (uri, w) in v.owned(owner);
  }

  // ---- what every step keeps ----

  ghost predicate Inv(s: System) {
    Good(ViewOf(s))
  }

  lemma {:induction false} SplitMembers(list: seq<Wrapper>, observer: nat)
    requires NoRepeat(list)
    ensures NoRepeat(Kept(list, observer)) && NoRepeat(Taken(list, observer))
    ensures forall w :: w in Kept(list, observer) <==> w in list && !Leaves(w, observer)
    ensures forall w :: w in Taken(list, observer) <==> w in list && Leaves(w, observer)
  {
    if list != [] {
      assert list == [list[0]] + list[1..];
      SplitMembers(list[1..], observer);
    }
  }

  lemma {:induction false} WithoutMembers(list: seq<Wrapper>, w: Wrapper)
    requires NoRepeat(list)
    ensures forall v :: v in Without(list, w) <==> v in list && v != w
    ensures NoRepeat(Without(list, w))
  {
    if list != [] {
      assert list == [list[0]] + list[1..];
      WithoutMembers(list[1..], w);
      assert list[0] !in list[1..];
    }
  }

  lemma BeginRegisterKeeps(s: System, t: nat, uri: Uri, observer: nat)
    requires Inv(s) && Enabled(s, BeginRegister(t, uri, observer))
    ensures Inv(Apply(s, BeginRegister(t, uri, observer)))
  {
    var s' := Apply(s, BeginRegister(t, uri, observer));
    if !Registered(ListOf(s.obs, uri), observer) {
      FreshKeeps(ViewOf(s), ViewOf(s'), Table(uri), Wrapper(s.nextId, observer), uri, t);
    }
  }

  lemma RegisterOkKeeps(s: System, t: nat)
    requires Inv(s) && Enabled(s, RegisterOk(t))
    ensures Inv(Apply(s, RegisterOk(t)))
  {
    ConfirmKeeps(ViewOf(s), ViewOf(Apply(s, RegisterOk(t))), s.threads[t].w, s.threads[t].uri, t);
  }

  /** Steps after which every list is where it was. */
  lemma SamePlacesKeeps(s: System, step: Step)
    requires Inv(s) && Enabled(s, step)
    requires step.RegisterFail? || step.UnregisterFail? || step.BeginClean? || step.CleanSkip? || step.EndClean?
    ensures Inv(Apply(s, step))
  {
    SameKeeps(ViewOf(s), ViewOf(Apply(s, step)));
  }

  lemma RemoveKeeps(s: System, t: nat)
    requires Inv(s) && Enabled(s, Remove(t))
    ensures Inv(Apply(s, Remove(t)))
  {
    var uri, w := s.threads[t].uri, s.threads[t].w;
    var v := ViewOf(s);
    assert NoRepeat(v.at(Table(uri)));
    WithoutMembers(ListOf(s.obs, uri), w);
    assert (uri, w) in v.owned(t);
    DropKeeps(v, ViewOf(Apply(s, Remove(t))), Table(uri), w, false);
  }

  /** Extraction moves the taken wrappers from the table into flight, and touches no other place. */
  ghost predicate ExtractedAt(v: View, v': View, uri: Uri, t: nat, observer: nat, p: Place) {
    var list := v.at(Table(uri));
    && v'.at(p) == (if p == Table(uri) then Kept(list, observer)
                    else if p == Flight(t) then Taken(list, observer) else v.at(p))
    && (v.at(p) != [] && v'.at(p) != [] ==> v'.uriOf(p) == v.uriOf(p))
  }

  ghost predicate Extraction(v: View, v': View, uri: Uri, t: nat, observer: nat) {
    && v'.remote == v.remote && v'.gone == v.gone && v'.nextId == v.nextId
    && v.at(Flight(t)) == [] && v.uriOf(Table(uri)) == uri
    && (Taken(v.at(Table(uri)), observer) != [] ==> v'.uriOf(Flight(t)) == uri)
    && (forall p :: ExtractedAt(v, v', uri, t, observer, p))
    && (forall th :: v'.owned(th) == v.owned(th))
  }

  lemma ExtractionKeeps(v: View, v': View, uri: Uri, t: nat, observer: nat)
    requires Good(v) && Extraction(v, v', uri, t, observer)
    ensures Good(v')
  {
    var list := v.at(Table(uri));
    var kept, taken := Kept(list, observer), Taken(list, observer);
    assert NoRepeat(v.at(Table(uri)));
    SplitMembers(list, observer);
    assert ExtractedAt(v, v', uri, t, observer, Table(uri)) && ExtractedAt(v, v', uri, t, observer, Flight(t));
    assert [] + taken == taken;
    forall p ensures p != Table(uri) && p != Flight(t) ==> v'.at(p) == v.at(p)
             ensures v.at(p) != [] && v'.at(p) != [] ==> v'.uriOf(p) == v.uriOf(p)
    {
      assert ExtractedAt(v, v', uri, t, observer, p);
    }
    MoveKeeps(v, v', Table(uri), Flight(t), kept, taken);
  }

  lemma BeginUnregisterAt(s: System, t: nat, uri: Uri, observer: nat, p: Place)
    requires Enabled(s, BeginUnregister(t, uri, observer))
    ensures ExtractedAt(ViewOf(s), ViewOf(Apply(s, BeginUnregister(t, uri, observer))), uri, t, observer, p)
  {
  }

  lemma BeginUnregisterKeeps(s: System, t: nat, uri: Uri, observer: nat)
    requires Inv(s) && Enabled(s, BeginUnregister(t, uri, observer))
    ensures Inv(Apply(s, BeginUnregister(t, uri, observer)))
  {
    var v, v' := ViewOf(s), ViewOf(Apply(s, BeginUnregister(t, uri, observer)));
    forall p ensures ExtractedAt(v, v', uri, t, observer, p) {
      BeginUnregisterAt(s, t, uri, observer, p);
    }
    assert Extraction(v, v', uri, t, observer);
    ExtractionKeeps(v, v', uri, t, observer);
  }

  lemma RestoreKeeps(s: System, t: nat)
    requires Inv(s) && Enabled(s, Restore(t))
    ensures Inv(Apply(s, Restore(t)))
  {
    var v, v' := ViewOf(s), ViewOf(Apply(s, Restore(t)));
    var uri, left := s.threads[t].uri, s.threads[t].left;
    assert v.at(Flight(t)) == left && v'.at(Flight(t)) == [];
    assert NoRepeat(v.at(Flight(t)));
    assert v'.at(Table(uri)) == v.at(Table(uri)) + left;
    assert forall p | p != Table(uri) && p != Flight(t) :: v'.at(p) == v.at(p);
    assert FewerOwners(v, v');
    assert forall p :: v.at(p) != [] && v'.at(p) != [] ==> v'.uriOf(p) == v.uriOf(p);
    MoveKeeps(v, v', Flight(t), Table(uri), [], left);
  }

  lemma UnregisterOkKeeps(s: System, t: nat)
    requires Inv(s) && Enabled(s, UnregisterOk(t))
    ensures Inv(Apply(s, UnregisterOk(t)))
  {
    var v, v' := ViewOf(s), ViewOf(Apply(s, UnregisterOk(t)));
    var list := s.threads[t].left;
    HeadLeaves(v, Flight(t));
    assert v'.at(Flight(t)) == list[1..];
    DropKeeps(v, v', Flight(t), list[0], true);
  }

  lemma CleanOkKeeps(s: System, t: nat, uri: Uri)
    requires Inv(s) && Enabled(s, CleanOk(t, uri))
    ensures Inv(Apply(s, CleanOk(t, uri)))
  {
    var v, v' := ViewOf(s), ViewOf(Apply(s, CleanOk(t, uri)));
    HeadLeaves(v, Table(uri));
    assert v'.at(Table(uri)) == s.obs[uri][1..];
    DropKeeps(v, v', Table(uri), s.obs[uri][0], true);
  }

  lemma HeadLeaves(v: View, a: Place)
    requires Good(v) && v.at(a) != []
    ensures var w := v.at(a)[0];
            && w in v.at(a) && w.id < v.nextId && NoRepeat(v.at(a)[1..])
            && (forall x :: x in v.at(a)[1..] <==> x in v.at(a) && x != w)
  {
    var list := v.at(a);
    assert NoRepeat(list);
    assert list == [list[0]] + list[1..];
    assert list[0] in v.at(a);
  }

  lemma InvStep(s: System, step: Step)
    requires Inv(s) && Enabled(s, step)
    ensures Inv(Apply(s, step))
  {
    match step {
      case BeginRegister(t, uri, observer) => BeginRegisterKeeps(s, t, uri, observer);
      case RegisterOk(t) => RegisterOkKeeps(s, t);
      case Remove(t) => RemoveKeeps(s, t);
      case BeginUnregister(t, uri, observer) => BeginUnregisterKeeps(s, t, uri, observer);
      case UnregisterOk(t) => UnregisterOkKeeps(s, t);
      case Restore(t) => RestoreKeeps(s, t);
      case CleanOk(t, uri) => CleanOkKeeps(s, t, uri);
      case _ => SamePlacesKeeps(s, step);
    }
  }

  lemma {:induction false} InvRun(s: System, steps: seq<Step>)
    requires Inv(s) && CanRun(s, steps)
    ensures Inv(Run(s, steps))
    decreases |steps|
  {
    if steps != [] {
      InvStep(s, steps[0]);
      InvRun(Apply(s, steps[0]), steps[1..]);
    }
  }

  /**
   Whatever the interleaving: a wrapper is in one place and there once, a wrapper registered remotely is still
   held here, and no wrapper is unregistered twice.
   */
  lemma PlacesInEveryRun(steps: seq<Step>)
    requires CanRun(START, steps)
    ensures var s := Run(START, steps);
            OnePlace(ViewOf(s)) && RemoteIsHeld(ViewOf(s)) && NoRepeat(s.history)
  {
    InvRun(START, steps);
  }

  // ---- local implies remote: exactly when it holds ----

  /** The remote service knows the wrapper, or a thread is still registering it or rolling it back. */
  ghost predicate Known(v: View, w: Wrapper) {
    (exists uri :: (uri, w) in v.remote) || (exists t, uri :: (uri, w) in v.owned(t))
  }

  ghost predicate LocalIsKnown(v: View) {
    forall p, w :: w in v.at(p) ==> Known(v, w)
  }

  /** A roll-back that looks for its wrapper in the table while another thread has it in flight. */
  predicate MissedRollback(s: System, step: Step) {
    step.Remove? && Enabled(s, step) && s.threads[step.t].w !in ListOf(s.obs, s.threads[step.t].uri)
  }

  lemma OwnedStays(s: System, step: Step, w: Wrapper)
    requires Enabled(s, step) && !step.RegisterOk? && !step.Remove? && Known(ViewOf(s), w)
    requires step.UnregisterOk? ==> w != s.threads[step.t].left[0]
    requires step.CleanOk? ==> w != s.obs[step.uri][0]
    ensures Known(ViewOf(Apply(s, step)), w)
  {
    var v, v' := ViewOf(s), ViewOf(Apply(s, step));
    if uri :| (uri, w) in v.remote {
      assert (uri, w) in v'.remote;
    } else {
      var t, uri :| (uri, w) in v.owned(t);
      assert (uri, w) in v'.owned(t);
    }
  }

  /** A wrapper found somewhere after a step was somewhere before it, or is the one just inserted. */
  lemma WasPlaced(s: System, step: Step, p: Place, w: Wrapper)
    requires Inv(s) && Enabled(s, step) && w in At(Apply(s, step), p)
    ensures (exists q :: w in ViewOf(s).at(q)) || (step.BeginRegister? && w == Wrapper(s.nextId, step.observer))
  {
    if step.BeginUnregister? {
      WasPlacedSplit(s, step.t, step.uri, step.observer, p, w);
    } else if step.Remove? {
      WasPlacedRemove(s, step.t, p, w);
    } else if step.Restore? {
      WasPlacedRestore(s, step.t, p, w);
    } else {
      assert w in ViewOf(s).at(p) || (step.BeginRegister? && w == Wrapper(s.nextId, step.observer));
    }
  }

  lemma WasPlacedRemove(s: System, t: nat, p: Place, w: Wrapper)
    requires Inv(s) && Enabled(s, Remove(t)) && w in At(Apply(s, Remove(t)), p)
    ensures w in ViewOf(s).at(p)
  {
    assert NoRepeat(ViewOf(s).at(Table(s.threads[t].uri)));
    WithoutMembers(ListOf(s.obs, s.threads[t].uri), s.threads[t].w);
  }

  lemma WasPlacedRestore(s: System, t: nat, p: Place, w: Wrapper)
    requires Enabled(s, Restore(t)) && w in At(Apply(s, Restore(t)), p)
    ensures exists q :: w in ViewOf(s).at(q)
  {
    assert w in ViewOf(s).at(Flight(t)) || w in ViewOf(s).at(p);
  }

  lemma WasPlacedSplit(s: System, t: nat, uri: Uri, observer: nat, p: Place, w: Wrapper)
    requires Inv(s) && Enabled(s, BeginUnregister(t, uri, observer))
    requires w in At(Apply(s, BeginUnregister(t, uri, observer)), p)
    ensures exists q :: w in ViewOf(s).at(q)
  {
    var v := ViewOf(s);
    assert NoRepeat(v.at(Table(uri)));
    SplitMembers(ListOf(s.obs, uri), observer);
    assert w in v.at(Table(uri)) || w in v.at(p);
  }

  lemma KnownConfirmed(s: System, t: nat, w: Wrapper)
    requires Enabled(s, RegisterOk(t)) && Known(ViewOf(s), w)
    ensures Known(ViewOf(Apply(s, RegisterOk(t))), w)
  {
    var v, v' := ViewOf(s), ViewOf(Apply(s, RegisterOk(t)));
    if uri :| (uri, w) in v.remote {
      assert (uri, w) in v'.remote;
    } else {
      var th, uri :| (uri, w) in v.owned(th);
      assert (uri, w) in v'.owned(th) || (uri, w) in v'.remote;
    }
  }

  /** A wrapper that is still somewhere was not the one just unregistered. */
  lemma NotJustGone(s: System, step: Step, p: Place, w: Wrapper)
    requires Inv(s) && Enabled(s, step) && w in At(Apply(s, step), p)
    ensures step.UnregisterOk? ==> w != s.threads[step.t].left[0]
    ensures step.CleanOk? ==> w != s.obs[step.uri][0]
  {
    InvStep(s, step);
    var s' := Apply(s, step);
    assert step.UnregisterOk? || step.CleanOk? ==> s'.history[|s.history|] in s'.history;
    assert w in ViewOf(s').at(p);
  }

  lemma KnownAfter(s: System, step: Step, p: Place, w: Wrapper)
    requires Inv(s) && LocalIsKnown(ViewOf(s)) && Enabled(s, step) && !step.Remove? && w in At(Apply(s, step), p)
    ensures Known(ViewOf(Apply(s, step)), w)
  {
    WasPlaced(s, step, p, w);
    if !Known(ViewOf(s), w) {
      assert w !in ViewOf(s).at(p);
      assert (step.uri, w) in ViewOf(Apply(s, step)).owned(step.t);
    } else if step.RegisterOk? {
      KnownConfirmed(s, step.t, w);
    } else {
      NotJustGone(s, step, p, w);
      OwnedStays(s, step, w);
    }
  }

  lemma KnownStep(s: System, step: Step)
    requires Inv(s) && LocalIsKnown(ViewOf(s)) && Enabled(s, step) && !step.Remove?
    ensures LocalIsKnown(ViewOf(Apply(s, step)))
  {
    forall p, w | w in ViewOf(Apply(s, step)).at(p)
      ensures Known(ViewOf(Apply(s, step)), w)
    {
      KnownAfter(s, step, p, w);
    }
  }

  /** A roll-back that misses its wrapper leaves it where it is, known to nobody. */
  lemma RollbackMisses(s: System, t: nat)
    requires Inv(s) && MissedRollback(s, Remove(t))
    ensures !LocalIsKnown(ViewOf(Apply(s, Remove(t))))
  {
    var v, v' := ViewOf(s), ViewOf(Apply(s, Remove(t)));
    var uri, w := s.threads[t].uri, s.threads[t].w;
    assert (uri, w) in v.owned(t);
    var p :| w in v.at(p) && v.uriOf(p) == uri;
    assert NoRepeat(v.at(Table(uri)));
    WithoutMembers(ListOf(s.obs, uri), w);
    assert w in v'.at(p);
    forall t', u ensures (u, w) !in v'.owned(t') {
      assert (u, w) in v'.owned(t') ==> (u, w) in v.owned(t');
    }
    assert !Known(v', w);
  }

  lemma KnownToOthers(s: System, t: nat, x: Wrapper)
    requires Enabled(s, Remove(t)) && Known(ViewOf(s), x) && x != s.threads[t].w
    ensures Known(ViewOf(Apply(s, Remove(t))), x)
  {
    var v, v' := ViewOf(s), ViewOf(Apply(s, Remove(t)));
    if u :| (u, x) in v.remote {
      assert (u, x) in v'.remote;
    } else {
      var t', u :| (u, x) in v.owned(t');
      assert (u, x) in v'.owned(t');
    }
  }

  /** A roll-back that finds its wrapper leaves it nowhere. */
  lemma RolledBack(s: System, t: nat, p: Place)
    requires Inv(s) && Enabled(s, Remove(t)) && !MissedRollback(s, Remove(t))
    ensures s.threads[t].w !in At(Apply(s, Remove(t)), p)
  {
    var v, uri, w := ViewOf(s), s.threads[t].uri, s.threads[t].w;
    assert w in v.at(Table(uri)) && NoRepeat(v.at(Table(uri)));
    WithoutMembers(ListOf(s.obs, uri), w);
    if p != Table(uri) { assert w !in v.at(p); }
  }

  lemma RollbackFinds(s: System, t: nat, p: Place, x: Wrapper)
    requires Inv(s) && LocalIsKnown(ViewOf(s)) && Enabled(s, Remove(t)) && !MissedRollback(s, Remove(t))
    requires x in At(Apply(s, Remove(t)), p)
    ensures Known(ViewOf(Apply(s, Remove(t))), x)
  {
    WasPlacedRemove(s, t, p, x);
    RolledBack(s, t, p);
    KnownToOthers(s, t, x);
  }

  lemma RollbackStep(s: System, t: nat)
    requires Inv(s) && LocalIsKnown(ViewOf(s)) && Enabled(s, Remove(t))
    ensures LocalIsKnown(ViewOf(Apply(s, Remove(t)))) <==> !MissedRollback(s, Remove(t))
  {
    if MissedRollback(s, Remove(t)) {
      RollbackMisses(s, t);
    } else {
      forall p, x | x in ViewOf(Apply(s, Remove(t))).at(p) ensures Known(ViewOf(Apply(s, Remove(t))), x) {
        RollbackFinds(s, t, p, x);
      }
    }
  }

  /** Every state of the run has `LocalIsKnown`. */
  ghost predicate KnownThroughout(s: System, steps: seq<Step>)
    requires CanRun(s, steps)
    decreases |steps|
  {
    LocalIsKnown(ViewOf(s)) && (steps == [] || KnownThroughout(Apply(s, steps[0]), steps[1..]))
  }

  predicate NoMissedRollback(s: System, steps: seq<Step>)
    requires CanRun(s, steps)
    decreases |steps|
  {
    steps == [] || (!MissedRollback(s, steps[0]) && NoMissedRollback(Apply(s, steps[0]), steps[1..]))
  }

  lemma {:induction false} LocalIsKnownIff(s: System, steps: seq<Step>)
    requires Inv(s) && LocalIsKnown(ViewOf(s)) && CanRun(s, steps)
    ensures KnownThroughout(s, steps) <==> NoMissedRollback(s, steps)
    decreases |steps|
  {
    if steps != [] {
      var s' := Apply(s, steps[0]);
      InvStep(s, steps[0]);
      if steps[0].Remove? { RollbackStep(s, steps[0].t); } else { KnownStep(s, steps[0]); }
      if LocalIsKnown(ViewOf(s')) {
        LocalIsKnownIff(s', steps[1..]);
      } else {
        assert !KnownThroughout(s', steps[1..]);
      }
    }
  }

  /**
   In every run from the start: each wrapper held here is known remotely or still owned by its registration,
   exactly when no roll-back ever misses its wrapper because an `Unregister` has it in flight.
   */
  lemma LocalImpliesRemoteIff(steps: seq<Step>)
    requires CanRun(START, steps)
    ensures KnownThroughout(START, steps) <==> NoMissedRollback(START, steps)
  {
    LocalIsKnownIff(START, steps);
  }

  lemma {:induction false} KnownAtEnd(s: System, steps: seq<Step>)
    requires CanRun(s, steps) && KnownThroughout(s, steps)
    ensures LocalIsKnown(ViewOf(Run(s, steps)))
    decreases |steps|
  {
    if steps != [] { KnownAtEnd(Apply(s, steps[0]), steps[1..]); }
  }

  /** With nobody in flight, what is held is what is registered, uri by uri. */
  lemma QuietMirror(s: System, uri: Uri, w: Wrapper)
    requires Inv(s) && LocalIsKnown(ViewOf(s)) && s.threads == map[]
    ensures w in ListOf(s.obs, uri) <==> (uri, w) in s.remote
  {
    var v := ViewOf(s);
    assert v.at(Table(uri)) == ListOf(s.obs, uri);
    if (uri, w) in s.remote {
      var p :| w in v.at(p) && v.uriOf(p) == uri;
      assert p == Table(uri);
    }
    if w in ListOf(s.obs, uri) {
      assert Known(v, w);
      var u :| (u, w) in v.remote;
      var p :| w in v.at(p) && v.uriOf(p) == u;
      assert p == Table(u) && w in v.at(Table(uri));
    }
  }

  /**
   In a run without a missed roll-back the table and the remote service hold exactly the same wrappers per uri whenever
   no thread is in flight.
   */
  lemma MirrorWhenQuiet(steps: seq<Step>)
    requires CanRun(START, steps) && NoMissedRollback(START, steps) && Run(START, steps).threads == map[]
    ensures var s := Run(START, steps);
            forall uri, w :: w in ListOf(s.obs, uri) <==> (uri, w) in s.remote
  {
    var s := Run(START, steps);
    InvRun(START, steps);
    LocalImpliesRemoteIff(steps);
    KnownAtEnd(START, steps);
    forall uri, w ensures w in ListOf(s.obs, uri) <==> (uri, w) in s.remote {
      QuietMirror(s, uri, w);
    }
  }

  lemma RunStep(s: System, step: Step, rest: seq<Step>)
    requires Enabled(s, step) && CanRun(Apply(s, step), rest)
    ensures CanRun(s, [step] + rest) && Run(s, [step] + rest) == Run(Apply(s, step), rest)
  {
    assert ([step] + rest)[1..] == rest;
  }

  /** A registration that fails while its wrapper is in flight leaves a wrapper here that is registered nowhere. */
  lemma LocalNotRemote(uri: Uri)
    ensures exists steps: seq<Step> :: CanRun(START, steps) &&
              var s := Run(START, steps); s.threads == map[] && s.obs == map[uri := [Wrapper(0, 1)]] && s.remote == {}
  {
    var w := Wrapper(0, 1);
    var s1 := System(map[uri := [w]], {}, map[0 := Registering(uri, w)], false, 1, []);
    var s2 := System(map[], {}, map[0 := Registering(uri, w), 1 := Extracted(uri, [w])], false, 1, []);
    var rest := FailInFlight(uri, w);
    KeptAppend([], w, 1);
    assert [] + [w] == [w];
    assert Apply(s1, BeginUnregister(1, uri, 1)) == s2;
    RunStep(s1, BeginUnregister(1, uri, 1), rest);
    assert Apply(START, BeginRegister(0, uri, 1)) == s1;
    RunStep(START, BeginRegister(0, uri, 1), [BeginUnregister(1, uri, 1)] + rest);
  }

  lemma FailInFlight(uri: Uri, w: Wrapper) returns (steps: seq<Step>)
    ensures var s := System(map[], {}, map[0 := Registering(uri, w), 1 := Extracted(uri, [w])], false, 1, []);
            CanRun(s, steps) && Run(s, steps) == System(map[uri := [w]], {}, map[], false, 1, [])
  {
    var s2 := System(map[], {}, map[0 := Registering(uri, w), 1 := Extracted(uri, [w])], false, 1, []);
    var s3 := System(map[], {}, map[0 := Removing(uri, w), 1 := Extracted(uri, [w])], false, 1, []);
    var s4 := System(map[], {}, map[1 := Extracted(uri, [w])], false, 1, []);
    var rest := FailAndRestore(map[], {}, uri, w, 1);
    assert [] + [w] == [w];
    assert Apply(s3, Remove(0)) == s4;
    RunStep(s3, Remove(0), rest);
    assert Apply(s2, RegisterFail(0)) == s3;
    RunStep(s2, RegisterFail(0), [Remove(0)] + rest);
    steps := [RegisterFail(0)] + ([Remove(0)] + rest);
  }

  /** An extracted wrapper whose unregistration fails goes back to the end of its entry. */
  lemma FailAndRestore(obs: map<Uri, seq<Wrapper>>, remote: set<(Uri, Wrapper)>, uri: Uri, w: Wrapper, nextId: nat)
    returns (steps: seq<Step>)
    ensures var s := System(obs, remote, map[1 := Extracted(uri, [w])], false, nextId, []);
            && CanRun(s, steps)
            && Run(s, steps) == System(obs[uri := ListOf(obs, uri) + [w]], remote, map[], false, nextId, [])
  {
    var s := System(obs, remote, map[1 := Extracted(uri, [w])], false, nextId, []);
    var t := System(obs, remote, map[1 := Restoring(uri, [w])], false, nextId, []);
    RunStep(t, Restore(1), []);
    assert Apply(s, UnregisterFail(1)) == t;
    RunStep(s, UnregisterFail(1), [Restore(1)] + []);
    steps := [UnregisterFail(1)] + ([Restore(1)] + []);
  }

  /** An `Unregister` that fails while the same observer registers again leaves it wrapped twice under one uri. */
  lemma ObserverWrappedTwice(uri: Uri)
    ensures exists steps: seq<Step> :: CanRun(START, steps) &&
              var s := Run(START, steps); s.threads == map[] && s.obs == map[uri := [Wrapper(1, 1), Wrapper(0, 1)]]
  {
    var w := Wrapper(0, 1);
    var s1 := System(map[uri := [w]], {}, map[0 := Registering(uri, w)], false, 1, []);
    var s2 := System(map[uri := [w]], {(uri, w)}, map[], false, 1, []);
    var s3 := System(map[], {(uri, w)}, map[1 := Extracted(uri, [w])], false, 1, []);
    var rest := RegisterAgain(uri);
    KeptAppend([], w, 1);
    assert [] + [w] == [w];
    assert Apply(s2, BeginUnregister(1, uri, 1)) == s3;
    RunStep(s2, BeginUnregister(1, uri, 1), rest);
    assert Apply(s1, RegisterOk(0)) == s2;
    RunStep(s1, RegisterOk(0), [BeginUnregister(1, uri, 1)] + rest);
    assert Apply(START, BeginRegister(0, uri, 1)) == s1;
    RunStep(START, BeginRegister(0, uri, 1), [RegisterOk(0)] + ([BeginUnregister(1, uri, 1)] + rest));
  }

  lemma RegisterAgain(uri: Uri) returns (steps: seq<Step>)
    ensures var s := System(map[], {(uri, Wrapper(0, 1))}, map[1 := Extracted(uri, [Wrapper(0, 1)])], false, 1, []);
            && CanRun(s, steps)
            && Run(s, steps).threads == map[]
            && Run(s, steps).obs == map[uri := [Wrapper(1, 1), Wrapper(0, 1)]]
  {
    var w, x := Wrapper(0, 1), Wrapper(1, 1);
    var r := {(uri, w)};
    var s3 := System(map[], r, map[1 := Extracted(uri, [w])], false, 1, []);
    var s4 := System(map[uri := [x]], r, map[1 := Extracted(uri, [w]), 0 := Registering(uri, x)], false, 2, []);
    var s5 := System(map[uri := [x]], r + {(uri, x)}, map[1 := Extracted(uri, [w])], false, 2, []);
    assert [] + [x] == [x] && [x] + [w] == [x, w];
    var rest := FailAndRestore(map[uri := [x]], r + {(uri, x)}, uri, w, 2);
    assert Apply(s4, RegisterOk(0)) == s5;
    RunStep(s4, RegisterOk(0), rest);
    assert Apply(s3, BeginRegister(0, uri, 1)) == s4;
    RunStep(s3, BeginRegister(0, uri, 1), [RegisterOk(0)] + rest);
    steps := [BeginRegister(0, uri, 1)] + ([RegisterOk(0)] + rest);
  }
}
