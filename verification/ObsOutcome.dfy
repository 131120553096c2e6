/**
 What each call of the shared-observer registry answers and does, said of the wrappers before and after it.
 */
module ObsOutcome {
  import opened Answers
  import opened ObsSpec
  import opened RdbErrno

  /** The wrappers of a uri. */
  function Of(s: State, uri: Uri): seq<Wrapper> { if uri in s.obs then s.obs[uri] else [] }

  ghost predicate SameElsewhere(s: State, t: State, uri: Uri) { forall u | u != uri :: Of(t, u) == Of(s, u) }

  // ---- Register ----

  /** The observer is already wrapped under the uri; the null observer never is. */
  predicate Already(s: State, uri: Uri, observer: nat) {
    observer != 0 && exists w | w in Of(s, uri) :: w.observer == observer
  }

  /**
   A duplicate is answered exactly when a wrapper of this very observer is listed. Otherwise the call succeeds exactly
   when there is memory, a client, and the client agrees; then the uri and the remote service gain exactly one new
   wrapper of the observer. In every other case nothing is registered anywhere.
   */
  lemma RegisterOutcome(e: Env, s: State, uri: Uri, observer: nat, memory: bool, connected: bool)
    ensures var (t, code) := Register(e, s, uri, observer, memory, connected);
            var w := Wrapper(s.nextId, observer);
            && code == (if Already(s, uri, observer) then RDB_OBS_DUPLICATE_SUB
                        else if !memory then E_ERROR
                        else if !connected then E_GET_DATAOBSMGRCLIENT_FAIL
                        else if e.answers(s.calls) != 0 then E_ERROR else E_OK)
            && (code == E_OK ==> && Of(t, uri) == Of(s, uri) + [w] && SameElsewhere(s, t, uri)
                                 && t.remote == s.remote + {(uri, w)})
            && (code != E_OK ==> t.obs == s.obs && t.remote == s.remote)
            && t.release == s.release && t.unregistered == s.unregistered && t.clock == s.clock
            && t.calls == s.calls + (if !Already(s, uri, observer) && memory && connected then 1 else 0)
  {
    assert Registered(Of(s, uri), observer) <==> Already(s, uri, observer) by {
      if Already(s, uri, observer) {
        var w :| w in Of(s, uri) && w.observer == observer;
        var i :| 0 <= i < |Of(s, uri)| && Of(s, uri)[i] == w;
        assert Holds(Of(s, uri)[i], observer);
      }
    }
  }

  // ---- Unregister ----

  /** An unregistration is about this wrapper: its observer is meant, or all are. */
  predicate Meant(w: Wrapper, observer: nat) { observer == 0 || w.observer == observer }

  lemma {:induction false} SplitIs(list: seq<Wrapper>, observer: nat, w: Wrapper)
    ensures w in Taken(list, observer) <==> w in list && Meant(w, observer)
    ensures w in Kept(list, observer) <==> w in list && !Meant(w, observer)
  {
    if list != [] { SplitIs(list[1..], observer, w); }
  }

  /** The living wrappers of a release list. */
  ghost predicate Living(e: Env, clock: nat, before: seq<Wrapper>, after: seq<Wrapper>) {
    forall w :: w in after <==> w in before && w.id !in e.dead(clock)
  }

  /** When no wrapper is meant, nothing happens. */
  lemma UnregisterNothing(e: Env, s: State, uri: Uri, observer: nat, connected: bool)
    requires forall w | w in Of(s, uri) :: !Meant(w, observer)
    ensures Unregister(e, s, uri, observer, connected) == (s, E_OK)
  {
    var taken := Taken(Of(s, uri), observer);
    if taken != [] {
      SplitIs(Of(s, uri), observer, taken[0]);
      assert false;
    }
  }

  lemma TakenSome(list: seq<Wrapper>, observer: nat)
    requires exists w | w in list :: Meant(w, observer)
    ensures Taken(list, observer) != []
  {
    var w :| w in list && Meant(w, observer);
    SplitIs(list, observer, w);
  }

  /** The extraction, followed by putting `rest` back. */
  lemma ExtractAndPut(s: State, uri: Uri, kept: seq<Wrapper>, rest: seq<Wrapper>)
    ensures var t := s.(obs := Put(s.obs, uri, kept));
            var u := t.(obs := Put(t.obs, uri, ListOf(t.obs, uri) + rest));
            Of(u, uri) == kept + rest && SameElsewhere(s, u, uri)
  {
  }

  /** Without a client the wrappers meant are only moved to the end of their entry. */
  lemma UnregisterOffline(e: Env, s: State, uri: Uri, observer: nat)
    requires exists w | w in Of(s, uri) :: Meant(w, observer)
    ensures var (t, code) := Unregister(e, s, uri, observer, false);
            && code == E_GET_DATAOBSMGRCLIENT_FAIL
            && Of(t, uri) == Kept(Of(s, uri), observer) + Taken(Of(s, uri), observer) && SameElsewhere(s, t, uri)
            && t == s.(obs := t.obs)
  {
    TakenSome(Of(s, uri), observer);
    ExtractAndPut(s, uri, Kept(Of(s, uri), observer), Taken(Of(s, uri), observer));
  }

  /**
   When a call fails, its code is the answer; the wrappers meant before it are unregistered, and the others are listed
   again behind those that were not meant.
   */
  lemma UnregisterFails(e: Env, s: State, uri: Uri, observer: nat, taken: seq<Wrapper>, k: nat)
    requires taken == Taken(Of(s, uri), observer) && k == Successes(e.answers, s.calls, |taken|) < |taken|
    ensures var (t, code) := Unregister(e, s, uri, observer, true);
            && code == e.answers(s.calls + k) != E_OK
            && Of(t, uri) == Kept(Of(s, uri), observer) + taken[k..] && SameElsewhere(s, t, uri)
            && t.remote == s.remote - Pairs(uri, taken[..k])
            && t.calls == s.calls + k + 1 && t.release == s.release + taken[..k]
            && t.unregistered == s.unregistered + Elements(taken[..k])
  {
    SuccessesAre(e.answers, s.calls, |taken|);
    ExtractAndPut(s, uri, Kept(Of(s, uri), observer), taken[k..]);
  }

  /** When all calls succeed, exactly the wrappers meant are unregistered, and the release list is swept. */
  lemma UnregisterSucceeds(e: Env, s: State, uri: Uri, observer: nat, taken: seq<Wrapper>)
    requires taken == Taken(Of(s, uri), observer) != [] && Successes(e.answers, s.calls, |taken|) == |taken|
    ensures var (t, code) := Unregister(e, s, uri, observer, true);
            && code == E_OK
            && Of(t, uri) == Kept(Of(s, uri), observer) && SameElsewhere(s, t, uri)
            && t.remote == s.remote - Pairs(uri, taken)
            && t.calls == s.calls + |taken| && Living(e, s.clock, s.release + taken, t.release)
            && t.unregistered == s.unregistered + Elements(taken)
  {
    assert taken[..|taken|] == taken;
    SweepErasesOnlyDead(s.release + taken, e.dead(s.clock));
  }

  /** Success is answered exactly when no wrapper is meant, or there is a client and none of its calls fails. */
  lemma UnregisterOkIff(e: Env, s: State, uri: Uri, observer: nat, connected: bool)
    ensures var n := |Taken(Of(s, uri), observer)|;
            Unregister(e, s, uri, observer, connected).1 == E_OK <==>
              n == 0 || (connected && forall i | s.calls <= i < s.calls + n :: e.answers(i) == 0)
  {
    SuccessesAre(e.answers, s.calls, |Taken(Of(s, uri), observer)|);
  }

  /** An answer of success means that no wrapper meant is left, here or remotely, and every other one is. */
  lemma UnregisterRemoves(e: Env, s: State, uri: Uri, observer: nat, connected: bool, u: Uri, w: Wrapper)
    requires Inv(e, s) && Unregister(e, s, uri, observer, connected).1 == E_OK
    ensures var t := Unregister(e, s, uri, observer, connected).0;
            && (w in Of(t, u) <==> w in Of(s, u) && !(u == uri && Meant(w, observer)))
            && ((u, w) in t.remote <==> (u, w) in s.remote && !(u == uri && Meant(w, observer)))
  {
    var list := Of(s, uri);
    var taken := Taken(list, observer);
    SplitIs(list, observer, w);
    if taken != [] {
      SuccessesAre(e.answers, s.calls, |taken|);
      UnregisterSucceeds(e, s, uri, observer, taken);
      assert (u, w) in Pairs(uri, taken) <==> u == uri && w in taken;
    }
  }

  // ---- CleanUp ----

  predicate Unrepeated(order: seq<Uri>) { forall i, j | 0 <= i < j < |order| :: order[i] != order[j] }

  /** `order` lists every uri of the table once. */
  ghost predicate Covers(order: seq<Uri>, s: State) {
    Unrepeated(order) && forall uri | uri in s.obs :: uri in order
  }

  /** One entry: its wrappers go one by one up to the first call that fails, and no other entry is touched. */
  lemma CleanEntryOutcome(e: Env, s: State, uri: Uri)
    ensures var t := CleanEntry(e, s, uri);
            var k := Successes(e.answers, s.calls, |Of(s, uri)|);
            && Of(t, uri) == Of(s, uri)[k..] && SameElsewhere(s, t, uri)
            && t.calls == s.calls + (if k < |Of(s, uri)| then k + 1 else k)
            && t.release == s.release + Of(s, uri)[..k]
  {
  }

  lemma {:induction false} OtherEntries(e: Env, s: State, order: seq<Uri>, uri: Uri)
    requires uri !in order
    ensures Of(CleanEntries(e, s, order), uri) == Of(s, uri)
    decreases |order|
  {
    if order != [] {
      CleanEntryOutcome(e, s, order[0]);
      OtherEntries(e, CleanEntry(e, s, order[0]), order[1..], uri);
    }
  }

  /** What is left of a list whose wrappers are unregistered from call number `from` on. */
  function Rest(e: Env, list: seq<Wrapper>, from: nat): seq<Wrapper> { list[Successes(e.answers, from, |list|)..] }

  /** The number of the call with which the entry of `order[i]` begins. */
  function Begins(e: Env, s: State, order: seq<Uri>, i: nat): nat
    requires i <= |order|
    decreases i
  {
    if i == 0 then s.calls else Begins(e, CleanEntry(e, s, order[0]), order[1..], i - 1)
  }

  lemma {:induction false} EntryOutcome(e: Env, s: State, order: seq<Uri>, i: nat)
    requires i < |order| && Unrepeated(order)
    ensures Of(CleanEntries(e, s, order), order[i]) == Rest(e, Of(s, order[i]), Begins(e, s, order, i))
    decreases i
  {
    CleanEntryOutcome(e, s, order[0]);
    var t := CleanEntry(e, s, order[0]);
    assert forall a | 0 <= a < |order[1..]| :: order[1..][a] == order[a + 1];
    if i == 0 {
      OtherEntries(e, t, order[1..], order[0]);
    } else {
      EntryOutcome(e, t, order[1..], i - 1);
    }
  }

  /**
   Without a client nothing is unregistered. With one, every entry becomes its rest from its first failing call on. The
   answer is true exactly when nothing is left in the table and nothing in the release list.
   */
  lemma CleanOutcome(e: Env, s: State, order: seq<Uri>, connected: bool)
    requires Covers(order, s)
    ensures var (t, ok) := Clean(e, s, order, connected);
            && (ok <==> t.obs == map[] && t.release == [])
            && (!connected ==> t.obs == s.obs && t.remote == s.remote && t.calls == s.calls)
            && (connected ==> forall i | 0 <= i < |order| ::
                  Of(t, order[i]) == Rest(e, Of(s, order[i]), Begins(e, s, order, i)))
  {
    if connected {
      var t := Clean(e, s, order, connected).0;
      forall i | 0 <= i < |order| ensures Of(t, order[i]) == Rest(e, Of(s, order[i]), Begins(e, s, order, i)) {
        EntryOutcome(e, s, order, i);
      }
    }
  }

  /** With a client that never fails, `CleanUp` leaves nothing registered here or remotely. */
  lemma CleanCleans(e: Env, s: State, order: seq<Uri>)
    requires Inv(e, s) && Monotone(e) && Covers(order, s) && forall n :: e.answers(n) == 0
    ensures var (t, ok) := Clean(e, s, order, true);
            t.obs == map[] && t.remote == {} && (ok <==> t.release == [])
  {
    CleanEntriesComplete(e, s, order);
    CleanUpTrue(e, s, order, true);
    NothingRemote(e, Clean(e, s, order, true).0);
  }

  lemma NothingRemote(e: Env, t: State)
    requires Inv(e, t) && t.obs == map[]
    ensures t.remote == {}
  {
    forall p ensures p !in t.remote {
      assert p == (p.0, p.1) && ((p.0, p.1) in t.remote ==> p.0 in t.obs);
    }
  }
}
