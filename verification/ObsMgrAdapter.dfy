/**
 The registry object: `obs` and `releaseObs` changed in place by the loops of the adapter.
 Each public method is specified by the function of `ObsSpec` with the same name.
 */
module ObsMgrAdapter {
  import opened Answers
  import opened ObsOutcome
  import opened ObsSpec
  import opened RdbErrno

  /** The remote service as seen through its client: a failing call has no effect there. */
  class DataObsMgrClient {
    const answers: nat -> int
    var calls: nat
    var remote: set<(Uri, Wrapper)>

    constructor (answers: nat -> int)
      ensures this.answers == answers && calls == 0 && remote == {}
    {
      this.answers, calls, remote := answers, 0, {};
    }

    method RegisterObserver(uri: Uri, w: Wrapper) returns (code: int)
      modifies this
      ensures code == answers(old(calls)) && calls == old(calls) + 1
      ensures remote == if code == 0 then old(remote) + {(uri, w)} else old(remote)
    {
      code := answers(calls);
      calls := calls + 1;
      if code == 0 { remote := remote + {(uri, w)}; }
    }

    method UnregisterObserver(uri: Uri, w: Wrapper) returns (code: int)
      modifies this
      ensures code == answers(old(calls)) && calls == old(calls) + 1
      ensures remote == if code == 0 then old(remote) - {(uri, w)} else old(remote)
    {
      code := answers(calls);
      calls := calls + 1;
      if code == 0 { remote := remote - {(uri, w)}; }
    }
  }

  class ObsMgrAdapterImpl {
    const client: DataObsMgrClient
    ghost const env: Env
    const dead: nat -> set<nat>
    var obs: map<Uri, seq<Wrapper>>
    var releaseObs: seq<Wrapper>
    var clock: nat
    var nextId: nat
    ghost var unregistered: set<Wrapper>

    ghost function Model(): State
      reads this, client
    {
      State(obs, releaseObs, client.remote, client.calls, clock, nextId, unregistered)
    }

    ghost predicate Valid()
      reads this, client
    {
      env == Env(client.answers, dead) && Monotone(env) && Inv(env, Model())
    }

    constructor (answers: nat -> int, dead: nat -> set<nat>)
      requires Monotone(Env(answers, dead))
      ensures Valid() && Model() == EMPTY && env == Env(answers, dead) && fresh(client)
    {
      client := new DataObsMgrClient(answers);
      env := Env(answers, dead);
      this.dead := dead;
      obs, releaseObs, clock, nextId := map[], [], 0, 0;
      unregistered := {};
    }

    method RegisterObserver(uri: Uri, observer: nat, memory: bool, connected: bool) returns (code: int)
      requires Valid()
      modifies this, client
      ensures Valid() && (Model(), code) == Register(env, old(Model()), uri, observer, memory, connected)
    {
      RegisterKeeps(env, Model(), uri, observer, memory, connected);
      var found := IsRegistered(if uri in obs then obs[uri] else [], observer);
      if found {
        return RDB_OBS_DUPLICATE_SUB;
      }
      if !memory {
        return E_ERROR;
      }
      code := Insert(uri, observer, connected);
    }

    /** Inserts a new wrapper, registers it remotely, and takes it out again if that fails. */
    method Insert(uri: Uri, observer: nat, connected: bool) returns (code: int)
      requires forall v | v in ListOf(obs, uri) :: v.id < nextId
      requires uri in obs ==> obs[uri] != []
      modifies this, client
      ensures unregistered == old(unregistered) && releaseObs == old(releaseObs) && clock == old(clock)
      ensures nextId == old(nextId) + 1
      ensures if connected && code == E_OK then
                var w := Wrapper(old(nextId), observer);
                && obs == Put(old(obs), uri, ListOf(old(obs), uri) + [w])
                && client.remote == old(client.remote) + {(uri, w)}
              else obs == old(obs) && client.remote == old(client.remote)
      ensures client.calls == old(client.calls) + if connected then 1 else 0
      ensures code == if !connected then E_GET_DATAOBSMGRCLIENT_FAIL
                      else if client.answers(old(client.calls)) != 0 then E_ERROR else E_OK
    {
      var list := if uri in obs then obs[uri] else [];
      var w := Wrapper(nextId, observer);
      nextId := nextId + 1;
      obs := obs[uri := list + [w]];
      WithoutLast(list, w);
      if !connected {
        RemoveObserver(uri, w);
        assert obs == old(obs);
        return E_GET_DATAOBSMGRCLIENT_FAIL;
      }
      code := client.RegisterObserver(uri, w);
      if code != 0 {
        RemoveObserver(uri, w);
        assert obs == old(obs);
        return E_ERROR;
      }
      return E_OK;
    }

    method RemoveObserver(uri: Uri, w: Wrapper)
      modifies this`obs
      ensures obs == if uri in old(obs) then Put(old(obs), uri, Without(old(obs)[uri], w)) else old(obs)
    {
      if uri in obs {
        var left := EraseFrom(obs[uri], w);
        obs := if left == [] then obs - {uri} else obs[uri := left];
      }
    }

    method AddObserver(uri: Uri, observers: seq<Wrapper>)
      modifies this`obs
      ensures obs == Put(old(obs), uri, ListOf(old(obs), uri) + observers)
    {
      var list := (if uri in obs then obs[uri] else []) + observers;
      obs := if list == [] then obs - {uri} else obs[uri := list];
    }

    method PushReleaseObs(w: Wrapper)
      modifies this`releaseObs
      ensures releaseObs == old(releaseObs) + [w]
    {
      releaseObs := releaseObs + [w];
    }

    /** Takes the matching wrappers out of the entry of `uri`. */
    method Extract(uri: Uri, observer: nat) returns (taken: seq<Wrapper>)
      modifies this`obs
      ensures taken == Taken(ListOf(old(obs), uri), observer)
      ensures obs == Put(old(obs), uri, Kept(ListOf(old(obs), uri), observer))
    {
      var kept;
      kept, taken := Split(if uri in obs then obs[uri] else [], observer);
      obs := if kept == [] then obs - {uri} else obs[uri := kept];
    }

    /** Unregisters wrappers one by one until one fails; `left` is what is not unregistered. */
    method UnregisterEach(uri: Uri, list: seq<Wrapper>) returns (code: int, left: seq<Wrapper>)
      modifies this`releaseObs, this`unregistered, client
      ensures var k := Successes(client.answers, old(client.calls), |list|);
              && left == list[k..]
              && code == (if k < |list| then client.answers(old(client.calls) + k) else 0)
              && (code == 0 <==> k == |list|)
              && Model() == Drain(old(Model()), uri, list, k)
    {
      ghost var e := Env(client.answers, dead);
      ghost var before := Model();
      var i := 0;
      while i < |list|
        invariant 0 <= i <= Successes(e.answers, before.calls, |list|) <= |list|
        invariant Model() == Drained(before, uri, list[..i])
      {
        SuccessesStep(e.answers, before.calls, |list|, i);
        var err := client.UnregisterObserver(uri, list[i]);
        if err != 0 {
          return err, list[i..];
        }
        PushReleaseObs(list[i]);
        unregistered := unregistered + {list[i]};
        DrainedStep(before, uri, list[..i], list[i]);
        assert list[..i + 1] == list[..i] + [list[i]];
        i := i + 1;
      }
      assert list[i..] == [];
      return 0, [];
    }

    method UnregisterObserver(uri: Uri, observer: nat, connected: bool) returns (code: int)
      requires Valid()
      modifies this, client
      ensures Valid() && (Model(), code) == Unregister(env, old(Model()), uri, observer, connected)
    {
      UnregisterKeeps(env, Model(), uri, observer, connected);
      assert uri in obs ==> obs[uri] != [];
      var taken := Extract(uri, observer);
      if taken == [] {
        KeptAll(ListOf(old(obs), uri), observer);
        assert obs == old(obs);
        return E_OK;
      }
      code := UnregisterTaken(uri, taken, connected);
    }

    method UnregisterTaken(uri: Uri, taken: seq<Wrapper>, connected: bool) returns (code: int)
      modifies this, client
      ensures (Model(), code) == ObsSpec.UnregisterTaken(Env(client.answers, dead), old(Model()), uri, taken, connected)
    {
      if !connected {
        AddObserver(uri, taken);
        return E_GET_DATAOBSMGRCLIENT_FAIL;
      }
      var left;
      code, left := UnregisterEach(uri, taken);
      if code != 0 {
        AddObserver(uri, left);
        return;
      }
      var _ := CleanReleaseObs(false);
    }

    method Clean(connected: bool) returns (ok: bool, ghost order: seq<Uri>)
      requires Valid()
      modifies this, client
      ensures Covers(order, old(Model()))
      ensures Valid() && (Model(), ok) == ObsSpec.Clean(env, old(Model()), order, connected)
    {
      var keys := obs.Keys;
      order := [];
      ghost var before := Model();
      if !connected {
        order := SomeOrder(keys);
      }
      while connected && keys != {}
        invariant !connected ==> Model() == before && Covers(order, before)
        invariant connected ==> Model() == CleanEntries(env, before, order)
        invariant connected ==> forall uri | uri in old(obs) :: uri in order || uri in keys
        invariant connected ==> Unrepeated(order) && forall uri | uri in order :: uri !in keys
        decreases keys
      {
        var uri :| uri in keys;
        keys := keys - {uri};
        ghost var s := Model();
        var list := if uri in obs then obs[uri] else [];
        var _, left := UnregisterEach(uri, list);
        obs := if left == [] then obs - {uri} else obs[uri := left];
        assert Model() == CleanEntry(env, s, uri);
        CleanEntriesAppend(env, before, order, uri);
        order := order + [uri];
      }
      CleanUpTrue(env, before, order, connected);
      ok := false;
      if obs == map[] {
        ok := CleanReleaseObs(true);
      }
    }

    method CleanReleaseObs(force: bool) returns (ok: bool)
      modifies this`releaseObs, this`clock
      ensures (Model(), ok) == ObsSpec.CleanReleaseObs(Env(client.answers, dead), old(Model()), force)
    {
      if force {
        releaseObs, clock := SweepAndRetry(client.answers, dead, releaseObs, clock);
        ok := releaseObs == [];
      } else {
        releaseObs := SweepOnce(releaseObs, dead(clock));
        ok := true;
      }
    }
  }

  /** The search for an observer in an entry. */
  method IsRegistered(list: seq<Wrapper>, observer: nat) returns (found: bool)
    ensures found == Registered(list, observer)
  {
    for i := 0 to |list|
      invariant forall j | 0 <= j < i :: !Holds(list[j], observer)
    {
      if Holds(list[i], observer) { return true; }
    }
    return false;
  }

  method EraseFrom(list: seq<Wrapper>, w: Wrapper) returns (left: seq<Wrapper>)
    ensures left == Without(list, w)
  {
    left := [];
    var i := 0;
    while i < |list|
      invariant 0 <= i <= |list|
      invariant left + Without(list[i..], w) == Without(list, w)
    {
      assert list[i..][1..] == list[i + 1..];
      if list[i] != w { left := left + [list[i]]; }
      i := i + 1;
    }
    assert list[i..] == [] && left + [] == left;
  }

  /** The extraction loop of `Unregister`: a null observer takes everything. */
  method Split(list: seq<Wrapper>, observer: nat) returns (kept: seq<Wrapper>, taken: seq<Wrapper>)
    ensures kept == Kept(list, observer) && taken == Taken(list, observer)
  {
    kept, taken := [], [];
    var i := 0;
    while i < |list|
      invariant 0 <= i <= |list|
      invariant kept + Kept(list[i..], observer) == Kept(list, observer)
      invariant taken + Taken(list[i..], observer) == Taken(list, observer)
    {
      assert list[i..][1..] == list[i + 1..];
      if Holds(list[i], observer) || observer == 0 {
        taken := taken + [list[i]];
      } else {
        kept := kept + [list[i]];
      }
      i := i + 1;
    }
    assert list[i..] == [] && kept + [] == kept && taken + [] == taken;
  }

  /** One pass over the release list. */
  method SweepOnce(list: seq<Wrapper>, gone: set<nat>) returns (left: seq<Wrapper>)
    ensures left == Sweep(list, gone)
  {
    left := [];
    var i := 0;
    while i < |list|
      invariant 0 <= i <= |list|
      invariant left + Sweep(list[i..], gone) == Sweep(list, gone)
    {
      assert list[i..][1..] == list[i + 1..];
      if list[i].id !in gone { left := left + [list[i]]; }
      i := i + 1;
    }
    assert list[i..] == [] && left + [] == left;
  }

  /** The forced clean: passes over the release list until it is empty or the retries are used up. */
  method SweepAndRetry(answers: nat -> int, dead: nat -> set<nat>, list: seq<Wrapper>, clock: nat)
    returns (left: seq<Wrapper>, end: nat)
    ensures (left, end) == ForceSweep(Env(answers, dead), list, clock, 0)
  {
    ghost var e := Env(answers, dead);
    left := SweepOnce(list, dead(clock));
    end := clock + 1;
    var retry := 1;
    while retry < MAX_RETRY && left != []
      invariant 1 <= retry <= MAX_RETRY
      invariant ForceSweep(e, list, clock, 0)
             == if retry < MAX_RETRY && left != [] then ForceSweep(e, left, end, retry) else (left, end)
    {
      left := SweepOnce(left, dead(end));
      end, retry := end + 1, retry + 1;
    }
  }

  lemma {:induction false} KeptAll(list: seq<Wrapper>, observer: nat)
    requires Taken(list, observer) == []
    ensures Kept(list, observer) == list
  {
    if list != [] { KeptAll(list[1..], observer); }
  }

  lemma {:induction false} CleanEntriesAppend(e: Env, s: State, order: seq<Uri>, uri: Uri)
    ensures CleanEntries(e, s, order + [uri]) == CleanEntry(e, CleanEntries(e, s, order), uri)
    decreases |order|
  {
    if order == [] {
      assert [uri][1..] == [];
    } else {
      assert (order + [uri])[1..] == order[1..] + [uri];
      CleanEntriesAppend(e, CleanEntry(e, s, order[0]), order[1..], uri);
    }
  }

  lemma {:induction false} SomeOrder(keys: set<Uri>) returns (order: seq<Uri>)
    ensures Unrepeated(order) && forall uri :: uri in order <==> uri in keys
    decreases keys
  {
    order := [];
    if keys != {} {
      var uri :| uri in keys;
      var rest := SomeOrder(keys - {uri});
      order := [uri] + rest;
    }
  }
}
