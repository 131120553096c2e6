/**
 Whole calls of the shared-observer registry as uninterrupted runs of the steps it takes under its locks: whatever a
 sequence of calls does, the concurrent system can do.
 */
module ObsRefine {
  import opened Answers
  import opened ObsConcurrent
  import opened ObsOutcome
  import opened ObsSpec
  import opened RdbErrno

  /** The registry between two calls, as a state of the concurrent system; `history` lists what was unregistered. */
  function Between(s: State, history: seq<Wrapper>): System {
    System(s.obs, s.remote, map[], false, s.nextId, history)
  }

  ghost predicate Reaches(y: System, z: System) {
    exists steps: seq<Step> :: CanRun(y, steps) && ObsConcurrent.Run(y, steps) == z
  }

  lemma {:induction false} RunConcat(y: System, a: seq<Step>, b: seq<Step>)
    requires CanRun(y, a) && CanRun(ObsConcurrent.Run(y, a), b)
    ensures CanRun(y, a + b) && ObsConcurrent.Run(y, a + b) == ObsConcurrent.Run(ObsConcurrent.Run(y, a), b)
    decreases |a|
  {
    if a == [] {
      assert a + b == b;
    } else {
      assert (a + b)[1..] == a[1..] + b;
      RunConcat(Apply(y, a[0]), a[1..], b);
    }
  }

  lemma Stays(y: System)
    ensures Reaches(y, y)
  {
    assert CanRun(y, []) && ObsConcurrent.Run(y, []) == y;
  }

  lemma Then(y: System, z: System, step: Step)
    requires Reaches(y, z) && Enabled(z, step)
    ensures Reaches(y, Apply(z, step))
  {
    var steps :| CanRun(y, steps) && ObsConcurrent.Run(y, steps) == z;
    assert [step][1..] == [];
    assert CanRun(Apply(z, step), []);
    RunConcat(y, steps, [step]);
  }

  lemma Follow(x: System, y: System, z: System)
    requires Reaches(x, y) && Reaches(y, z)
    ensures Reaches(x, z)
  {
    var a :| CanRun(x, a) && ObsConcurrent.Run(x, a) == y;
    var b :| CanRun(y, b) && ObsConcurrent.Run(y, b) == z;
    RunConcat(x, a, b);
  }

  // ---- Register ----

  lemma PutBack(e: Env, s: State, uri: Uri, list: seq<Wrapper>)
    requires ObsSpec.Inv(e, s) && list != []
    ensures Put(Put(s.obs, uri, list), uri, ListOf(s.obs, uri)) == s.obs
  {
  }

  lemma RegisterSteps(e: Env, s: State, uri: Uri, observer: nat, memory: bool, connected: bool, h: seq<Wrapper>)
    requires ObsSpec.Inv(e, s)
    ensures Reaches(Between(s, h), Between(Register(e, s, uri, observer, memory, connected).0, h))
  {
    var y, list := Between(s, h), ListOf(s.obs, uri);
    Stays(y);
    if !Registered(list, observer) && memory {
      var w := Wrapper(s.nextId, observer);
      Then(y, y, BeginRegister(0, uri, observer));
      var y1 := Apply(y, BeginRegister(0, uri, observer));
      if connected && e.answers(s.calls) == 0 {
        Then(y, y1, RegisterOk(0));
        assert Apply(y1, RegisterOk(0)).threads == map[];
      } else {
        Then(y, y1, RegisterFail(0));
        var y2 := Apply(y1, RegisterFail(0));
        Then(y, y2, Remove(0));
        assert w !in list;
        WithoutLast(list, w);
        PutBack(e, s, uri, list + [w]);
        assert Apply(y2, Remove(0)).threads == map[];
      }
    }
  }

  // ---- Unregister ----

  /** An unregistration under way: extracted wrappers, or nobody when none is left. */
  function Extracting(obs: map<Uri, seq<Wrapper>>, remote: set<(Uri, Wrapper)>, uri: Uri, left: seq<Wrapper>, n: nat,
                      h: seq<Wrapper>): System
  {
    System(obs, remote, if left == [] then map[] else map[0 := Extracted(uri, left)], false, n, h)
  }

  lemma {:induction false} PairsFirst(uri: Uri, left: seq<Wrapper>, k: nat)
    requires 0 < k <= |left|
    ensures Pairs(uri, left[..k]) == {(uri, left[0])} + Pairs(uri, left[1..][..k - 1])
  {
    assert left[..k] == [left[0]] + left[1..][..k - 1];
    assert Pairs(uri, [left[0]] + left[1..][..k - 1]) == {(uri, left[0])} + Pairs(uri, left[1..][..k - 1]) by {
      PairsCons(uri, left[0], left[1..][..k - 1]);
    }
  }

  lemma PairsCons(uri: Uri, w: Wrapper, rest: seq<Wrapper>)
    ensures Pairs(uri, [w] + rest) == {(uri, w)} + Pairs(uri, rest)
  {
    var all := [w] + rest;
    forall x ensures x in Pairs(uri, all) <==> x in {(uri, w)} + Pairs(uri, rest) {
      if x in Pairs(uri, all) {
        var i :| 0 <= i < |all| && x == (uri, all[i]);
        assert i > 0 ==> x == (uri, rest[i - 1]);
      }
      if x in Pairs(uri, rest) {
        var i :| 0 <= i < |rest| && x == (uri, rest[i]);
        assert x == (uri, all[i + 1]);
      }
      assert (uri, all[0]) in Pairs(uri, all);
    }
  }

  lemma RestStays(uri: Uri, left: seq<Wrapper>, remote: set<(Uri, Wrapper)>)
    requires left != [] && NoRepeat(left) && Pairs(uri, left) <= remote
    ensures (uri, left[0]) in remote && Pairs(uri, left[1..]) <= remote - {(uri, left[0])}
  {
    assert (uri, left[0]) in Pairs(uri, left);
    forall x | x in Pairs(uri, left[1..]) ensures x in remote && x != (uri, left[0]) {
      var i :| 0 <= i < |left[1..]| && x == (uri, left[1..][i]);
      assert x == (uri, left[i + 1]) && x in Pairs(uri, left);
    }
  }

  /** Taking the first wrapper and then `k - 1` more is taking `k`. */
  lemma FirstAndRest(uri: Uri, left: seq<Wrapper>, k: nat, remote: set<(Uri, Wrapper)>, h: seq<Wrapper>)
    requires 0 < k <= |left|
    ensures var w, rest := left[0], left[1..];
            && h + [w] + rest[..k - 1] == h + left[..k] && rest[k - 1..] == left[k..]
            && remote - {(uri, w)} - Pairs(uri, rest[..k - 1]) == remote - Pairs(uri, left[..k])
  {
    PairsFirst(uri, left, k);
  }

  lemma OneOk(obs: map<Uri, seq<Wrapper>>, remote: set<(Uri, Wrapper)>, uri: Uri, left: seq<Wrapper>, n: nat,
              h: seq<Wrapper>)
    requires left != [] && (uri, left[0]) in remote
    ensures Reaches(Extracting(obs, remote, uri, left, n, h),
                    Extracting(obs, remote - {(uri, left[0])}, uri, left[1..], n, h + [left[0]]))
  {
    var y := Extracting(obs, remote, uri, left, n, h);
    Stays(y);
    Then(y, y, UnregisterOk(0));
    var z := Extracting(obs, remote - {(uri, left[0])}, uri, left[1..], n, h + [left[0]]);
    assert Apply(y, UnregisterOk(0)).threads == z.threads;
  }

  lemma {:induction false} OkSteps(obs: map<Uri, seq<Wrapper>>, remote: set<(Uri, Wrapper)>, uri: Uri,
                                   left: seq<Wrapper>, k: nat, n: nat, h: seq<Wrapper>)
    requires k <= |left| && NoRepeat(left) && Pairs(uri, left) <= remote
    ensures Reaches(Extracting(obs, remote, uri, left, n, h),
                    Extracting(obs, remote - Pairs(uri, left[..k]), uri, left[k..], n, h + left[..k]))
    decreases k
  {
    var y := Extracting(obs, remote, uri, left, n, h);
    if k == 0 {
      Stays(y);
      assert left[..0] == [] && left[0..] == left && h + [] == h;
      assert remote - Pairs(uri, []) == remote;
    } else {
      var w, rest := left[0], left[1..];
      RestStays(uri, left, remote);
      OneOk(obs, remote, uri, left, n, h);
      OkSteps(obs, remote - {(uri, w)}, uri, rest, k - 1, n, h + [w]);
      FirstAndRest(uri, left, k, remote, h);
      Follow(y, Extracting(obs, remote - {(uri, w)}, uri, rest, n, h + [w]),
             Extracting(obs, remote - Pairs(uri, left[..k]), uri, left[k..], n, h + left[..k]));
    }
  }

  /** A listed entry names every wrapper once, and every one of them is registered remotely. */
  lemma EntryIsRemote(e: Env, s: State, uri: Uri, part: seq<Wrapper>)
    requires ObsSpec.Inv(e, s) && forall w | w in part :: w in ListOf(s.obs, uri)
    ensures NoRepeat(ListOf(s.obs, uri)) && Pairs(uri, part) <= s.remote
  {
    forall x | x in Pairs(uri, part) ensures x in s.remote {
      var i :| 0 <= i < |part| && x == (uri, part[i]);
      assert part[i] in ListOf(s.obs, uri);
    }
  }

  lemma TakenIsRemote(e: Env, s: State, uri: Uri, observer: nat)
    requires ObsSpec.Inv(e, s)
    ensures var taken := Taken(ListOf(s.obs, uri), observer); NoRepeat(taken) && Pairs(uri, taken) <= s.remote
  {
    var list := ListOf(s.obs, uri);
    EntryIsRemote(e, s, uri, []);
    SplitMembers(list, observer);
    EntryIsRemote(e, s, uri, Taken(list, observer));
  }

  lemma RestoreSteps(obs: map<Uri, seq<Wrapper>>, remote: set<(Uri, Wrapper)>, uri: Uri, left: seq<Wrapper>, n: nat,
                     h: seq<Wrapper>)
    requires left != []
    ensures Reaches(Extracting(obs, remote, uri, left, n, h),
                    System(Put(obs, uri, ListOf(obs, uri) + left), remote, map[], false, n, h))
  {
    var y := Extracting(obs, remote, uri, left, n, h);
    Stays(y);
    Then(y, y, UnregisterFail(0));
    var z := Apply(y, UnregisterFail(0));
    Then(y, z, Restore(0));
    assert Apply(z, Restore(0)).threads == map[];
  }

  /** The extraction is one step. */
  lemma ExtractStep(s: State, uri: Uri, observer: nat, h: seq<Wrapper>)
    ensures var list := ListOf(s.obs, uri);
            Reaches(Between(s, h), Extracting(Put(s.obs, uri, Kept(list, observer)), s.remote, uri,
                                              Taken(list, observer), s.nextId, h))
  {
    var y := Between(s, h);
    Stays(y);
    Then(y, y, BeginUnregister(0, uri, observer));
    var taken := Taken(ListOf(s.obs, uri), observer);
    assert Apply(y, BeginUnregister(0, uri, observer)).threads
        == if taken == [] then map[] else map[0 := Extracted(uri, taken)];
  }

  /** What an unregistration leaves, told by the number of its calls that succeed. */
  lemma UnregisterLeaves(e: Env, s: State, uri: Uri, observer: nat, connected: bool, taken: seq<Wrapper>, k: nat)
    requires taken == Taken(ListOf(s.obs, uri), observer) != []
    requires k == if connected then Successes(e.answers, s.calls, |taken|) else 0
    ensures var t := Unregister(e, s, uri, observer, connected).0;
            var obs := Put(s.obs, uri, Kept(ListOf(s.obs, uri), observer));
            && t.remote == s.remote - Pairs(uri, taken[..k]) && t.nextId == s.nextId
            && t.obs == if k < |taken| then Put(obs, uri, ListOf(obs, uri) + taken[k..]) else obs
  {
    assert taken[..0] == [] && taken[0..] == taken && Pairs(uri, []) == {};
  }

  lemma UnregisterSteps(e: Env, s: State, uri: Uri, observer: nat, connected: bool, h: seq<Wrapper>)
    returns (more: seq<Wrapper>)
    requires ObsSpec.Inv(e, s)
    ensures Reaches(Between(s, h), Between(Unregister(e, s, uri, observer, connected).0, more))
  {
    var taken := Taken(ListOf(s.obs, uri), observer);
    if taken == [] {
      more := h;
      Stays(Between(s, h));
    } else {
      var k := if connected then Successes(e.answers, s.calls, |taken|) else 0;
      var obs := Put(s.obs, uri, Kept(ListOf(s.obs, uri), observer));
      var remote := s.remote - Pairs(uri, taken[..k]);
      more := h + taken[..k];
      ExtractStep(s, uri, observer, h);
      TakenIsRemote(e, s, uri, observer);
      OkSteps(obs, s.remote, uri, taken, k, s.nextId, h);
      var y, z := Between(s, h), Extracting(obs, remote, uri, taken[k..], s.nextId, more);
      Follow(y, Extracting(obs, s.remote, uri, taken, s.nextId, h), z);
      UnregisterLeaves(e, s, uri, observer, connected, taken, k);
      if k < |taken| {
        RestoreSteps(obs, remote, uri, taken[k..], s.nextId, more);
        Follow(y, z, Between(Unregister(e, s, uri, observer, connected).0, more));
      }
    }
  }

  // ---- CleanUp ----

  function Cleans(obs: map<Uri, seq<Wrapper>>, remote: set<(Uri, Wrapper)>, todo: set<Uri>, n: nat, h: seq<Wrapper>)
    : System
  {
    System(obs, remote, map[0 := Cleaning(todo)], true, n, h)
  }

  lemma OneCleanOk(obs: map<Uri, seq<Wrapper>>, remote: set<(Uri, Wrapper)>, todo: set<Uri>, uri: Uri, n: nat,
                   h: seq<Wrapper>)
    requires uri in obs && obs[uri] != [] && uri in todo && (uri, obs[uri][0]) in remote
    ensures var w, rest := obs[uri][0], obs[uri][1..];
            Reaches(Cleans(obs, remote, todo, n, h), Cleans(Put(obs, uri, rest), remote - {(uri, w)}, todo, n, h + [w]))
  {
    var y := Cleans(obs, remote, todo, n, h);
    Stays(y);
    Then(y, y, CleanOk(0, uri));
  }

  lemma {:induction false} CleanOkSteps(obs: map<Uri, seq<Wrapper>>, remote: set<(Uri, Wrapper)>, todo: set<Uri>,
                                        uri: Uri, list: seq<Wrapper>, k: nat, n: nat, h: seq<Wrapper>)
    requires list == ListOf(obs, uri) && (uri in obs ==> list != []) && uri in todo
    requires k <= |list| && NoRepeat(list) && Pairs(uri, list) <= remote
    ensures Reaches(Cleans(obs, remote, todo, n, h),
                    Cleans(Put(obs, uri, list[k..]), remote - Pairs(uri, list[..k]), todo, n, h + list[..k]))
    decreases k
  {
    var y := Cleans(obs, remote, todo, n, h);
    if k == 0 {
      Stays(y);
      assert list[..0] == [] && list[0..] == list && h + [] == h;
      assert remote - Pairs(uri, []) == remote && Put(obs, uri, list) == obs;
    } else {
      var w, rest := list[0], list[1..];
      RestStays(uri, list, remote);
      OneCleanOk(obs, remote, todo, uri, n, h);
      CleanOkSteps(Put(obs, uri, rest), remote - {(uri, w)}, todo, uri, rest, k - 1, n, h + [w]);
      FirstAndRest(uri, list, k, remote, h);
      PutTwice(obs, uri, rest, list[k..]);
      Follow(y, Cleans(Put(obs, uri, rest), remote - {(uri, w)}, todo, n, h + [w]),
             Cleans(Put(obs, uri, list[k..]), remote - Pairs(uri, list[..k]), todo, n, h + list[..k]));
    }
  }

  function CleansAt(s: State, todo: set<Uri>, h: seq<Wrapper>): System {
    Cleans(s.obs, s.remote, todo, s.nextId, h)
  }

  lemma EntrySteps(e: Env, s: State, uri: Uri, todo: set<Uri>, h: seq<Wrapper>) returns (more: seq<Wrapper>)
    requires ObsSpec.Inv(e, s) && (uri in s.obs ==> uri in todo)
    ensures Reaches(CleansAt(s, todo, h), CleansAt(CleanEntry(e, s, uri), todo - {uri}, more))
  {
    var list := ListOf(s.obs, uri);
    var k := Successes(e.answers, s.calls, |list|);
    more := h + list[..k];
    var y, t := CleansAt(s, todo, h), CleanEntry(e, s, uri);
    Stays(y);
    if uri in todo {
      EntryIsRemote(e, s, uri, list);
      CleanOkSteps(s.obs, s.remote, todo, uri, list, k, s.nextId, h);
      Then(y, CleansAt(t, todo, more), CleanSkip(0, uri));
      assert Apply(CleansAt(t, todo, more), CleanSkip(0, uri)).threads == map[0 := Cleaning(todo - {uri})];
    } else {
      assert list == [] && t.obs == s.obs && t.remote == s.remote && todo - {uri} == todo && more == h;
    }
  }

  function Names(order: seq<Uri>): set<Uri> { set uri | uri in order }

  lemma {:induction false} EntriesSteps(e: Env, s: State, order: seq<Uri>, todo: set<Uri>, h: seq<Wrapper>)
    returns (more: seq<Wrapper>)
    requires ObsSpec.Inv(e, s) && Unrepeated(order) && forall uri | uri in order && uri in s.obs :: uri in todo
    ensures Reaches(CleansAt(s, todo, h), CleansAt(CleanEntries(e, s, order), todo - Names(order), more))
    decreases |order|
  {
    if order == [] {
      more := h;
      assert todo - Names(order) == todo;
      Stays(CleansAt(s, todo, h));
    } else {
      var uri, rest := order[0], order[1..];
      var t := CleanEntry(e, s, uri);
      assert forall i | 0 <= i < |rest| :: rest[i] == order[i + 1] != uri;
      CleanEntryKeeps(e, s, uri);
      var h1 := EntrySteps(e, s, uri, todo, h);
      more := EntriesSteps(e, t, rest, todo - {uri}, h1);
      assert todo - {uri} - Names(rest) == todo - Names(order) by { assert order == [uri] + rest; }
      Follow(CleansAt(s, todo, h), CleansAt(t, todo - {uri}, h1),
             CleansAt(CleanEntries(e, s, order), todo - Names(order), more));
    }
  }

  lemma CleanSteps(e: Env, s: State, order: seq<Uri>, connected: bool, h: seq<Wrapper>) returns (more: seq<Wrapper>)
    requires ObsSpec.Inv(e, s) && Covers(order, s)
    ensures Reaches(Between(s, h), Between(Clean(e, s, order, connected).0, more))
  {
    var y, t := Between(s, h), Clean(e, s, order, connected).0;
    Stays(y);
    if !connected {
      more := h;
    } else {
      Then(y, y, BeginClean(0));
      var todo := s.obs.Keys;
      assert Apply(y, BeginClean(0)) == CleansAt(s, todo, h);
      more := EntriesSteps(e, s, order, todo, h);
      var z := CleansAt(CleanEntries(e, s, order), {}, more);
      assert todo - Names(order) == {};
      Follow(y, CleansAt(s, todo, h), z);
      Then(y, z, EndClean(0));
      assert Apply(z, EndClean(0)).threads == map[];
    }
  }

  // ---- whole runs ----

  /** Every `CleanUp` visits every entry once. */
  ghost predicate Proper(e: Env, s: State, calls: seq<Call>)
    decreases |calls|
  {
    calls == [] ||
    (&& (calls[0].CallCleanUp? ==> Covers(calls[0].order, s))
     && Proper(e, ApplyCall(e, s, calls[0]), calls[1..]))
  }

  lemma CallSteps(e: Env, s: State, call: Call, h: seq<Wrapper>) returns (more: seq<Wrapper>)
    requires ObsSpec.Inv(e, s) && (call.CallCleanUp? ==> Covers(call.order, s))
    ensures Reaches(Between(s, h), Between(ApplyCall(e, s, call), more))
  {
    more := h;
    match call {
      case CallRegister(uri, observer, memory, connected) => RegisterSteps(e, s, uri, observer, memory, connected, h);
      case CallUnregister(uri, observer, connected) => more := UnregisterSteps(e, s, uri, observer, connected, h);
      case CallCleanUp(order, connected) => more := CleanSteps(e, s, order, connected, h);
      case Idle => Stays(Between(s, h));
    }
  }

  lemma {:induction false} CallsSteps(e: Env, s: State, calls: seq<Call>, h: seq<Wrapper>) returns (more: seq<Wrapper>)
    requires ObsSpec.Inv(e, s) && Monotone(e) && Proper(e, s, calls)
    ensures Reaches(Between(s, h), Between(ObsSpec.Run(e, s, calls), more))
    decreases |calls|
  {
    if calls == [] {
      more := h;
      Stays(Between(s, h));
    } else {
      var t := ApplyCall(e, s, calls[0]);
      var h1 := CallSteps(e, s, calls[0], h);
      CallKeeps(e, s, calls[0]);
      more := CallsSteps(e, t, calls[1..], h1);
      Follow(Between(s, h), Between(t, h1), Between(ObsSpec.Run(e, s, calls), more));
    }
  }

  lemma CallKeeps(e: Env, s: State, call: Call)
    requires ObsSpec.Inv(e, s) && Monotone(e)
    ensures ObsSpec.Inv(e, ApplyCall(e, s, call))
  {
    assert ObsSpec.Run(e, s, [call]) == ApplyCall(e, s, call) by {
      assert [call][1..] == [];
    }
    ObsSpec.InvRun(e, s, [call]);
  }

  /**
   Any sequence of whole calls, with any client answers, is a run of the concurrent system: its steps, taken without
   interruption, leave the same table and the same remote service, and nobody in flight.
   */
  lemma CallsAreRuns(e: Env, calls: seq<Call>)
    requires Monotone(e) && Proper(e, EMPTY, calls)
    ensures exists steps: seq<Step> :: CanRun(START, steps) &&
              var y, s := ObsConcurrent.Run(START, steps), ObsSpec.Run(e, EMPTY, calls);
              y.obs == s.obs && y.remote == s.remote && y.threads == map[]
  {
    var more := CallsSteps(e, EMPTY, calls, []);
    assert Between(EMPTY, []) == START;
  }
}
