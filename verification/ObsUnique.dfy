/**
 When the registry keeps its observers apart under the real lock granularity: no uri lists two wrappers of one observer.
 */
module ObsUnique {
  import opened ObsSpec
  import opened ObsConcurrent

  ghost predicate TablesUnique(s: System) {
    forall uri :: UniqueObservers(ListOf(s.obs, uri))
  }

  /** No list repeats an observer, in the table or taken out of it. */
  ghost predicate AllUnique(s: System) {
    forall p :: UniqueObservers(At(s, p))
  }

  /** Wrappers are put back next to a newer wrapper of the same observer. */
  predicate Clashes(s: System, step: Step) {
    && step.Restore? && Enabled(s, step)
    && exists w | w in s.threads[step.t].left :: Registered(ListOf(s.obs, s.threads[step.t].uri), w.observer)
  }

  lemma AppendUnique(a: seq<Wrapper>, b: seq<Wrapper>)
    requires UniqueObservers(a) && UniqueObservers(b)
    ensures UniqueObservers(a + b) <==> forall w | w in b :: !Registered(a, w.observer)
  {
    var c := a + b;
    if w :| w in b && Registered(a, w.observer) {
      var i :| 0 <= i < |a| && Holds(a[i], w.observer);
      var j :| 0 <= j < |b| && b[j] == w;
      assert c[i].observer == c[|a| + j].observer != 0;
    } else {
      forall i, j | 0 <= i < j < |c| && c[i].observer == c[j].observer
        ensures c[i].observer == 0
      {
        if i < |a| <= j {
          assert c[j] in b && !Registered(a, c[j].observer);
          assert !Holds(a[i], c[j].observer);
        }
      }
    }
  }

  lemma {:induction false} SplitUnique(list: seq<Wrapper>, observer: nat)
    requires UniqueObservers(list)
    ensures UniqueObservers(Kept(list, observer)) && UniqueObservers(Taken(list, observer))
    ensures forall w | w in Kept(list, observer) || w in Taken(list, observer) :: w in list
  {
    if list != [] {
      SplitUnique(list[1..], observer);
      HeadUnique(list, Kept(list[1..], observer));
      HeadUnique(list, Taken(list[1..], observer));
    }
  }

  lemma {:induction false} WithoutUnique(list: seq<Wrapper>, w: Wrapper)
    requires UniqueObservers(list)
    ensures UniqueObservers(Without(list, w))
    ensures forall x | x in Without(list, w) :: x in list
  {
    if list != [] {
      WithoutUnique(list[1..], w);
      HeadUnique(list, Without(list[1..], w));
    }
  }

  /** The head of a list in front of wrappers from its tail. */
  lemma {:induction false} HeadUnique(list: seq<Wrapper>, rest: seq<Wrapper>)
    requires list != [] && UniqueObservers(list) && UniqueObservers(rest) && forall w | w in rest :: w in list[1..]
    ensures UniqueObservers([list[0]] + rest)
  {
    forall j | 0 <= j < |rest| && rest[j].observer == list[0].observer
      ensures list[0].observer == 0
    {
      assert rest[j] in list[1..];
      var k :| 0 <= k < |list[1..]| && list[1..][k] == rest[j];
      assert list[k + 1] == rest[j];
    }
  }

  /** Steps that change at most one list, and only by losing or gaining wrappers at an end. */
  lemma UniqueTable(s: System, step: Step)
    requires AllUnique(s) && Enabled(s, step)
    requires step.BeginRegister? || step.Remove? || step.CleanOk? || step.UnregisterOk?
    ensures AllUnique(Apply(s, step))
  {
    var t := Apply(s, step);
    match step {
      case BeginRegister(_, uri, observer) =>
        assert UniqueObservers(At(s, Table(uri)));
        AppendUnique(ListOf(s.obs, uri), [Wrapper(s.nextId, observer)]);
      case Remove(th) =>
        assert UniqueObservers(At(s, Table(s.threads[th].uri)));
        WithoutUnique(ListOf(s.obs, s.threads[th].uri), s.threads[th].w);
      case UnregisterOk(th) => assert UniqueObservers(At(s, Flight(th)));
      case CleanOk(_, uri) => assert UniqueObservers(At(s, Table(uri)));
    }
    forall p ensures UniqueObservers(At(t, p)) {
      assert UniqueObservers(At(s, p));
    }
  }

  lemma UniqueExtract(s: System, th: nat, uri: Uri, observer: nat)
    requires AllUnique(s) && Enabled(s, BeginUnregister(th, uri, observer))
    ensures AllUnique(Apply(s, BeginUnregister(th, uri, observer)))
  {
    var t := Apply(s, BeginUnregister(th, uri, observer));
    assert UniqueObservers(At(s, Table(uri)));
    SplitUnique(ListOf(s.obs, uri), observer);
    forall p ensures UniqueObservers(At(t, p)) {
      assert UniqueObservers(At(s, p));
    }
  }

  lemma UniqueRestore(s: System, th: nat)
    requires AllUnique(s) && Enabled(s, Restore(th))
    ensures if Clashes(s, Restore(th)) then !TablesUnique(Apply(s, Restore(th))) else AllUnique(Apply(s, Restore(th)))
  {
    var t, uri := Apply(s, Restore(th)), s.threads[th].uri;
    assert UniqueObservers(At(s, Table(uri))) && UniqueObservers(At(s, Flight(th)));
    AppendUnique(ListOf(s.obs, uri), s.threads[th].left);
    assert ListOf(t.obs, uri) == ListOf(s.obs, uri) + s.threads[th].left;
    if !Clashes(s, Restore(th)) {
      forall p ensures UniqueObservers(At(t, p)) {
        assert UniqueObservers(At(s, p));
      }
    }
  }

  lemma UniqueStep(s: System, step: Step)
    requires AllUnique(s) && Enabled(s, step)
    ensures !Clashes(s, step) ==> AllUnique(Apply(s, step))
    ensures Clashes(s, step) ==> !TablesUnique(Apply(s, step))
  {
    match step {
      case BeginRegister(_, _, _) => UniqueTable(s, step);
      case Remove(_) => UniqueTable(s, step);
      case UnregisterOk(_) => UniqueTable(s, step);
      case CleanOk(_, _) => UniqueTable(s, step);
      case BeginUnregister(th, uri, observer) => UniqueExtract(s, th, uri, observer);
      case Restore(th) => UniqueRestore(s, th);
      case _ =>
        forall p ensures UniqueObservers(At(Apply(s, step), p)) {
          assert UniqueObservers(At(s, p));
        }
    }
  }

  /** No uri lists two wrappers of one observer in any state of the run. */
  ghost predicate UniqueThroughout(s: System, steps: seq<Step>)
    requires CanRun(s, steps)
    decreases |steps|
  {
    TablesUnique(s) && (steps == [] || UniqueThroughout(Apply(s, steps[0]), steps[1..]))
  }

  predicate NoClash(s: System, steps: seq<Step>)
    requires CanRun(s, steps)
    decreases |steps|
  {
    steps == [] || (!Clashes(s, steps[0]) && NoClash(Apply(s, steps[0]), steps[1..]))
  }

  lemma {:induction false} UniqueFrom(s: System, steps: seq<Step>)
    requires AllUnique(s) && CanRun(s, steps)
    ensures UniqueThroughout(s, steps) <==> NoClash(s, steps)
    decreases |steps|
  {
    forall uri ensures UniqueObservers(ListOf(s.obs, uri)) {
      assert UniqueObservers(At(s, Table(uri)));
    }
    if steps != [] {
      UniqueStep(s, steps[0]);
      if !Clashes(s, steps[0]) { UniqueFrom(Apply(s, steps[0]), steps[1..]); }
    }
  }

  /**
   In every run from the start no observer is ever wrapped twice under a uri exactly when no failed unregistration puts
   a wrapper back after its observer was registered anew.
   */
  lemma UniqueObserversIff(steps: seq<Step>)
    requires CanRun(START, steps)
    ensures UniqueThroughout(START, steps) <==> NoClash(START, steps)
  {
    UniqueFrom(START, steps);
  }
}
