/** Exit and waitpid over whole runs: every reported status was given at exit, to the parent, and
    is reported once. */
module SchedExit {
  import opened Base
  import opened SchedState
  import opened SchedInv
  import opened SchedRuns
  import opened SchedAges
  import opened SchedTheorems

  datatype Event =
    | Exited(id: nat, parent: Option<nat>, status: int)   // exit(status) was called by `id`
    | Reported(id: nat, reaper: nat, status: int)             // waitpid of `reaper` returned `id` with `status`

  function EventsOf(s: System, step: Step): seq<Event>
    requires Enabled(s, step)
  {
    match step
    case ExitBy(id, status) => [Exited(id, s.pool[id].parent, status)]
    case WaitBy(p, target) =>
      var r := Waitpid(s, p, target).1;
      if r.Collected? then [Reported(r.pid, p, r.status)] else []
    case _ => []
  }

  /** The exits and reports of the first n steps, in order. */
  ghost function Log(states: seq<System>, steps: seq<Step>, n: nat): seq<Event>
    requires IsRun(states, steps) && n <= |steps|
  {
    if n == 0 then []
    else
      assert StepAt(states, steps, n - 1);
      Log(states, steps, n - 1) + EventsOf(states[n - 1], steps[n - 1])
  }

  /** What the state remembers of an event. */
  ghost predicate Remembered(s: System, e: Event) {
    && e.id < s.nextId
    && (e.id in s.pool ==>
          match e
          case Exited(id, parent, status) => IsFinished(s.pool, id)
          case Reported(id, _, _) => s.pool[id].state.Terminated?)
  }

  ghost predicate Accounted(s: System, log: seq<Event>, c: nat)
    requires c in s.pool
  {
    s.pool[c].state.Zombie? && s.pool[c].exitStatus.Some? ==>
      Exited(c, s.pool[c].parent, s.pool[c].exitStatus.value) in log
  }

  /** No task exits twice or is reported twice. */
  ghost predicate Once(log: seq<Event>) {
    forall i, j :: 0 <= i < j < |log| && log[i].id == log[j].id ==> log[i].Exited? != log[j].Exited?
  }

  /** Every report follows the exit of that task, with its status, and goes to its parent. */
  ghost predicate Justified(log: seq<Event>) {
    forall j {:trigger log[j]} :: 0 <= j < |log| && log[j].Reported? ==>
      Exited(log[j].id, Some(log[j].reaper), log[j].status) in log[..j]
  }

  ghost predicate LogInv(s: System, log: seq<Event>) {
    && (forall e :: e in log ==> Remembered(s, e))
    && (forall c {:trigger Accounted(s, log, c)} :: c in s.pool ==> Accounted(s, log, c))
    && Once(log)
    && Justified(log)
  }

  lemma RememberedAges(s: System, t: System, e: Event)
    requires Remembered(s, e) && Ages(s, t)
    ensures Remembered(t, e)
  {
    assert AgesAt(s, t, e.id);
  }

  lemma QuietLog(s: System, t: System, log: seq<Event>)
    requires LogInv(s, log) && Ages(s, t) && Ids(s.pool, s.nextId)
    ensures LogInv(t, log)
  {
    forall e | e in log ensures Remembered(t, e) { RememberedAges(s, t, e); }
    forall c | c in t.pool ensures Accounted(t, log, c) {
      assert AgesAt(s, t, c);
      if t.pool[c].state.Zombie? { assert Accounted(s, log, c); }
    }
  }

  lemma SnocLog(log: seq<Event>, e: Event)
    requires Once(log) && Justified(log)
    requires forall x :: x in log && x.id == e.id ==> x.Exited? != e.Exited?
    requires e.Reported? ==> Exited(e.id, Some(e.reaper), e.status) in log
    ensures Once(log + [e]) && Justified(log + [e])
  {
    var l := log + [e];
    forall i, j | 0 <= i < j < |l| && l[i].id == l[j].id ensures l[i].Exited? != l[j].Exited? {
      if j == |log| { assert log[i] in log; }
    }
    forall j {:trigger l[j]} | 0 <= j < |l| && l[j].Reported? ensures Exited(l[j].id, Some(l[j].reaper), l[j].status) in l[..j] {
      if j < |log| {
        assert l[j] == log[j];
        assert l[..j] == log[..j];
      } else {
        assert l[..j] == log;
      }
    }
  }

  lemma ExitLog(s: System, id: nat, status: int, log: seq<Event>)
    requires LogInv(s, log) && Ids(s.pool, s.nextId) && RunnableIn(s, id)
    ensures LogInv(Exit(s, id, status), log + [Exited(id, s.pool[id].parent, status)])
  {
    var e := Exited(id, s.pool[id].parent, status);
    var t := Exit(s, id, status);
    forall x | x in log ensures Remembered(t, x) && x.id != id { assert Remembered(s, x); }
    SnocLog(log, e);
    forall c | c in t.pool ensures Accounted(t, log + [e], c) {
      if c != id { assert Accounted(s, log, c); }
    }
  }

  lemma CollectLog(s: System, p: nat, c: nat, log: seq<Event>)
    requires LogInv(s, log) && Ids(s.pool, s.nextId) && RunnableIn(s, p)
    requires IsChildOf(s.pool, c, p) && s.pool[c].state.Zombie? && s.pool[c].exitStatus.Some?
    requires Wait(s, p, c).1.Ok?
    ensures LogInv(Wait(s, p, c).0, log + [Reported(c, p, s.pool[c].exitStatus.value)])
  {
    var e := Reported(c, p, s.pool[c].exitStatus.value);
    var t := Wait(s, p, c).0;
    assert Accounted(s, log, c);
    forall x | x in log ensures Remembered(t, x) && (x.id == c ==> x.Exited?) { assert Remembered(s, x); }
    SnocLog(log, e);
    forall k | k in t.pool ensures Accounted(t, log + [e], k) { assert Accounted(s, log, k); }
  }

  lemma StepLog(s: System, step: Step, log: seq<Event>)
    requires Inv(s) && Enabled(s, step) && LogInv(s, log)
    ensures LogInv(Apply(s, step), log + EventsOf(s, step))
  {
    if step.ExitBy? {
      ExitLog(s, step.id, step.status, log);
    } else if step.WaitBy? && Waitpid(s, step.id, step.target).1.Collected? {
      WaitpidEffect(s, step.id, step.target);
      CollectLog(s, step.id, Waitpid(s, step.id, step.target).1.pid, log);
    } else {
      StepAges(s, step);
      QuietLog(s, Apply(s, step), log);
      assert log + [] == log;
    }
  }

  lemma {:induction false} LogReachable(states: seq<System>, steps: seq<Step>, n: nat)
    requires IsHistory(states, steps) && n <= |steps|
    ensures LogInv(states[n], Log(states, steps, n))
  {
    if n > 0 {
      LogReachable(states, steps, n - 1);
      LogAt(states, steps, n - 1);
    }
  }

  lemma LogAt(states: seq<System>, steps: seq<Step>, i: nat)
    requires IsHistory(states, steps) && i < |steps| && LogInv(states[i], Log(states, steps, i))
    ensures LogInv(states[i + 1], Log(states, steps, i + 1))
  {
    HistoryInv(states, steps, i);
    assert StepAt(states, steps, i);
    StepLog(states[i], steps[i], Log(states, steps, i));
  }

  /** Over every run: a status reported by waitpid is the one its task passed to exit, the report
      goes to its parent after the exit, and no task exits or is reported twice. */
  lemma ExitStatusOnce(states: seq<System>, steps: seq<Step>, j: nat)
    requires IsHistory(states, steps) && j < |Log(states, steps, |steps|)|
    requires Log(states, steps, |steps|)[j].Reported?
    ensures var log := Log(states, steps, |steps|);
            && (exists i :: 0 <= i < j && log[i] == Exited(log[j].id, Some(log[j].reaper), log[j].status)
                           && forall k :: 0 <= k < |log| && k != i && log[k].id == log[j].id ==> !log[k].Exited?)
            && forall k :: 0 <= k < |log| && k != j && log[k].id == log[j].id ==> !log[k].Reported?
  {
    LogReachable(states, steps, |steps|);
    var log := Log(states, steps, |steps|);
    assert Exited(log[j].id, Some(log[j].reaper), log[j].status) in log[..j];
    var i :| 0 <= i < j && log[..j][i] == Exited(log[j].id, Some(log[j].reaper), log[j].status);
    assert log[i] == log[..j][i];
  }
}
