/** The timer: its clock and heap of tasks, one step for each reaction and each turn of the firing loop. */
module ChronoSteps {
  import opened ChronoHeap

  datatype Action = ABSOLUTE | RELATIVE | NEAREST

  datatype Chrono = Chrono(tasks: seq<Task>, now: int, running: bool)

  datatype Step =
    | Add(task: Task)
    | Unbind(id: nat)
    | Fire(renew: bool, time: int)      // the callback sets its time and tells whether it renews
    | Travel(action: Action, target: int)
    | Tick(now: int)
    | Shutdown

  function Init(now: int): Chrono {
    Chrono([], now, true)
  }

  /** The position of the first task with the id, or the number of tasks. */
  function FirstWith(s: seq<Task>, id: nat): (k: nat)
    ensures k <= |s|
    ensures k < |s| ==> s[k].id == id
    ensures forall i :: 0 <= i < k ==> s[i].id != id
  {
    if s == [] || s[0].id == id then 0 else 1 + FirstWith(s[1..], id)
  }

  function Erased(s: seq<Task>, id: nat): seq<Task> {
    var k := FirstWith(s, id);
    if k < |s| then MakeHeap(s[..k] + s[k + 1..]) else s
  }

  /** The front runs and sets its time while it is still the front; only then is it popped. */
  function Fired(s: seq<Task>, renew: bool, time: int): seq<Task>
    requires s != []
  {
    var popped := PopHeap(s[0 := s[0].(time := time)]);
    if renew then PushHeap(popped) else popped[..|s| - 1]
  }

  function Shifted(s: seq<Task>, offset: int): (r: seq<Task>)
    ensures |r| == |s|
    ensures forall i :: 0 <= i < |s| ==> r[i] == s[i].(time := s[i].time + offset)
  {
    seq(|s|, i requires 0 <= i < |s| => s[i].(time := s[i].time + offset))
  }

  /** The target, or the time of the earliest task if that is before it. */
  function Nearest(s: seq<Task>, target: int): int {
    if s == [] then target
    else
      var rest := Nearest(s[1..], target);
      if s[0].time < rest then s[0].time else rest
  }

  predicate Enabled(c: Chrono, step: Step) {
    match step
    case Fire(_, _) => c.running && c.tasks != [] && c.tasks[0].time <= c.now
    case Tick(now) => c.now <= now
    case _ => true
  }

  function Next(c: Chrono, step: Step): Chrono
    requires Enabled(c, step)
  {
    match step
    case Add(task) => if c.running then c.(tasks := PushHeap(c.tasks + [task])) else c
    case Unbind(id) => c.(tasks := Erased(c.tasks, id))
    case Fire(renew, time) => c.(tasks := Fired(c.tasks, renew, time))
    case Travel(ABSOLUTE, target) => c.(now := target)
    case Travel(RELATIVE, target) => c.(tasks := Shifted(c.tasks, target - c.now), now := target)
    case Travel(NEAREST, target) => c.(now := Nearest(c.tasks, target))
    case Tick(now) => c.(now := now)
    case Shutdown => c.(running := false)
  }

  // ----- The heap is kept, and its contents change as they should -----

  predicate Heaped(s: seq<Task>) {
    IsHeap(s, |s|)
  }

  lemma {:induction false} AddIsExact(s: seq<Task>, task: Task)
    requires Heaped(s)
    ensures Heaped(PushHeap(s + [task]))
    ensures multiset(PushHeap(s + [task])) == multiset(s) + multiset{task}
  {
    var t := s + [task];
    forall i | 0 < i < |s| ensures Ordered(t, i) {
      assert Ordered(s, i);
    }
    PushKeepsHeap(t);
    SiftUpKeeps(t, |s|);
  }

  /** Unbinding removes one task with the id when there is one, and nothing else. */
  lemma {:induction false} UnbindIsExact(s: seq<Task>, id: nat)
    requires Heaped(s)
    ensures Heaped(Erased(s, id))
    ensures var k := FirstWith(s, id);
            multiset(Erased(s, id)) == if k < |s| then multiset(s) - multiset{s[k]} else multiset(s)
  {
    var k := FirstWith(s, id);
    if k < |s| {
      var t := s[..k] + s[k + 1..];
      MakeHeapOrders(t);
      HeapFromKeeps(t, |t| / 2);
      assert s == s[..k] + [s[k]] + s[k + 1..];
    }
  }

  /** The order holds below the front, so popping works although the front has changed its time. */
  lemma {:induction false} FireKeepsHeap(s: seq<Task>, renew: bool, time: int)
    requires s != [] && Heaped(s)
    ensures Heaped(Fired(s, renew, time))
  {
    var t := s[0 := s[0].(time := time)];
    forall i | 0 < i < |t| && Parent(i) > 0 ensures Ordered(t, i) {
      assert Ordered(s, i);
    }
    PopKeepsHeap(t);
    var popped := PopHeap(t);
    if renew {
      PushKeepsHeap(popped);
    } else {
      var rest := popped[..|s| - 1];
      forall i | 0 < i < |rest| ensures Ordered(rest, i) {
        assert Ordered(popped, i);
      }
    }
  }

  lemma {:induction false} FireKeepsOthers(s: seq<Task>, renew: bool, time: int)
    requires s != []
    ensures multiset(Fired(s, renew, time)) ==
            if renew then multiset(s[1..]) + multiset{s[0].(time := time)} else multiset(s[1..])
  {
    var front := s[0].(time := time);
    var t := s[0 := front];
    PopKeeps(t);
    assert t == [front] + s[1..];
    if renew {
      SiftUpKeeps(PopHeap(t), |s| - 1);
    }
  }

  /** Firing takes the front out, and puts it back with its new time when it renews. */
  lemma {:induction false} FireIsExact(s: seq<Task>, renew: bool, time: int)
    requires s != [] && Heaped(s)
    ensures Heaped(Fired(s, renew, time))
    ensures var rest := multiset(s) - multiset{s[0]};
            multiset(Fired(s, renew, time)) == if renew then rest + multiset{s[0].(time := time)} else rest
  {
    FireKeepsHeap(s, renew, time);
    FireKeepsOthers(s, renew, time);
    assert s == [s[0]] + s[1..];
  }

  lemma {:induction false} ShiftKeepsHeap(s: seq<Task>, offset: int)
    requires Heaped(s)
    ensures Heaped(Shifted(s, offset))
  {
    forall i | 0 < i < |s| ensures Ordered(Shifted(s, offset), i) {
      assert Ordered(s, i);
    }
  }

  lemma {:induction false} NextKeepsHeap(c: Chrono, step: Step)
    requires Heaped(c.tasks) && Enabled(c, step)
    ensures Heaped(Next(c, step).tasks)
  {
    match step
    case Add(task) => AddIsExact(c.tasks, task);
    case Unbind(id) => UnbindIsExact(c.tasks, id);
    case Fire(renew, time) => FireIsExact(c.tasks, renew, time);
    case Travel(_, target) => ShiftKeepsHeap(c.tasks, target - c.now);
    case _ =>
  }

  // ----- Time travel -----

  /** RELATIVE keeps the time from now to every task, and so all differences. */
  lemma {:induction false} RelativeKeepsDifferences(c: Chrono, target: int, i: nat)
    requires i < |c.tasks|
    ensures var d := Next(c, Travel(RELATIVE, target));
            && d.now == target && |d.tasks| == |c.tasks|
            && d.tasks[i].id == c.tasks[i].id
            && d.tasks[i].time - d.now == c.tasks[i].time - c.now
  {
  }

  lemma {:induction false} NearestIsMinimum(s: seq<Task>, target: int)
    ensures Nearest(s, target) <= target
    ensures forall i :: 0 <= i < |s| ==> Nearest(s, target) <= s[i].time
    ensures Nearest(s, target) == target || exists i :: 0 <= i < |s| && Nearest(s, target) == s[i].time
  {
    if s != [] {
      NearestIsMinimum(s[1..], target);
      forall i | 0 <= i < |s| ensures Nearest(s, target) <= s[i].time {
        assert i > 0 ==> s[i] == s[1..][i - 1];
      }
      assert Nearest(s, target) == s[0].time || Nearest(s, target) == Nearest(s[1..], target);
      if Nearest(s, target) != target && Nearest(s, target) != s[0].time {
        var i :| 0 <= i < |s[1..]| && Nearest(s, target) == s[1..][i].time;
        assert s[i + 1].time == Nearest(s, target);
      }
    }
  }

  /** NEAREST goes as far as it can without passing the target or a pending task, and leaves the tasks alone. */
  lemma {:induction false} NearestPassesNothing(c: Chrono, target: int)
    ensures var d := Next(c, Travel(NEAREST, target));
            && d.tasks == c.tasks && d.running == c.running
            && d.now <= target
            && (forall i :: 0 <= i < |c.tasks| ==> d.now <= c.tasks[i].time)
            && (d.now == target || exists i :: 0 <= i < |c.tasks| && d.now == c.tasks[i].time)
  {
    NearestIsMinimum(c.tasks, target);
  }

  /** ABSOLUTE goes to the target and leaves the tasks where they are, so that those passed are due. */
  lemma {:induction false} AbsoluteMakesDue(c: Chrono, target: int)
    requires Heaped(c.tasks)
    ensures var d := Next(c, Travel(ABSOLUTE, target));
            && d.now == target && d.tasks == c.tasks && d.running == c.running
            && (forall renew, time :: Enabled(d, Fire(renew, time)) <==>
                  d.running && exists i :: 0 <= i < |c.tasks| && c.tasks[i].time <= target)
  {
    SomeTaskIsDue(Next(c, Travel(ABSOLUTE, target)));
  }

  /** A task can fire if and only if some pending task is due. */
  lemma {:induction false} SomeTaskIsDue(c: Chrono)
    requires Heaped(c.tasks)
    ensures forall renew, time :: Enabled(c, Fire(renew, time)) <==>
              c.running && exists i :: 0 <= i < |c.tasks| && c.tasks[i].time <= c.now
  {
    if i :| 0 <= i < |c.tasks| && c.tasks[i].time <= c.now {
      RootIsMinimum(c.tasks, i);
    }
  }

  // ----- Runs -----

  ghost predicate Path(cs: seq<Chrono>, steps: seq<Step>) {
    && |cs| == |steps| + 1 && cs[0] == Init(cs[0].now)
    && forall i :: 0 <= i < |steps| ==> Enabled(cs[i], steps[i]) && cs[i + 1] == Next(cs[i], steps[i])
  }

  lemma {:induction false} PathKeepsHeap(cs: seq<Chrono>, steps: seq<Step>, k: nat)
    requires Path(cs, steps) && k < |cs|
    ensures Heaped(cs[k].tasks)
  {
    if k > 0 {
      PathKeepsHeap(cs, steps, k - 1);
      NextKeepsHeap(cs[k - 1], steps[k - 1]);
    }
  }

  /** In every run a task that fires is due and is a minimum of all that are pending. */
  lemma {:induction false} FiredIsEarliest(cs: seq<Chrono>, steps: seq<Step>, k: nat, i: nat)
    requires Path(cs, steps) && k < |steps| && steps[k].Fire? && i < |cs[k].tasks|
    ensures cs[k].tasks[0].time <= cs[k].now && cs[k].tasks[0].time <= cs[k].tasks[i].time
  {
    PathKeepsHeap(cs, steps, k);
    RootIsMinimum(cs[k].tasks, i);
  }

  /** In every run tasks are added and fire until the shutdown, and neither after it. */
  lemma {:induction false} RunsUntilShutdown(cs: seq<Chrono>, steps: seq<Step>, k: nat)
    requires Path(cs, steps) && k < |cs|
    ensures cs[k].running <==> forall j :: 0 <= j < k ==> !steps[j].Shutdown?
    ensures !cs[k].running && k < |steps| ==> !steps[k].Fire? && (steps[k].Add? ==> cs[k + 1] == cs[k])
  {
    if k > 0 {
      RunsUntilShutdown(cs, steps, k - 1);
    }
  }

  /** In every run, when the clock has come to a pending task of a running timer, some task can fire. */
  lemma {:induction false} DueTasksFire(
    cs: seq<Chrono>, steps: seq<Step>, k: nat, now: int, i: nat, renew: bool, time: int)
    requires Path(cs, steps) && k < |steps| && steps[k] == Tick(now) && cs[k].running
    requires i < |cs[k].tasks| && cs[k].tasks[i].time <= now
    ensures Enabled(cs[k + 1], Fire(renew, time))
  {
    PathKeepsHeap(cs, steps, k + 1);
    SomeTaskIsDue(cs[k + 1]);
  }

  // ----- The live tasks -----

  /** The list without the first occurrence of the task. */
  function Dropped(live: seq<Task>, task: Task): (r: seq<Task>)
    ensures multiset(r) == multiset(live) - multiset{task}
  {
    if live == [] then []
    else
      assert multiset(live) == multiset{live[0]} + multiset(live[1..]) by { assert live == [live[0]] + live[1..]; }
      if live[0] == task then live[1..] else [live[0]] + Dropped(live[1..], task)
  }

  /** How a step changes the list of live tasks, in whatever order the list is kept. */
  function LiveAfter(live: seq<Task>, c: Chrono, step: Step): seq<Task>
    requires Enabled(c, step)
  {
    match step
    case Add(task) => if c.running then live + [task] else live
    case Unbind(id) =>
      var k := FirstWith(c.tasks, id);
      if k < |c.tasks| then Dropped(live, c.tasks[k]) else live
    case Fire(renew, time) =>
      var rest := Dropped(live, c.tasks[0]);
      if renew then rest + [c.tasks[0].(time := time)] else rest
    case Travel(RELATIVE, target) => Shifted(live, target - c.now)
    case _ => live
  }

  /** The tasks added, each with the time it has been given since, without those unbound or finished. */
  ghost function Live(cs: seq<Chrono>, steps: seq<Step>, k: nat): seq<Task>
    requires Path(cs, steps) && k <= |steps|
  {
    if k == 0 then [] else LiveAfter(Live(cs, steps, k - 1), cs[k - 1], steps[k - 1])
  }

  lemma {:induction false} FirstCounts(s: seq<Task>, x: Task)
    requires s != []
    ensures multiset(s)[x] == (if s[0] == x then 1 else 0) + multiset(s[1..])[x]
  {
    assert s == [s[0]] + s[1..];
  }

  lemma {:induction false} ShiftCounts(s: seq<Task>, offset: int, x: Task)
    ensures multiset(Shifted(s, offset))[x] == multiset(s)[x.(time := x.time - offset)]
  {
    if s != [] {
      var t := Shifted(s, offset);
      assert t[1..] == Shifted(s[1..], offset);
      ShiftCounts(s[1..], offset, x);
      FirstCounts(t, x);
      FirstCounts(s, x.(time := x.time - offset));
    }
  }

  lemma {:induction false} SameShifted(s: seq<Task>, t: seq<Task>, offset: int)
    requires multiset(s) == multiset(t)
    ensures multiset(Shifted(s, offset)) == multiset(Shifted(t, offset))
  {
    forall x ensures multiset(Shifted(s, offset))[x] == multiset(Shifted(t, offset))[x] {
      ShiftCounts(s, offset, x);
      ShiftCounts(t, offset, x);
    }
  }

  lemma {:induction false} AddChangesLive(live: seq<Task>, s: seq<Task>, task: Task)
    requires Heaped(s) && multiset(s) == multiset(live)
    ensures multiset(PushHeap(s + [task])) == multiset(live + [task])
  {
    AddIsExact(s, task);
  }

  lemma {:induction false} FireChangesLive(live: seq<Task>, s: seq<Task>, renew: bool, time: int)
    requires s != [] && Heaped(s) && multiset(s) == multiset(live)
    ensures var rest := Dropped(live, s[0]);
            multiset(Fired(s, renew, time)) ==
            multiset(if renew then rest + [s[0].(time := time)] else rest)
  {
    FireIsExact(s, renew, time);
  }

  lemma {:induction false} UnbindChangesLive(live: seq<Task>, s: seq<Task>, id: nat)
    requires Heaped(s) && multiset(s) == multiset(live)
    ensures var k := FirstWith(s, id);
            multiset(Erased(s, id)) == multiset(if k < |s| then Dropped(live, s[k]) else live)
  {
    UnbindIsExact(s, id);
  }

  lemma {:induction false} TravelChangesLive(live: seq<Task>, c: Chrono, action: Action, target: int)
    requires multiset(c.tasks) == multiset(live)
    ensures multiset(Next(c, Travel(action, target)).tasks) == multiset(LiveAfter(live, c, Travel(action, target)))
  {
    if action == RELATIVE {
      SameShifted(c.tasks, live, target - c.now);
    }
  }

  lemma {:induction false} NextChangesLive(live: seq<Task>, c: Chrono, step: Step)
    requires Heaped(c.tasks) && Enabled(c, step) && multiset(c.tasks) == multiset(live)
    ensures multiset(Next(c, step).tasks) == multiset(LiveAfter(live, c, step))
  {
    match step
    case Add(task) => AddChangesLive(live, c.tasks, task);
    case Unbind(id) => UnbindChangesLive(live, c.tasks, id);
    case Fire(renew, time) => FireChangesLive(live, c.tasks, renew, time);
    case Travel(action, target) => TravelChangesLive(live, c, action, target);
    case _ =>
  }

  /** In every run the vector holds exactly the live tasks, each with its time. */
  lemma {:induction false} HoldsLiveTasks(cs: seq<Chrono>, steps: seq<Step>, k: nat)
    requires Path(cs, steps) && k < |cs|
    ensures multiset(cs[k].tasks) == multiset(Live(cs, steps, k))
  {
    if k > 0 {
      HoldsLiveTasks(cs, steps, k - 1);
      PathKeepsHeap(cs, steps, k - 1);
      NextChangesLive(Live(cs, steps, k - 1), cs[k - 1], steps[k - 1]);
    }
  }

  // ----- The order of firing -----

  /** A step that does not bring a task before the given time. */
  predicate NotBefore(step: Step, time: int) {
    match step
    case Add(task) => task.time >= time
    case Fire(renew, next) => renew ==> next >= time
    case Travel(action, _) => action != RELATIVE
    case _ => true
  }

  predicate AllFrom(s: seq<Task>, time: int) {
    forall i :: 0 <= i < |s| ==> s[i].time >= time
  }

  lemma {:induction false} SameFrom(s: seq<Task>, t: seq<Task>, time: int)
    requires AllFrom(s, time) && multiset(t) <= multiset(s)
    ensures AllFrom(t, time)
  {
    forall i | 0 <= i < |t| ensures t[i].time >= time {
      assert t[i] in multiset(t);
      assert t[i] in multiset(s);
      assert t[i] in s;
    }
  }

  lemma {:induction false} AddStaysFrom(s: seq<Task>, task: Task, time: int)
    requires Heaped(s) && AllFrom(s, time) && task.time >= time
    ensures AllFrom(PushHeap(s + [task]), time)
  {
    AddIsExact(s, task);
    SameFrom(s + [task], PushHeap(s + [task]), time);
  }

  lemma {:induction false} FireStaysFrom(s: seq<Task>, renew: bool, next: int, time: int)
    requires s != [] && AllFrom(s, time) && (renew ==> next >= time)
    ensures AllFrom(Fired(s, renew, next), time)
  {
    FireKeepsOthers(s, renew, next);
    SameFrom(if renew then s[1..] + [s[0].(time := next)] else s[1..], Fired(s, renew, next), time);
  }

  lemma {:induction false} UnbindStaysFrom(s: seq<Task>, id: nat, time: int)
    requires Heaped(s) && AllFrom(s, time)
    ensures AllFrom(Erased(s, id), time)
  {
    UnbindIsExact(s, id);
    SameFrom(s, Erased(s, id), time);
  }

  lemma {:induction false} NextStaysFrom(c: Chrono, step: Step, time: int)
    requires Heaped(c.tasks) && Enabled(c, step) && AllFrom(c.tasks, time) && NotBefore(step, time)
    ensures AllFrom(Next(c, step).tasks, time)
  {
    match step
    case Add(task) => AddStaysFrom(c.tasks, task, time);
    case Unbind(id) => UnbindStaysFrom(c.tasks, id, time);
    case Fire(renew, next) => FireStaysFrom(c.tasks, renew, next, time);
    case _ =>
  }

  lemma {:induction false} StaysFrom(cs: seq<Chrono>, steps: seq<Step>, j: nat, k: nat)
    requires Path(cs, steps) && j < k < |cs| && steps[j].Fire?
    requires forall i :: j <= i < k ==> NotBefore(steps[i], cs[j].tasks[0].time)
    ensures AllFrom(cs[k].tasks, cs[j].tasks[0].time)
  {
    PathKeepsHeap(cs, steps, k - 1);
    if j == k - 1 {
      forall i | 0 <= i < |cs[j].tasks| ensures cs[j].tasks[i].time >= cs[j].tasks[0].time {
        RootIsMinimum(cs[j].tasks, i);
      }
    } else {
      StaysFrom(cs, steps, j, k - 1);
    }
    NextStaysFrom(cs[k - 1], steps[k - 1], cs[j].tasks[0].time);
  }

  /** Tasks fire in the order of their times, unless one is added, renewed or shifted to before a fired one. */
  lemma {:induction false} FiringIsInOrder(cs: seq<Chrono>, steps: seq<Step>, j: nat, k: nat)
    requires Path(cs, steps) && j < k < |steps| && steps[j].Fire? && steps[k].Fire?
    requires forall i :: j <= i < k ==> NotBefore(steps[i], cs[j].tasks[0].time)
    ensures cs[j].tasks[0].time <= cs[k].tasks[0].time
  {
    StaysFrom(cs, steps, j, k);
  }
}
