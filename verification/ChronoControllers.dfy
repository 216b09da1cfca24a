/** The timer object; its vector of tasks is sifted, shifted and searched in place. */
module ChronoControllers {
  import opened ChronoHeap
  import opened ChronoSteps

  class ChronoController {
    var tasks: seq<Task>
    var now: int             // the clock
    var running: bool

    ghost function State(): Chrono
      reads this
    {
      Chrono(tasks, now, running)
    }

    constructor (now: int)
      ensures State() == Init(now)
    {
      tasks, this.now, running := [], now, true;
    }

    method PushHeap()
      requires tasks != []
      modifies this`tasks
      ensures tasks == ChronoHeap.PushHeap(old(tasks))
    {
      var k := |tasks| - 1;
      while k > 0 && tasks[k].time < tasks[Parent(k)].time
        invariant 0 <= k < |tasks| == |old(tasks)|
        invariant SiftUp(tasks, k) == ChronoHeap.PushHeap(old(tasks))
      {
        tasks := Swap(tasks, k, Parent(k));
        k := Parent(k);
      }
    }

    method SiftDown(start: nat, n: nat)
      requires n <= |tasks|
      modifies this`tasks
      ensures tasks == ChronoHeap.SiftDown(old(tasks), start, n)
    {
      var k := start;
      while 2 * k + 1 < n && tasks[EarlierChild(tasks, k, n)].time < tasks[k].time
        invariant n <= |tasks| == |old(tasks)|
        invariant ChronoHeap.SiftDown(tasks, k, n) == ChronoHeap.SiftDown(old(tasks), start, n)
        decreases n - k
      {
        var c := EarlierChild(tasks, k, n);
        tasks := Swap(tasks, k, c);
        k := c;
      }
    }

    method PopHeap()
      requires tasks != []
      modifies this`tasks
      ensures tasks == ChronoHeap.PopHeap(old(tasks))
    {
      tasks := Swap(tasks, 0, |tasks| - 1);
      SiftDown(0, |tasks| - 1);
    }

    method MakeHeap()
      modifies this`tasks
      ensures tasks == ChronoHeap.MakeHeap(old(tasks))
    {
      var k := |tasks| / 2;
      while k > 0
        invariant 0 <= k <= |tasks| == |old(tasks)|
        invariant HeapFrom(tasks, k) == ChronoHeap.MakeHeap(old(tasks))
      {
        k := k - 1;
        SiftDown(k, |tasks|);
      }
    }

    method Add(task: Task)
      modifies this`tasks
      ensures State() == Next(old(State()), Step.Add(task))
    {
      if running {
        tasks := tasks + [task];
        PushHeap();
      }
    }

    /** The position of the first task with the id, or the end. */
    method Find(id: nat) returns (k: nat)
      ensures k == FirstWith(tasks, id)
    {
      k := 0;
      while k < |tasks| && tasks[k].id != id
        invariant k <= |tasks|
        invariant forall i :: 0 <= i < k ==> tasks[i].id != id
      {
        k := k + 1;
      }
      FirstIsUnique(tasks, id, k);
    }

    method Unbind(id: nat)
      modifies this`tasks
      ensures State() == Next(old(State()), Step.Unbind(id))
    {
      var k := Find(id);
      if k < |tasks| {
        tasks := tasks[..k] + tasks[k + 1..];
        MakeHeap();
      }
      assert tasks == Erased(old(tasks), id);
    }

    /** One turn of the loop in which the front is due; `renew` and `time` are what its callback does. */
    method Fire(renew: bool, time: int) returns (fired: Task)
      requires Enabled(State(), Step.Fire(renew, time))
      modifies this`tasks
      ensures State() == Next(old(State()), Step.Fire(renew, time))
      ensures fired == old(tasks)[0]
    {
      fired := tasks[0];
      tasks := tasks[0 := fired.(time := time)];
      PopHeap();
      if renew {
        PushHeap();
      } else {
        tasks := tasks[..|tasks| - 1];
      }
    }

    method Shutdown()
      modifies this`running
      ensures State() == Next(old(State()), Step.Shutdown)
    {
      running := false;
    }

    method TimeTravel(action: Action, target: int)
      modifies this`tasks, this`now
      ensures State() == Next(old(State()), Travel(action, target))
    {
      match action
      case ABSOLUTE => now := target;
      case RELATIVE =>
        var adjustment := target - now;
        now := target;
        var i := 0;
        while i < |tasks|
          invariant i <= |tasks| == |old(tasks)| && now == target
          invariant forall j :: 0 <= j < i ==> tasks[j] == Shifted(old(tasks), adjustment)[j]
          invariant forall j :: i <= j < |tasks| ==> tasks[j] == old(tasks)[j]
        {
          tasks := tasks[i := tasks[i].(time := tasks[i].time + adjustment)];
          i := i + 1;
        }
        assert tasks == Shifted(old(tasks), adjustment);
      case NEAREST =>
        var nearest := target;
        if tasks != [] {
          var first := 0;
          for i := 1 to |tasks|
            invariant 0 <= first < |tasks|
            invariant forall j :: 0 <= j < i ==> tasks[first].time <= tasks[j].time
          {
            if tasks[i].time < tasks[first].time {
              first := i;
            }
          }
          nearest := if tasks[first].time < target then tasks[first].time else target;
        }
        NearestIsMinimum(tasks, target);
        now := nearest;
    }
  }

  lemma {:induction false} FirstIsUnique(s: seq<Task>, id: nat, k: nat)
    requires k <= |s| && (k < |s| ==> s[k].id == id)
    requires forall i :: 0 <= i < k ==> s[i].id != id
    ensures k == FirstWith(s, id)
  {
    var f := FirstWith(s, id);
    assert f >= k;
  }
}
