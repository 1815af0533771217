/** The scheduler that runs posted work in order of priority, on any number of workers. */
module PriorityScheduler {

  // A posted function, by the order of posting.
  datatype Item = Item(id: nat, priority: int)

  datatype State = State(queue: seq<Item>, taken: seq<Item>, posted: nat, stopped: bool)

  datatype Step = Posts(priority: int) | Takes(i: nat) | Stops

  // Nothing in the queue has a higher priority than its i-th item.
  predicate IsTop(queue: seq<Item>, i: nat) {
    i < |queue| && forall j :: 0 <= j < |queue| ==> queue[j].priority <= queue[i].priority
  }

  // A worker takes a top item, any of them, and only while the scheduler runs.
  predicate Enabled(s: State, e: Step) {
    e.Takes? ==> !s.stopped && IsTop(s.queue, e.i)
  }

  function Next(s: State, e: Step): State
    requires Enabled(s, e)
  {
    match e
    case Posts(priority) => s.(queue := s.queue + [Item(s.posted, priority)], posted := s.posted + 1)
    case Takes(i) => s.(queue := s.queue[..i] + s.queue[i + 1..], taken := s.taken + [s.queue[i]])
    case Stops => s.(stopped := true)
  }

  const START := State([], [], 0, false)

  ghost predicate Run(s: State, run: seq<Step>, t: State)
    decreases |run|
  {
    if run == [] then s == t else Enabled(s, run[0]) && Run(Next(s, run[0]), run[1..], t)
  }

  predicate Below(l: seq<Item>, n: nat) {
    forall i :: 0 <= i < |l| ==> l[i].id < n
  }

  predicate Apart(l: seq<Item>) {
    forall i, j :: 0 <= i < j < |l| ==> l[i].id != l[j].id
  }

  // Every item posted so far is in the queue or was taken, once.
  ghost predicate Conserved(s: State) {
    && |s.queue| + |s.taken| == s.posted
    && Below(s.queue, s.posted) && Below(s.taken, s.posted) && Apart(s.queue + s.taken)
  }

  // Taking an item moves it from the queue to the end of those taken.
  lemma TakeKeeps(queue: seq<Item>, taken: seq<Item>, i: nat)
    requires Apart(queue + taken) && i < |queue|
    ensures Apart(queue[..i] + queue[i + 1..] + (taken + [queue[i]]))
  {
    var a, b := queue + taken, queue[..i] + queue[i + 1..] + (taken + [queue[i]]);
    assert forall k :: 0 <= k < |b| ==> b[k] == a[if k < i then k else if k == |b| - 1 then i else k + 1];
  }

  lemma PostKeeps(queue: seq<Item>, taken: seq<Item>, n: nat, x: Item)
    requires Apart(queue + taken) && Below(queue, n) && Below(taken, n) && x.id == n
    ensures Apart(queue + [x] + taken)
  {
    var a, b := queue + taken, queue + [x] + taken;
    assert forall k :: 0 <= k < |b| && k != |queue| ==> b[k] == a[if k < |queue| then k else k - 1] && b[k].id < n;
  }

  lemma StepKeeps(s: State, e: Step)
    requires Conserved(s) && Enabled(s, e)
    ensures Conserved(Next(s, e))
  {
    match e
    case Posts(priority) => PostKeeps(s.queue, s.taken, s.posted, Item(s.posted, priority));
    case Takes(i) => TakeKeeps(s.queue, s.taken, i);
    case Stops =>
  }

  lemma {:induction false} RunKeeps(s: State, run: seq<Step>, t: State)
    requires Conserved(s) && Run(s, run, t)
    ensures Conserved(t) && s.taken <= t.taken && s.posted <= t.posted && (s.stopped ==> t.stopped && t.taken == s.taken)
    decreases |run|
  {
    if run != [] {
      StepKeeps(s, run[0]);
      RunKeeps(Next(s, run[0]), run[1..], t);
    }
  }

  // Posted is queued plus taken, with nothing taken twice, in every run; and once the
  // scheduler was stopped nothing more is taken.
  lemma PostedIsQueuedPlusTaken(run: seq<Step>, s: State, more: seq<Step>, t: State)
    requires Run(START, run, s) && Run(s, more, t)
    ensures Conserved(s) && Conserved(t)
    ensures s.stopped ==> t.taken == s.taken
  {
    RunKeeps(START, run, s);
    RunKeeps(s, more, t);
  }

  // ---- What was posted ----

  function PostedBy(e: Step): seq<int> {
    if e.Posts? then [e.priority] else []
  }

  // The priorities of the Posts steps of a run, in order.
  function Posted(run: seq<Step>): seq<int> {
    if run == [] then [] else PostedBy(run[0]) + Posted(run[1..])
  }

  // Every item has the priority it was posted with, in the order of posting.
  predicate AsPosted(l: seq<Item>, priorities: seq<int>) {
    forall i {:trigger l[i]} :: 0 <= i < |l| ==> l[i].id < |priorities| && l[i].priority == priorities[l[i].id]
  }

  ghost predicate PostedOk(s: State, priorities: seq<int>) {
    s.posted == |priorities| && AsPosted(s.queue, priorities) && AsPosted(s.taken, priorities)
  }

  lemma StepPosts(s: State, e: Step, priorities: seq<int>)
    requires PostedOk(s, priorities) && Enabled(s, e)
    ensures PostedOk(Next(s, e), priorities + PostedBy(e))
  {
  }

  lemma PostedFirst(priorities: seq<int>, run: seq<Step>)
    requires run != []
    ensures priorities + PostedBy(run[0]) + Posted(run[1..]) == priorities + Posted(run)
  {
  }

  lemma {:induction false} RunPosts(s: State, run: seq<Step>, t: State, priorities: seq<int>)
    requires PostedOk(s, priorities) && Run(s, run, t)
    ensures PostedOk(t, priorities + Posted(run))
    decreases |run|
  {
    if run == [] {
      assert priorities + [] == priorities;
    } else {
      StepPosts(s, run[0], priorities);
      RunPosts(Next(s, run[0]), run[1..], t, priorities + PostedBy(run[0]));
      PostedFirst(priorities, run);
    }
  }

  lemma {:induction false} RunStops(s: State, run: seq<Step>, t: State)
    requires Run(s, run, t)
    ensures t.stopped <==> s.stopped || Stops in run
    decreases |run|
  {
    if run != [] {
      RunStops(Next(s, run[0]), run[1..], t);
      assert run == [run[0]] + run[1..];
    }
  }

  // In every run, as many items were posted as there are posting steps; an item that waits
  // or was taken has the priority of the step it was posted by; and the scheduler is stopped
  // if and only if somebody stopped it.
  lemma ItemsAsPosted(run: seq<Step>, t: State)
    requires Run(START, run, t)
    ensures t.posted == |Posted(run)| && (t.stopped <==> Stops in run)
    ensures AsPosted(t.queue, Posted(run)) && AsPosted(t.taken, Posted(run))
  {
    RunPosts(START, run, t, []);
    RunStops(START, run, t);
    assert [] + Posted(run) == Posted(run);
  }

  lemma {:induction false} PostedConcat(a: seq<Step>, b: seq<Step>)
    ensures Posted(a + b) == Posted(a) + Posted(b)
  {
    if a == [] {
      assert a + b == b;
    } else {
      PostedConcat(a[1..], b);
      assert (a + b)[1..] == a[1..] + b;
    }
  }

  lemma {:induction false} WaitingFirst(s: State, run: seq<Step>, t: State, x: Item, j: nat)
    requires Conserved(s) && Run(s, run, t) && x in s.queue
    requires |s.taken| <= j < |t.taken| && t.taken[j].priority < x.priority
    ensures exists i :: |s.taken| <= i < j && t.taken[i] == x
    decreases |run|
  {
    var e := run[0];
    var u := Next(s, e);
    StepKeeps(s, e);
    RunKeeps(u, run[1..], t);
    if e.Takes? {
      var y := s.queue[e.i];
      assert t.taken[|s.taken|] == u.taken[|s.taken|] == y;
      var k :| 0 <= k < |s.queue| && s.queue[k] == x;
      if k != e.i {
        assert u.queue[if k < e.i then k else k - 1] == x;
        WaitingFirst(u, run[1..], t, x, j);
      }
    } else {
      WaitingFirst(u, run[1..], t, x, j);
    }
  }

  // Of two items, of which the first waits after the run before, and the second is taken later
  // though it was posted with a strictly lower priority, the first is taken before the second.
  lemma HigherFirst(before: seq<Step>, s: State, run: seq<Step>, t: State, high: nat, j: nat)
    requires Run(START, before, s) && Run(s, run, t)
    requires exists k :: 0 <= k < |s.queue| && s.queue[k].id == high
    requires |s.taken| <= j < |t.taken|
    ensures high < |Posted(before)| && t.taken[j].id < |Posted(before + run)|
    ensures Posted(before + run)[t.taken[j].id] < Posted(before)[high] ==>
              exists i :: |s.taken| <= i < j && t.taken[i].id == high
  {
    RunKeeps(START, before, s);
    RunPosts(START, before, s, []);
    RunPosts(s, run, t, [] + Posted(before));
    PostedConcat(before, run);
    assert [] + Posted(before) == Posted(before);
    var k :| 0 <= k < |s.queue| && s.queue[k].id == high;
    if t.taken[j].priority < s.queue[k].priority {
      WaitingFirst(s, run, t, s.queue[k], j);
    }
  }

  // What one turn of a worker's loop finds.
  datatype Turn = Quit | Wait | Execute(item: Item)

  class Scheduler {
    var queue: seq<Item>
    var stopped: bool
    ghost var taken: seq<Item>
    var posted: nat

    ghost function Model(): State
      reads this
    {
      State(queue, taken, posted, stopped)
    }

    constructor ()
      ensures Model() == START
    {
      queue, taken, posted, stopped := [], [], 0, false;
    }

    method Post(priority: int)
      modifies this
      ensures Model() == Next(old(Model()), Posts(priority)) && queue == old(queue) + [Item(old(posted), priority)]
    {
      queue := queue + [Item(posted, priority)];
      posted := posted + 1;
    }

    // One turn: quit when stopped, wait for work, or take a top item.
    method RunOnce() returns (turn: Turn)
      modifies this
      ensures turn.Quit? <==> old(stopped)
      ensures turn.Wait? <==> !old(stopped) && old(queue) == []
      ensures !turn.Execute? ==> Model() == old(Model())
      ensures turn.Execute? ==> exists i: nat :: Enabled(old(Model()), Takes(i)) && turn.item == old(queue)[i] &&
                                            Model() == Next(old(Model()), Takes(i))
    {
      if stopped {
        return Quit;
      }
      if queue == [] {
        return Wait;
      }
      var top := 0;
      for j := 1 to |queue|
        invariant 0 <= top < |queue|
        invariant forall k :: 0 <= k < j ==> queue[k].priority <= queue[top].priority
      {
        if queue[top].priority < queue[j].priority {
          top := j;
        }
      }
      turn := Execute(queue[top]);
      assert Enabled(Model(), Takes(top));
      taken := taken + [queue[top]];
      queue := queue[..top] + queue[top + 1..];
    }

    method Stop()
      modifies this
      ensures Model() == Next(old(Model()), Stops)
    {
      stopped := true;
    }
  }
}
