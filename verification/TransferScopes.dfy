/**
 Who counts as an active file of a transfer budget.

 A task that enters a transfer scope is counted once by the budget in force, however deep it nests further
 scopes and whatever tasks it starts. Context variables carry the budget in force and the budget that has
 counted the transfer; a child task starts with a copy of them.
 */
module TransferScopes {
  import opened Basics
  import T = TransferBudget

  /** The identity of a budget. */
  type Budget = nat

  /** `budget` is the budget in force, `registered` the one that has counted this transfer. */
  datatype Context = Context(budget: Option<Budget>, registered: Option<Budget>)

  /** A block that a task is in, with the context it restores: a `with` on a budget, or a transfer scope. */
  datatype Frame =
    | With(budget: Budget, saved: Context)
    | Scope(budget: Budget, counted: bool, saved: Context)

  datatype Task = Task(start: Context, context: Context, frames: seq<Frame>)

  datatype State = State(loopBudget: Budget, active: map<Budget, int>, tasks: seq<Task>)

  datatype Action =
    | OpenBudget(t: nat, budget: Budget)
    | EnterScope(t: nat)
    | Leave(t: nat)          // the innermost block ends, normally or not
    | Spawn(t: nat)

  /** `active_files` of a budget. */
  function Counter(active: map<Budget, int>, b: Budget): int {
    if b in active then active[b] else 0
  }

  function Active(s: State, b: Budget): int {
    Counter(s.active, b)
  }

  /** The budget in force, or that of the event loop. */
  function InForce(loopBudget: Budget, c: Context): Budget {
    if c.budget.Some? then c.budget.value else loopBudget
  }

  predicate CanAct(s: State, a: Action) {
    match a
    case OpenBudget(t, _) => t < |s.tasks|
    case EnterScope(t) => t < |s.tasks|
    case Leave(t) => t < |s.tasks| && s.tasks[t].frames != []
    case Spawn(t) => t < |s.tasks|
  }

  function Apply(s: State, a: Action): State
    requires CanAct(s, a)
  {
    match a
    case OpenBudget(t, b) =>
      var task := s.tasks[t];
      s.(tasks := s.tasks[t := task.(frames := task.frames + [With(b, task.context)],
                                     context := task.context.(budget := Some(b)))])
    case EnterScope(t) =>
      var task := s.tasks[t];
      var b := InForce(s.loopBudget, task.context);
      if task.context.registered == Some(b) then
        s.(tasks := s.tasks[t := task.(frames := task.frames + [Scope(b, false, task.context)])])
      else
        s.(active := s.active[b := Active(s, b) + 1],
           tasks := s.tasks[t := task.(frames := task.frames + [Scope(b, true, task.context)],
                                       context := Context(Some(b), Some(b)))])
    case Leave(t) =>
      var task := s.tasks[t];
      var last := task.frames[|task.frames| - 1];
      var left := task.(frames := task.frames[..|task.frames| - 1], context := last.saved);
      if last.Scope? && last.counted then
        s.(active := s.active[last.budget := Active(s, last.budget) - 1], tasks := s.tasks[t := left])
      else s.(tasks := s.tasks[t := left])
    case Spawn(t) => s.(tasks := s.tasks + [Task(s.tasks[t].context, s.tasks[t].context, [])])
  }

  // ----- what every step keeps -----

  /** The context inside the blocks, which were entered one by one. */
  ghost predicate Nested(loopBudget: Budget, start: Context, frames: seq<Frame>, inside: Context)
    decreases |frames|
  {
    if frames == [] then inside == start
    else
      var n := |frames| - 1;
      var f := frames[n];
      && Nested(loopBudget, start, frames[..n], f.saved)
      && match f
         case With(b, saved) => inside == saved.(budget := Some(b))
         case Scope(b, counted, saved) =>
           && b == InForce(loopBudget, saved)
           && (counted <==> saved.registered != Some(b))
           && inside == if counted then Context(Some(b), Some(b)) else saved
  }

  function Counts(b: Budget): Frame -> nat {
    (f: Frame) => if f.Scope? && f.counted && f.budget == b then 1 else 0
  }

  function CountsIn(b: Budget): Task -> nat {
    (t: Task) => Total(t.frames, Counts(b))
  }

  ghost predicate Inv(s: State) {
    && (forall t :: 0 <= t < |s.tasks| ==>
          Nested(s.loopBudget, s.tasks[t].start, s.tasks[t].frames, s.tasks[t].context))
    && (forall b :: Active(s, b) == Total(s.tasks, CountsIn(b)))
  }

  lemma NestedPush(loopBudget: Budget, start: Context, frames: seq<Frame>, f: Frame)
    requires Nested(loopBudget, start, frames, f.saved)
    requires f.Scope? ==> f.budget == InForce(loopBudget, f.saved) && (f.counted <==> f.saved.registered != Some(f.budget))
    ensures Nested(loopBudget, start, frames + [f],
                   if f.With? then f.saved.(budget := Some(f.budget))
                   else if f.counted then Context(Some(f.budget), Some(f.budget)) else f.saved)
  {
    assert (frames + [f])[..|frames|] == frames;
  }

  lemma ActKeepsNesting(s: State, a: Action, t: nat)
    requires Inv(s) && CanAct(s, a) && t < |Apply(s, a).tasks|
    ensures var task := Apply(s, a).tasks[t]; Nested(s.loopBudget, task.start, task.frames, task.context)
  {
    if t < |s.tasks| {
      var task := s.tasks[t];
      match a
      case OpenBudget(u, b) =>
        NestedPush(s.loopBudget, task.start, task.frames, With(b, task.context));
      case EnterScope(u) =>
        var b := InForce(s.loopBudget, task.context);
        NestedPush(s.loopBudget, task.start, task.frames, Scope(b, task.context.registered != Some(b), task.context));
      case Leave(u) =>
      case Spawn(u) =>
    }
  }

  lemma PopCount(frames: seq<Frame>, f: Frame -> nat)
    requires frames != []
    ensures Total(frames, f) == Total(frames[..|frames| - 1], f) + f(frames[|frames| - 1])
  {
    TotalAppend(frames[..|frames| - 1], frames[|frames| - 1], f);
    assert frames[..|frames| - 1] + [frames[|frames| - 1]] == frames;
  }

  /** Replacing one task changes the sum by what its own blocks count. */
  lemma TaskCount(tasks: seq<Task>, t: nat, task: Task, b: Budget)
    requires t < |tasks|
    ensures Total(tasks[t := task], CountsIn(b)) + Total(tasks[t].frames, Counts(b))
              == Total(tasks, CountsIn(b)) + Total(task.frames, Counts(b))
  {
    TotalUpdate(tasks, t, task, CountsIn(b));
  }

  lemma PushKeepsCount(s: State, a: Action, b: Budget)
    requires CanAct(s, a) && (a.OpenBudget? || a.EnterScope?) && Active(s, b) == Total(s.tasks, CountsIn(b))
    ensures Active(Apply(s, a), b) == Total(Apply(s, a).tasks, CountsIn(b))
  {
    var r := Apply(s, a);
    var task := r.tasks[a.t];
    var last := task.frames[|s.tasks[a.t].frames|];
    TotalAppend(s.tasks[a.t].frames, last, Counts(b));
    TaskCount(s.tasks, a.t, task, b);
    hide Total;
    assert Active(r, b) == Active(s, b) + Counts(b)(last);
    hide Active, Apply;
  }

  lemma LeaveKeepsCount(s: State, t: nat, b: Budget)
    requires CanAct(s, Leave(t)) && Active(s, b) == Total(s.tasks, CountsIn(b))
    ensures Active(Apply(s, Leave(t)), b) == Total(Apply(s, Leave(t)).tasks, CountsIn(b))
  {
    var r := Apply(s, Leave(t));
    var frames := s.tasks[t].frames;
    PopCount(frames, Counts(b));
    TaskCount(s.tasks, t, r.tasks[t], b);
    hide Total;
    assert Active(r, b) + Counts(b)(frames[|frames| - 1]) == Active(s, b);
    hide Active, Apply;
  }

  lemma ActKeepsCount(s: State, a: Action, b: Budget)
    requires CanAct(s, a) && Active(s, b) == Total(s.tasks, CountsIn(b))
    ensures Active(Apply(s, a), b) == Total(Apply(s, a).tasks, CountsIn(b))
  {
    if a.Spawn? {
      TotalAppend(s.tasks, Task(s.tasks[a.t].context, s.tasks[a.t].context, []), CountsIn(b));
    } else if a.Leave? {
      LeaveKeepsCount(s, a.t, b);
    } else {
      PushKeepsCount(s, a, b);
    }
  }

  lemma ActKeepsInv(s: State, a: Action)
    requires Inv(s) && CanAct(s, a)
    ensures Inv(Apply(s, a))
  {
    var r := Apply(s, a);
    forall t | 0 <= t < |r.tasks| ensures Nested(r.loopBudget, r.tasks[t].start, r.tasks[t].frames, r.tasks[t].context) {
      ActKeepsNesting(s, a, t);
    }
    forall b ensures Active(r, b) == Total(r.tasks, CountsIn(b)) {
      ActKeepsCount(s, a, b);
    }
    hide Nested, Apply, Active;
  }

  // ----- whole runs -----

  predicate Valid(s: State, run: seq<Action>)
    decreases |run|
  {
    run == [] || (CanAct(s, run[0]) && Valid(Apply(s, run[0]), run[1..]))
  }

  function Exec(s: State, run: seq<Action>): State
    requires Valid(s, run)
    decreases |run|
  {
    if run == [] then s else Exec(Apply(s, run[0]), run[1..])
  }

  function Initial(loopBudget: Budget): State {
    State(loopBudget, map[], [Task(Context(None, None), Context(None, None), [])])
  }

  lemma {:induction false} RunKeepsInv(s: State, run: seq<Action>)
    requires Inv(s) && Valid(s, run)
    ensures Inv(Exec(s, run))
    decreases |run|
  {
    hide Inv, Apply, CanAct;
    if run != [] {
      ActKeepsInv(s, run[0]);
      RunKeepsInv(Apply(s, run[0]), run[1..]);
    }
  }

  lemma {:induction false} NoFramesNoCount(tasks: seq<Task>, b: Budget)
    requires forall t :: t in tasks ==> t.frames == []
    ensures Total(tasks, CountsIn(b)) == 0
  {
    if tasks != [] {
      assert tasks[0] in tasks && forall t :: t in tasks[1..] ==> t in tasks;
      NoFramesNoCount(tasks[1..], b);
    }
  }

  /** In every state the counter of a budget is the number of scopes it has counted that are still open; so
      it is never negative, and zero again when no task is inside a block. */
  lemma CounterIsExact(loopBudget: Budget, run: seq<Action>, b: Budget)
    requires Valid(Initial(loopBudget), run)
    ensures var s := Exec(Initial(loopBudget), run);
            && Active(s, b) == Total(s.tasks, CountsIn(b))
            && ((forall t :: t in s.tasks ==> t.frames == []) ==> Active(s, b) == 0)
  {
    RunKeepsInv(Initial(loopBudget), run);
    var s := Exec(Initial(loopBudget), run);
    if forall t :: t in s.tasks ==> t.frames == [] {
      NoFramesNoCount(s.tasks, b);
    }
  }

  // ----- each transfer is counted once -----

  ghost predicate OnlyScopes(frames: seq<Frame>) {
    forall i :: 0 <= i < |frames| ==> frames[i].Scope?
  }

  /** Nested scopes without a `with` between them count once, in the outermost; in a task that was started
      inside a counted scope they do not count at all. */
  lemma {:induction false} NestedScopesCountOnce(loopBudget: Budget, start: Context, frames: seq<Frame>, inside: Context,
                                                 b: Budget)
    requires Nested(loopBudget, start, frames, inside) && OnlyScopes(frames)
    ensures frames == [] ==> inside == start
    ensures frames != [] ==> inside.registered == Some(InForce(loopBudget, start))
                             && InForce(loopBudget, inside) == InForce(loopBudget, start)
    ensures Total(frames, Counts(b)) ==
              if frames != [] && b == InForce(loopBudget, start) && start.registered != Some(b) then 1 else 0
    decreases |frames|
  {
    if frames != [] {
      var n := |frames| - 1;
      NestedScopesCountOnce(loopBudget, start, frames[..n], frames[n].saved, b);
      PopCount(frames, Counts(b));
    }
  }

  /** The budgets of the scopes a task is in, from the outermost. */
  function Budgets(frames: seq<Frame>): seq<Budget> {
    if frames == [] then []
    else
      var n := |frames| - 1;
      if frames[n].Scope? then Budgets(frames[..n]) + [frames[n].budget] else Budgets(frames[..n])
  }

  /** How often `b` is entered from another budget, or from none. */
  function Entries(bs: seq<Budget>, b: Budget): nat {
    if bs == [] then 0
    else
      var n := |bs| - 1;
      Entries(bs[..n], b) + if bs[n] == b && (n == 0 || bs[n - 1] != b) then 1 else 0
  }

  lemma EntriesPush(bs: seq<Budget>, x: Budget, b: Budget)
    ensures Entries(bs + [x], b) == Entries(bs, b) + if x == b && (bs == [] || bs[|bs| - 1] != b) then 1 else 0
  {
    assert (bs + [x])[..|bs|] == bs;
  }

  /** The budget, if any, that had counted the transfer of a task when it started. */
  function Inherited(start: Context): seq<Budget> {
    if start.registered.Some? then [start.registered.value] else []
  }

  /** The budgets that count a task: that of its start, if any, and those of the scopes it is in. */
  function Counting(start: Context, frames: seq<Frame>): seq<Budget> {
    Inherited(start) + Budgets(frames)
  }

  lemma CountingGrows(start: Context, frames: seq<Frame>)
    requires frames != []
    ensures var last := frames[|frames| - 1];
            Counting(start, frames) == Counting(start, frames[..|frames| - 1]) + if last.Scope? then [last.budget] else []
  {
  }

  lemma {:induction false} CountsAreEntries(loopBudget: Budget, start: Context, frames: seq<Frame>, inside: Context,
                                            b: Budget)
    requires Nested(loopBudget, start, frames, inside)
    ensures var before := if start.registered == Some(b) then 1 else 0;
            before + Total(frames, Counts(b)) == Entries(Counting(start, frames), b)
    ensures var bs := Counting(start, frames); inside.registered == if bs == [] then None else Some(bs[|bs| - 1])
    decreases |frames|
  {
    if frames != [] {
      var n := |frames| - 1;
      CountsAreEntries(loopBudget, start, frames[..n], frames[n].saved, b);
      PopCount(frames, Counts(b));
      var bs := Counting(start, frames[..n]);
      CountingGrows(start, frames);
      EntriesPush(bs, frames[n].budget, b);
      hide Total, Entries, Counting;
    }
  }

  /** Scopes of `b` are not interrupted by scopes of another budget. */
  ghost predicate Uninterrupted(bs: seq<Budget>, b: Budget) {
    forall i, j, k :: 0 <= i <= j <= k < |bs| && bs[i] == b && bs[k] == b ==> bs[j] == b
  }

  lemma {:induction false} EntriesZero(bs: seq<Budget>, b: Budget)
    ensures Entries(bs, b) == 0 <==> b !in bs
  {
    if bs != [] {
      var n := |bs| - 1;
      EntriesZero(bs[..n], b);
      assert bs == bs[..n] + [bs[n]];
      if n > 0 && bs[n - 1] == b {
        assert bs[..n][n - 1] == b;
      }
    }
  }

  lemma {:induction false} EnteredOnce(bs: seq<Budget>, b: Budget)
    ensures Entries(bs, b) <= 1 <==> Uninterrupted(bs, b)
  {
    if bs != [] {
      var n := |bs| - 1;
      var front := bs[..n];
      EnteredOnce(front, b);
      EntriesZero(front, b);
      assert Uninterrupted(bs, b) ==> Uninterrupted(front, b);
      if bs[n] == b && n > 0 && bs[n - 1] != b && b in front {
        var i :| 0 <= i < n && front[i] == b;
        assert !(bs[i] == b && bs[n] == b ==> bs[n - 1] == b);
      } else if Uninterrupted(front, b) {
        forall i, j, k | 0 <= i <= j <= k < |bs| && bs[i] == b && bs[k] == b ensures bs[j] == b {
          if j < n {
            assert front[i] == b;
            assert front[if k < n then k else n - 1] == b;
            assert front[j] == b;
          }
        }
      }
    }
  }

  /** Wherever it started, a task is counted at most once by a budget, with what it inherited, exactly if its
      scopes do not leave that budget for another and come back to it. */
  lemma CountedOnceExactly(loopBudget: Budget, start: Context, frames: seq<Frame>, inside: Context, b: Budget)
    requires Nested(loopBudget, start, frames, inside)
    ensures var before := if start.registered == Some(b) then 1 else 0;
            before + Total(frames, Counts(b)) <= 1 <==> Uninterrupted(Counting(start, frames), b)
  {
    CountsAreEntries(loopBudget, start, frames, inside, b);
    EnteredOnce(Counting(start, frames), b);
  }

  /** `b` does not count the task: it was counted before the task started and the task never came back to `b`
      from elsewhere, or it was not and the task is in no scope of `b`. */
  ghost predicate Uncounted(task: Task, b: Budget) {
    if task.start.registered == Some(b) then Uninterrupted([b] + Budgets(task.frames), b)
    else b !in Budgets(task.frames)
  }

  lemma UncountedExactly(loopBudget: Budget, task: Task, b: Budget)
    requires Nested(loopBudget, task.start, task.frames, task.context)
    ensures Total(task.frames, Counts(b)) == 0 <==> Uncounted(task, b)
  {
    var bs := Counting(task.start, task.frames);
    CountsAreEntries(loopBudget, task.start, task.frames, task.context, b);
    EnteredOnce(bs, b);
    EntriesZero(bs, b);
    hide Entries, Uninterrupted, Total, Nested;
    if task.start.registered == Some(b) {
      assert bs == [b] + Budgets(task.frames);
      assert bs[0] == b;
    }
  }

  lemma {:induction false} TotalZero<T>(s: seq<T>, f: T -> nat)
    ensures Total(s, f) == 0 <==> forall i :: 0 <= i < |s| ==> f(s[i]) == 0
  {
    if s != [] {
      TotalZero(s[1..], f);
      assert forall i :: 0 < i < |s| ==> s[i] == s[1..][i - 1];
    }
  }

  /** The innermost scope that the task is in is one of `b`. */
  predicate InScopeOf(task: Task, b: Budget) {
    var bs := Budgets(task.frames); bs != [] && bs[|bs| - 1] == b
  }

  /** A task that inherited its place in `b` and has entered no other budget since. */
  predicate Orphan(task: Task, b: Budget) {
    task.start.registered == Some(b) && forall x :: x in Budgets(task.frames) ==> x == b
  }

  lemma OrphanExactly(task: Task, b: Budget)
    requires InScopeOf(task, b)
    ensures Uncounted(task, b) <==> Orphan(task, b)
  {
    var bs := [b] + Budgets(task.frames);
    forall j | Orphan(task, b) && 0 <= j < |bs| ensures bs[j] == b {
      assert bs[j] in bs;
    }
    if Uninterrupted(bs, b) {
      forall x | x in Budgets(task.frames) ensures x == b {
        assert x in bs;
        var j :| 0 <= j < |bs| && bs[j] == x;
        assert bs[0] == b && bs[|bs| - 1] == b;
      }
    }
  }

  /** In every run, a task inside a scope of `b` finds that no file is active in `b` exactly if it inherited
      its place there, has not left it for another budget, and no task that `b` does count is left. */
  lemma SeesNoneExactly(loopBudget: Budget, run: seq<Action>, t: nat, b: Budget)
    requires Valid(Initial(loopBudget), run)
    requires var s := Exec(Initial(loopBudget), run); t < |s.tasks| && InScopeOf(s.tasks[t], b)
    ensures var s := Exec(Initial(loopBudget), run);
            && Active(s, b) >= 0
            && (Active(s, b) == 0 <==> Orphan(s.tasks[t], b) && forall u :: 0 <= u < |s.tasks| ==> Uncounted(s.tasks[u], b))
  {
    RunKeepsInv(Initial(loopBudget), run);
    var s := Exec(Initial(loopBudget), run);
    hide Exec, Valid;
    forall u | 0 <= u < |s.tasks| ensures CountsIn(b)(s.tasks[u]) == 0 <==> Uncounted(s.tasks[u], b) {
      UncountedExactly(s.loopBudget, s.tasks[u], b);
    }
    TotalZero(s.tasks, CountsIn(b));
    OrphanExactly(s.tasks[t], b);
    hide Uncounted, Orphan, InScopeOf, Nested, Total;
  }

  /** Such a task's uploads divide by zero if they are to use several workers. */
  lemma DividesByZeroExactly(loopBudget: Budget, run: seq<Action>, t: nat, b: Budget, l: T.Limits, j: T.Job)
    requires Valid(Initial(loopBudget), run) && T.ValidLimits(l)
    requires var s := Exec(Initial(loopBudget), run); t < |s.tasks| && InScopeOf(s.tasks[t], b)
    ensures var s := Exec(Initial(loopBudget), run);
            && Active(s, b) >= 0
            && (T.WorkerCount(l, Active(s, b), j).None? <==>
                && j.parallel && Orphan(s.tasks[t], b)
                && forall u :: 0 <= u < |s.tasks| ==> Uncounted(s.tasks[u], b))
  {
    SeesNoneExactly(loopBudget, run, t, b);
  }

  lemma OrphanStates(b: Budget) returns (s1: State, s2: State, s3: State, s4: State)
    ensures CanAct(Initial(b), EnterScope(0)) && Apply(Initial(b), EnterScope(0)) == s1
    ensures CanAct(s1, Spawn(0)) && Apply(s1, Spawn(0)) == s2
    ensures CanAct(s2, Leave(0)) && Apply(s2, Leave(0)) == s3
    ensures CanAct(s3, EnterScope(1)) && Apply(s3, EnterScope(1)) == s4
    ensures |s4.tasks| == 2 && s4.active == map[b := 0] && s4.tasks[1].frames == [Scope(b, false, s4.tasks[1].start)]
  {
    var outside, c := Context(None, None), Context(Some(b), Some(b));
    var first := Task(outside, c, [Scope(b, true, outside)]);
    s1 := State(b, map[b := 1], [first]);
    s2 := State(b, map[b := 1], [first, Task(c, c, [])]);
    s3 := State(b, map[b := 0], [Task(outside, outside, []), Task(c, c, [])]);
    s4 := State(b, map[b := 0], [Task(outside, outside, []), Task(c, c, [Scope(b, false, c)])]);
    assert [] + [Scope(b, true, outside)] == first.frames && Initial(b).tasks[0 := first] == s1.tasks;
    assert s2.tasks[0].frames[..0] == [];
    assert [] + [Scope(b, false, c)] == s4.tasks[1].frames && s3.tasks[1 := s4.tasks[1]] == s4.tasks;
  }

  /** A task that was started inside a scope, and enters one itself after that scope has ended, is such a task. */
  lemma OrphanSeesNone(b: Budget)
    ensures var run := [EnterScope(0), Spawn(0), Leave(0), EnterScope(1)];
            && Valid(Initial(b), run)
            && var s := Exec(Initial(b), run); |s.tasks| == 2 && InScopeOf(s.tasks[1], b) && Active(s, b) == 0
  {
    var run := [EnterScope(0), Spawn(0), Leave(0), EnterScope(1)];
    var s1, s2, s3, s4 := OrphanStates(b);
    assert Budgets(s4.tasks[1].frames) == [b];
    assert Active(s4, b) == 0;
    hide Apply, CanAct, Active, Budgets;
    RunStep(s3, run, 3, s4);
    RunStep(s2, run, 2, s4);
    RunStep(s1, run, 1, s4);
    RunStep(Initial(b), run, 0, s4);
    assert run[0..] == run;
  }

  /** Coming back to a budget inside a scope of another counts one transfer twice. */
  lemma AlternatingBudgetsCountTwice(loopBudget: Budget, a: Budget, b: Budget)
    requires a != b
    ensures var run := [OpenBudget(0, a), EnterScope(0), OpenBudget(0, b), EnterScope(0), OpenBudget(0, a), EnterScope(0)];
            Valid(Initial(loopBudget), run) && Active(Exec(Initial(loopBudget), run), a) == 2
  {
    var run := [OpenBudget(0, a), EnterScope(0), OpenBudget(0, b), EnterScope(0), OpenBudget(0, a), EnterScope(0)];
    var s0 := Initial(loopBudget);
    var s1 := Apply(s0, run[0]);
    var s2 := Apply(s1, run[1]);
    var s3 := Apply(s2, run[2]);
    var s4 := Apply(s3, run[3]);
    var s5 := Apply(s4, run[4]);
    var s6 := Apply(s5, run[5]);
    assert Active(s2, a) == 1 && Active(s4, a) == 1 && Active(s6, a) == 2;
    hide Apply, Active;
    RunStep(s5, run, 5, s6);
    RunStep(s4, run, 4, s6);
    RunStep(s3, run, 3, s6);
    RunStep(s2, run, 2, s6);
    RunStep(s1, run, 1, s6);
    RunStep(s0, run, 0, s6);
    assert run[0..] == run;
  }

  lemma RunStep(s: State, run: seq<Action>, i: nat, end: State)
    requires i < |run| && CanAct(s, run[i])
    requires var t := Apply(s, run[i]); if i == |run| - 1 then t == end else Valid(t, run[i + 1..]) && Exec(t, run[i + 1..]) == end
    ensures Valid(s, run[i..]) && Exec(s, run[i..]) == end
  {
    assert run[i..][1..] == run[i + 1..];
  }

  // ----- the counters as an object -----

  class Loop {
    const loopBudget: Budget
    var active: map<Budget, int>
    var tasks: seq<Task>

    ghost function Abstract(): State
      reads this
    {
      State(loopBudget, active, tasks)
    }

    ghost predicate Good()
      reads this
    {
      Inv(Abstract())
    }

    constructor (loopBudget: Budget)
      ensures Good() && this.loopBudget == loopBudget && Abstract() == Initial(loopBudget)
    {
      this.loopBudget := loopBudget;
      active := map[];
      tasks := [Task(Context(None, None), Context(None, None), [])];
    }

    /** `with budget:` begins in task `t`. */
    method OpenWith(t: nat, budget: Budget)
      requires Good() && t < |tasks|
      modifies this
      ensures Good() && Abstract() == Apply(old(Abstract()), OpenBudget(t, budget))
    {
      hide Inv;
      ActKeepsInv(Abstract(), OpenBudget(t, budget));
      var task := tasks[t];
      tasks := tasks[t := Task(task.start, Context(Some(budget), task.context.registered),
                               task.frames + [With(budget, task.context)])];
    }

    /** `async with transfer_scope()` begins in task `t`. */
    method BeginScope(t: nat) returns (budget: Budget)
      requires Good() && t < |tasks|
      modifies this
      ensures Good() && Abstract() == Apply(old(Abstract()), EnterScope(t))
      ensures budget == InForce(loopBudget, old(tasks)[t].context)
    {
      hide Inv;
      ActKeepsInv(Abstract(), EnterScope(t));
      var task := tasks[t];
      budget := if task.context.budget.Some? then task.context.budget.value else loopBudget;
      if task.context.registered == Some(budget) {
        tasks := tasks[t := task.(frames := task.frames + [Scope(budget, false, task.context)])];
        return;
      }
      active := active[budget := Counter(active, budget) + 1];
      tasks := tasks[t := Task(task.start, Context(Some(budget), Some(budget)),
                               task.frames + [Scope(budget, true, task.context)])];
    }

    /** The innermost block of task `t` ends, normally or by an exception. */
    method EndBlock(t: nat)
      requires Good() && t < |tasks| && tasks[t].frames != []
      modifies this
      ensures Good() && Abstract() == Apply(old(Abstract()), Leave(t))
    {
      hide Inv;
      ActKeepsInv(Abstract(), Leave(t));
      var task := tasks[t];
      var last := task.frames[|task.frames| - 1];
      if last.Scope? && last.counted {
        active := active[last.budget := Counter(active, last.budget) - 1];
      }
      tasks := tasks[t := Task(task.start, last.saved, task.frames[..|task.frames| - 1])];
    }

    method StartTask(t: nat)
      requires Good() && t < |tasks|
      modifies this
      ensures Good() && Abstract() == Apply(old(Abstract()), Spawn(t))
    {
      hide Inv;
      ActKeepsInv(Abstract(), Spawn(t));
      tasks := tasks + [Task(tasks[t].context, tasks[t].context, [])];
    }
  }
}
