/**
 Removing a directory tree over SFTP, which has no recursive remove: a directory lists its children, removes
 them all concurrently, waits for every one of them, and only then removes itself. A semaphore bounds the
 removals in flight; it is held around one request, never across the recursion.
 */
module SftpRemove {
  import opened Basics

  const RMDIR_CONCURRENCY: nat := 16

  /** The entries of the tree, numbered so that a directory comes before what is in it. Entry 0 is the
      directory being removed. */
  datatype Tree = Tree(parent: seq<nat>, dir: seq<bool>)

  ghost predicate IsTree(t: Tree) {
    && |t.parent| == |t.dir| >= 1
    && t.dir[0]
    && forall i :: 0 < i < |t.parent| ==> t.parent[i] < i && t.dir[t.parent[i]]
  }

  predicate ChildOf(t: Tree, i: nat, d: nat) {
    0 < i < |t.parent| && t.parent[i] == d
  }

  /** Where the removal of one entry stands. */
  datatype Phase =
    | Waiting       // its directory has not been listed yet
    | Listing
    | Gathering     // its children are being removed
    | WantSlot
    | Removing      // holds a slot, and its request is out
    | Removed
    | Failed

  /** `gone` is what the server has really removed: a failed request may have had its effect. */
  datatype Run = Run(free: nat, phases: seq<Phase>, gone: set<nat>, cancelled: bool)

  datatype Action =
    | List(d: nat)
    | FailList(d: nat)
    | Join(d: nat)
    | TakeSlot(i: nat)
    | Finish(i: nat)
    | Fail(i: nat, landed: bool)
    | Cancel
    | Stop(i: nat, landed: bool)      // the cancellation reaches an entry, the innermost first

  predicate Over(p: Phase) {
    p.Removed? || p.Failed?
  }

  ghost predicate ChildrenOver(t: Tree, r: Run, d: nat) {
    forall i :: 0 <= i < |r.phases| && ChildOf(t, i, d) ==> Over(r.phases[i])
  }

  ghost predicate ChildrenRemoved(t: Tree, r: Run, d: nat) {
    forall i :: 0 <= i < |r.phases| && ChildOf(t, i, d) ==> r.phases[i].Removed?
  }

  ghost predicate CanAct(t: Tree, r: Run, a: Action) {
    match a
    case List(d) => d < |r.phases| && r.phases[d].Listing?
    case FailList(d) => d < |r.phases| && r.phases[d].Listing?
    case Join(d) => d < |r.phases| && r.phases[d].Gathering? && ChildrenOver(t, r, d)
    case TakeSlot(i) => i < |r.phases| && r.phases[i].WantSlot? && r.free > 0
    case Finish(i) => i < |r.phases| && r.phases[i].Removing?
    case Fail(i, _) => i < |r.phases| && r.phases[i].Removing?
    case Cancel => !r.cancelled
    case Stop(i, _) =>
      && r.cancelled && i < |r.phases| && !Over(r.phases[i]) && !r.phases[i].Waiting?
      && (r.phases[i].Gathering? ==> ChildrenOver(t, r, i))
  }

  /** A task starts on an entry: a directory is listed first. */
  function Begun(isDir: bool): Phase {
    if isDir then Listing else WantSlot
  }

  function Listed(t: Tree, phases: seq<Phase>, d: nat): seq<Phase>
    requires |t.parent| == |t.dir| == |phases|
  {
    seq(|phases|, i requires 0 <= i < |phases| =>
      if ChildOf(t, i, d) then Begun(t.dir[i]) else if i == d then Gathering else phases[i])
  }

  ghost function Apply(t: Tree, r: Run, a: Action): Run
    requires |t.parent| == |t.dir| == |r.phases| && CanAct(t, r, a)
  {
    match a
    case List(d) => r.(phases := Listed(t, r.phases, d))
    case FailList(d) => r.(phases := r.phases[d := Failed])
    case Join(d) => r.(phases := r.phases[d := if ChildrenRemoved(t, r, d) then WantSlot else Failed])
    case TakeSlot(i) => r.(phases := r.phases[i := Removing], free := r.free - 1)
    case Finish(i) => r.(phases := r.phases[i := Removed], free := r.free + 1, gone := r.gone + {i})
    case Fail(i, landed) => Dropped(r, i, landed)
    case Cancel => r.(cancelled := true)
    case Stop(i, landed) =>
      if r.phases[i].Removing? then Dropped(r, i, landed) else r.(phases := r.phases[i := Failed])
  }

  function Dropped(r: Run, i: nat, landed: bool): Run
    requires i < |r.phases|
  {
    r.(phases := r.phases[i := Failed], free := r.free + 1, gone := if landed then r.gone + {i} else r.gone)
  }

  // ----- what every step keeps -----

  function InFlight(p: Phase): nat {
    if p.Removing? then 1 else 0
  }

  ghost predicate SlotInv(r: Run) {
    r.free + Total(r.phases, InFlight) == RMDIR_CONCURRENCY
  }

  /** What the phase of a directory says about an entry in it. */
  predicate Fits(parent: Phase, child: Phase) {
    match parent
    case Waiting => child.Waiting?
    case Listing => child.Waiting?
    case Gathering => !child.Waiting?
    case Failed => child.Waiting? || Over(child)
    case _ => child.Removed?
  }

  ghost predicate PhaseInv(t: Tree, r: Run)
    requires IsTree(t)
  {
    && |r.phases| == |t.parent|
    && !r.phases[0].Waiting?
    && (forall i :: 0 <= i < |r.phases| && (r.phases[i].Listing? || r.phases[i].Gathering?) ==> t.dir[i])
    && (forall i :: 0 < i < |r.phases| ==> Fits(r.phases[t.parent[i]], r.phases[i]))
  }

  /** What is gone was asked for, and everything in it had gone before. */
  ghost predicate GoneInv(t: Tree, r: Run)
    requires IsTree(t)
  {
    && |r.phases| == |t.parent|
    && (forall i :: 0 <= i < |r.phases| && r.phases[i].Removed? ==> i in r.gone)
    && (forall i :: i in r.gone ==> i < |r.phases| && Over(r.phases[i]))
    && (forall i :: 0 < i < |r.phases| && t.parent[i] in r.gone ==> r.phases[i].Removed?)
  }

  ghost predicate Inv(t: Tree, r: Run) {
    && IsTree(t) && SlotInv(r) && PhaseInv(t, r) && GoneInv(t, r)
  }

  lemma {:induction false} NoHeavier(a: seq<Phase>, b: seq<Phase>, f: Phase -> nat)
    requires |a| == |b| && forall i :: 0 <= i < |a| ==> f(a[i]) <= f(b[i])
    ensures Total(a, f) <= Total(b, f)
  {
    if a != [] {
      NoHeavier(a[1..], b[1..], f);
    }
  }

  /** Listing a directory starts its children, all of which were waiting, and touches nothing else. */
  lemma ListStarts(t: Tree, r: Run, d: nat)
    requires Inv(t, r) && CanAct(t, r, List(d))
    ensures var s := Apply(t, r, List(d));
            && s.cancelled == r.cancelled && |s.phases| == |r.phases| && s.phases[d].Gathering? && r.phases[d].Listing? && t.dir[d]
            && forall i :: 0 <= i < |r.phases| && i != d ==>
                 s.phases[i] == if ChildOf(t, i, d) then Begun(t.dir[i]) else r.phases[i]
    ensures forall i :: 0 <= i < |r.phases| && ChildOf(t, i, d) ==> r.phases[i].Waiting? && i != d
  {
    forall i | 0 <= i < |r.phases| && ChildOf(t, i, d) ensures r.phases[i].Waiting? {
      assert Fits(r.phases[t.parent[i]], r.phases[i]);
    }
  }

  lemma ActKeepsSlots(t: Tree, r: Run, a: Action)
    requires Inv(t, r) && CanAct(t, r, a)
    ensures SlotInv(Apply(t, r, a))
  {
    var s := Apply(t, r, a);
    match a
    case List(d) =>
      ListStarts(t, r, d);
      NoHeavier(r.phases, s.phases, InFlight);
      NoHeavier(s.phases, r.phases, InFlight);
    case FailList(d) => TotalUpdate(r.phases, d, Failed, InFlight);
    case Join(d) => TotalUpdate(r.phases, d, s.phases[d], InFlight);
    case TakeSlot(i) => TotalUpdate(r.phases, i, Removing, InFlight);
    case Finish(i) => TotalUpdate(r.phases, i, Removed, InFlight);
    case Fail(i, _) => TotalUpdate(r.phases, i, Failed, InFlight);
    case Cancel =>
    case Stop(i, _) => TotalUpdate(r.phases, i, Failed, InFlight);
  }

  lemma ListKeepsPhases(t: Tree, r: Run, d: nat)
    requires Inv(t, r) && CanAct(t, r, List(d))
    ensures PhaseInv(t, Apply(t, r, List(d)))
  {
    var s := Apply(t, r, List(d));
    ListStarts(t, r, d);
    hide Apply, CanAct, SlotInv, GoneInv;
    forall i | 0 < i < |r.phases| ensures Fits(s.phases[t.parent[i]], s.phases[i]) {
      assert Fits(r.phases[t.parent[i]], r.phases[i]);
      var p := t.parent[i];
      if ChildOf(t, p, d) {
        assert r.phases[p].Waiting?;
      }
    }
  }

  lemma ListKeepsGone(t: Tree, r: Run, d: nat)
    requires Inv(t, r) && CanAct(t, r, List(d))
    ensures GoneInv(t, Apply(t, r, List(d)))
  {
    var s := Apply(t, r, List(d));
    ListStarts(t, r, d);
    assert s.gone == r.gone;
    hide Apply, CanAct, SlotInv, PhaseInv;
    forall i | 0 <= i < |r.phases| && r.phases[i] != s.phases[i]
      ensures !Over(r.phases[i]) && !Over(s.phases[i])
    {
      if i != d {
        assert ChildOf(t, i, d);
      }
    }
  }

  /** The ways one entry moves on, other than being listed. */
  predicate Moves(from: Phase, to: Phase) {
    match from
    case Listing => to.Failed?
    case Gathering => to.WantSlot? || to.Failed?
    case WantSlot => to.Removing? || to.Failed?
    case Removing => Over(to)
    case _ => false
  }

  /** From `r` to `s` only entry `k` moves, and its children allow it. */
  ghost predicate OneMoves(t: Tree, r: Run, s: Run, k: nat) {
    && s.cancelled == r.cancelled && k < |r.phases| == |s.phases| && s.phases == r.phases[k := s.phases[k]]
    && Moves(r.phases[k], s.phases[k])
    && (r.phases[k].Gathering? ==> ChildrenOver(t, r, k) && (s.phases[k].WantSlot? ==> ChildrenRemoved(t, r, k)))
    && r.gone <= s.gone && s.gone - r.gone <= (if r.phases[k].Removing? then {k} else {})
    && (s.phases[k].Removed? ==> k in s.gone)
  }

  lemma StepMovesOne(t: Tree, r: Run, a: Action) returns (k: nat)
    requires Inv(t, r) && CanAct(t, r, a) && !a.List? && !a.Cancel?
    ensures OneMoves(t, r, Apply(t, r, a), k)
  {
    hide SlotInv, PhaseInv, GoneInv, ChildrenOver, ChildrenRemoved, Listed;
    k := match a
      case FailList(d) => d
      case Join(d) => d
      case TakeSlot(i) => i
      case Finish(i) => i
      case Fail(i, _) => i
      case Stop(i, _) => i;
  }

  lemma MoveKeepsPhases(t: Tree, r: Run, s: Run, k: nat)
    requires Inv(t, r) && OneMoves(t, r, s, k)
    ensures PhaseInv(t, s)
  {
    hide SlotInv, GoneInv;
    forall i | 0 < i < |r.phases| ensures Fits(s.phases[t.parent[i]], s.phases[i]) {
      assert Fits(r.phases[t.parent[i]], r.phases[i]);
      assert ChildOf(t, i, t.parent[i]);
    }
  }

  /** What moved had not gone before. */
  lemma MoverWasThere(t: Tree, r: Run, s: Run, k: nat)
    requires Inv(t, r) && OneMoves(t, r, s, k)
    ensures k !in r.gone && !Over(r.phases[k])
    ensures forall i :: i in s.gone && i !in r.gone ==> i == k && r.phases[k].Removing? && Over(s.phases[k])
    ensures forall i :: 0 <= i < |r.phases| && i != k ==> s.phases[i] == r.phases[i]
  {
    hide SlotInv, PhaseInv, ChildrenOver, ChildrenRemoved;
    forall i | i in s.gone && i !in r.gone ensures i == k && r.phases[k].Removing? {
      assert i in s.gone - r.gone;
    }
  }

  lemma MoveKeepsRemoved(t: Tree, r: Run, s: Run, k: nat)
    requires Inv(t, r) && OneMoves(t, r, s, k)
    ensures forall i :: 0 <= i < |s.phases| && s.phases[i].Removed? ==> i in s.gone
    ensures forall i :: i in s.gone ==> i < |s.phases| && Over(s.phases[i])
  {
    MoverWasThere(t, r, s, k);
    hide SlotInv, PhaseInv, ChildrenOver, ChildrenRemoved, Moves;
  }

  lemma MoveKeepsGone(t: Tree, r: Run, s: Run, k: nat)
    requires Inv(t, r) && OneMoves(t, r, s, k)
    ensures GoneInv(t, s)
  {
    assert |r.phases| == |t.parent|;
    MoverWasThere(t, r, s, k);
    MoveKeepsRemoved(t, r, s, k);
    hide SlotInv, ChildrenOver, ChildrenRemoved, Moves;
    forall i | 0 < i < |r.phases| && t.parent[i] in s.gone ensures s.phases[i].Removed? {
      var p := t.parent[i];
      assert Fits(r.phases[p], r.phases[i]);
      assert r.phases[i].Removed? && i != k;
    }
  }

  /** What listing comes to, entry by entry. */
  lemma StepsToListed(t: Tree, r: Run, d: nat)
    requires Inv(t, r) && CanAct(t, r, List(d))
    ensures |t.parent| == |t.dir| == |r.phases| && d < |r.phases|
    ensures var goal := Listed(t, r.phases, d);
            && Apply(t, r, List(d)) == r.(phases := goal) && Inv(t, r.(phases := goal))
            && |goal| == |r.phases| && goal[d] == Gathering
            && forall i :: 0 <= i < |goal| && i != d ==>
                 goal[i] == if ChildOf(t, i, d) then (if t.dir[i] then Listing else WantSlot) else r.phases[i]
    ensures !ChildOf(t, d, d)
  {
    ActKeepsInv(t, r, List(d));
    ListStarts(t, r, d);
  }

  lemma ActKeepsInv(t: Tree, r: Run, a: Action)
    requires Inv(t, r) && CanAct(t, r, a)
    ensures Inv(t, Apply(t, r, a))
  {
    ActKeepsSlots(t, r, a);
    if a.List? {
      ListKeepsPhases(t, r, a.d);
      ListKeepsGone(t, r, a.d);
    } else if !a.Cancel? {
      var k := StepMovesOne(t, r, a);
      MoveKeepsPhases(t, r, Apply(t, r, a), k);
      MoveKeepsGone(t, r, Apply(t, r, a), k);
    }
    hide SlotInv, PhaseInv, GoneInv;
  }

  /** No more than sixteen requests are out, and one for a directory only when all in it has been removed. */
  lemma RemovalsAreSafe(t: Tree, r: Run)
    requires Inv(t, r)
    ensures Total(r.phases, InFlight) <= 16
    ensures forall d, i :: 0 <= d < |r.phases| && 0 <= i < |r.phases| && r.phases[d].Removing? && ChildOf(t, i, d)
              ==> r.phases[i].Removed? && i in r.gone
  {
    forall d, i | 0 <= d < |r.phases| && 0 <= i < |r.phases| && r.phases[d].Removing? && ChildOf(t, i, d)
      ensures r.phases[i].Removed?
    {
      assert Fits(r.phases[t.parent[i]], r.phases[i]);
    }
  }

  // ----- no state is a deadlock, and every run ends -----

  predicate Progress(a: Action) {
    a.List? || a.Join? || a.TakeSlot? || a.Finish?
  }

  /** The innermost directory that waits for its children has none left to wait for. */
  lemma {:induction false} InnermostJoins(t: Tree, r: Run, d: nat) returns (e: nat)
    requires Inv(t, r) && d < |r.phases| && r.phases[d].Gathering?
    requires forall i :: 0 <= i < |r.phases| ==>
               !r.phases[i].Removing? && !r.phases[i].WantSlot? && !r.phases[i].Listing?
    ensures e < |r.phases| && CanAct(t, r, Join(e))
    decreases |r.phases| - d
  {
    if ChildrenOver(t, r, d) {
      e := d;
    } else {
      var i: nat :| i < |r.phases| && ChildOf(t, i, d) && !Over(r.phases[i]);
      assert Fits(r.phases[t.parent[i]], r.phases[i]);
      e := InnermostJoins(t, r, i);
    }
  }

  /** Until the whole removal is over, some step is possible that neither fails nor cancels anything. */
  lemma NoDeadlock(t: Tree, r: Run) returns (a: Action)
    requires Inv(t, r) && !Over(r.phases[0])
    ensures CanAct(t, r, a) && Progress(a)
  {
    if i: nat :| i < |r.phases| && r.phases[i].Removing? {
      a := Finish(i);
    } else if i: nat :| i < |r.phases| && r.phases[i].WantSlot? {
      if Total(r.phases, InFlight) > 0 {
        var j := TotalWitness(r.phases, InFlight);
        assert false;
      }
      a := TakeSlot(i);
    } else if i: nat :| i < |r.phases| && r.phases[i].Listing? {
      a := List(i);
    } else {
      var e := InnermostJoins(t, r, 0);
      a := Join(e);
    }
  }

  function Weight(p: Phase): nat {
    match p
    case Waiting => 5
    case Listing => 4
    case Gathering => 3
    case WantSlot => 2
    case Removing => 1
    case _ => 0
  }

  function Measure(r: Run): nat {
    Total(r.phases, Weight) + if r.cancelled then 0 else 1
  }

  lemma {:induction false} LighterTotal(a: seq<Phase>, b: seq<Phase>, f: Phase -> nat, k: nat)
    requires |a| == |b| && k < |a| && f(a[k]) < f(b[k])
    requires forall i :: 0 <= i < |a| ==> f(a[i]) <= f(b[i])
    ensures Total(a, f) < Total(b, f)
  {
    if k > 0 {
      LighterTotal(a[1..], b[1..], f, k - 1);
    } else {
      NoHeavier(a[1..], b[1..], f);
    }
  }

  lemma MoveDecreases(t: Tree, r: Run, s: Run, k: nat)
    requires |t.parent| == |r.phases| && OneMoves(t, r, s, k)
    ensures Total(s.phases, Weight) < Total(r.phases, Weight)
  {
    assert Weight(s.phases[k]) < Weight(r.phases[k]);
    TotalUpdate(r.phases, k, s.phases[k], Weight);
    hide Weight, ChildrenOver, ChildrenRemoved;
  }

  lemma ListDecreases(t: Tree, r: Run, d: nat)
    requires Inv(t, r) && CanAct(t, r, List(d))
    ensures Total(Apply(t, r, List(d)).phases, Weight) < Total(r.phases, Weight)
  {
    var s := Apply(t, r, List(d));
    ListStarts(t, r, d);
    assert |t.parent| == |t.dir| == |r.phases|;
    hide Inv, Apply, CanAct, Total;
    forall i | 0 <= i < |r.phases| ensures Weight(s.phases[i]) <= Weight(r.phases[i]) {
    }
    LighterTotal(s.phases, r.phases, Weight, d);
  }

  lemma ActDecreases(t: Tree, r: Run, a: Action)
    requires Inv(t, r) && CanAct(t, r, a)
    ensures Measure(Apply(t, r, a)) < Measure(r)
  {
    assert |t.parent| == |t.dir| == |r.phases|;
    hide Inv, Weight, ChildrenOver, ChildrenRemoved, Listed, Total, Moves, Over;
    if a.List? {
      ListDecreases(t, r, a.d);
    } else if !a.Cancel? {
      var k := StepMovesOne(t, r, a);
      MoveDecreases(t, r, Apply(t, r, a), k);
    }
  }

  // ----- whole runs -----

  ghost function Initial(t: Tree): Run
    requires IsTree(t)
  {
    Run(RMDIR_CONCURRENCY, seq(|t.parent|, i => if i == 0 then Listing else Waiting), {}, false)
  }

  lemma {:induction false} NothingInFlight(phases: seq<Phase>)
    requires forall i :: 0 <= i < |phases| ==> !phases[i].Removing?
    ensures Total(phases, InFlight) == 0
  {
    if phases != [] {
      NothingInFlight(phases[1..]);
    }
  }

  lemma InitialInv(t: Tree)
    requires IsTree(t)
    ensures Inv(t, Initial(t))
  {
    NothingInFlight(Initial(t).phases);
  }

  ghost predicate Valid(t: Tree, r: Run, run: seq<Action>)
    requires |t.parent| == |t.dir| == |r.phases|
    decreases |run|
  {
    run == [] || (CanAct(t, r, run[0]) && Valid(t, Apply(t, r, run[0]), run[1..]))
  }

  ghost function Exec(t: Tree, r: Run, run: seq<Action>): (s: Run)
    requires |t.parent| == |t.dir| == |r.phases| && Valid(t, r, run)
    ensures |s.phases| == |r.phases|
    decreases |run|
  {
    if run == [] then r else Exec(t, Apply(t, r, run[0]), run[1..])
  }

  lemma {:induction false} RunKeepsInv(t: Tree, r: Run, run: seq<Action>)
    requires Inv(t, r) && Valid(t, r, run)
    ensures Inv(t, Exec(t, r, run)) && |run| + Measure(Exec(t, r, run)) <= Measure(r)
    decreases |run|
  {
    if run != [] {
      ActKeepsInv(t, r, run[0]);
      ActDecreases(t, r, run[0]);
      hide Inv, CanAct, Apply, Measure;
      RunKeepsInv(t, Apply(t, r, run[0]), run[1..]);
    }
  }

  /** When the root was removed, so was everything. */
  lemma {:induction false} RemovedBelow(t: Tree, r: Run, i: nat)
    requires Inv(t, r) && r.phases[0].Removed? && i < |r.phases|
    ensures r.phases[i].Removed? && i in r.gone
  {
    if i > 0 {
      RemovedBelow(t, r, t.parent[i]);
      assert Fits(r.phases[t.parent[i]], r.phases[i]);
    }
  }

  /** `a` is a proper ancestor of `i`. */
  ghost predicate Above(t: Tree, a: nat, i: nat)
    requires IsTree(t) && i < |t.parent|
  {
    i > 0 && (t.parent[i] == a || Above(t, a, t.parent[i]))
  }

  /** An entry that was not removed keeps all its ancestors. */
  lemma {:induction false} AncestorsKept(t: Tree, r: Run, a: nat, i: nat)
    requires Inv(t, r) && i < |r.phases| && !r.phases[i].Removed? && Above(t, a, i)
    ensures a < |r.phases| && a !in r.gone && !r.phases[a].Removed?
  {
    assert Fits(r.phases[t.parent[i]], r.phases[i]);
    if t.parent[i] != a {
      AncestorsKept(t, r, a, t.parent[i]);
    }
  }

  /** Once the root is over nothing is under way any more. */
  lemma {:induction false} AllOver(t: Tree, r: Run, i: nat)
    requires Inv(t, r) && Over(r.phases[0]) && i < |r.phases|
    ensures Over(r.phases[i]) || (r.phases[i].Waiting? && i > 0 && !r.phases[t.parent[i]].Removed?)
  {
    if i > 0 {
      AllOver(t, r, t.parent[i]);
      assert Fits(r.phases[t.parent[i]], r.phases[i]);
    }
  }

  /** Every run of every tree, whatever fails and whenever it is cancelled: at most sixteen requests are
      out; it ends within a number of steps fixed by the tree; when it ends nothing is under way; if it
      succeeds nothing of the tree is left; and whatever was not removed keeps every directory above it. */
  lemma EveryRun(t: Tree, run: seq<Action>, i: nat, a: nat)
    requires IsTree(t) && Valid(t, Initial(t), run) && i < |t.parent|
    ensures var r := Exec(t, Initial(t), run);
            && Total(r.phases, InFlight) <= 16
            && |run| <= Measure(Initial(t))
            && (Over(r.phases[0]) ==> Over(r.phases[i]) || r.phases[i].Waiting?)
            && (r.phases[0].Removed? ==> i in r.gone)
            && (!r.phases[i].Removed? && Above(t, a, i) ==> a !in r.gone)
  {
    InitialInv(t);
    RunKeepsInv(t, Initial(t), run);
    var r := Exec(t, Initial(t), run);
    hide Exec, Valid, Measure;
    if Over(r.phases[0]) {
      AllOver(t, r, i);
    }
    if r.phases[0].Removed? {
      RemovedBelow(t, r, i);
    }
    if !r.phases[i].Removed? && Above(t, a, i) {
      AncestorsKept(t, r, a, i);
    }
  }

  /** A run that cannot be continued is over; without failures and cancellation everything is gone. */
  lemma MaximalRunsFinish(t: Tree, run: seq<Action>)
    requires IsTree(t) && Valid(t, Initial(t), run)
    requires forall a :: Progress(a) ==> !CanAct(t, Exec(t, Initial(t), run), a)
    ensures Over(Exec(t, Initial(t), run).phases[0])
    ensures (forall a :: a in run ==> Progress(a)) ==>
              forall i :: 0 <= i < |t.parent| ==> i in Exec(t, Initial(t), run).gone
  {
    InitialInv(t);
    RunKeepsInv(t, Initial(t), run);
    var r := Exec(t, Initial(t), run);
    if !Over(r.phases[0]) {
      var a := NoDeadlock(t, r);
      assert false;
    }
    if forall a :: a in run ==> Progress(a) {
      NothingFails(t, Initial(t), run);
      forall i | 0 <= i < |t.parent| ensures i in r.gone {
        RemovedBelow(t, r, i);
      }
    }
  }

  lemma {:induction false} NothingFails(t: Tree, r: Run, run: seq<Action>)
    requires Inv(t, r) && Valid(t, r, run) && forall a :: a in run ==> Progress(a)
    requires forall i :: 0 <= i < |r.phases| ==> !r.phases[i].Failed?
    ensures forall i :: 0 <= i < |r.phases| ==> !Exec(t, r, run).phases[i].Failed?
    decreases |run|
  {
    if run != [] {
      var s := Apply(t, r, run[0]);
      assert Progress(run[0]);
      ActKeepsInv(t, r, run[0]);
      forall i | 0 <= i < |r.phases| ensures !s.phases[i].Failed? {
        if run[0].List? {
          ListStarts(t, r, run[0].d);
        }
      }
      hide Inv, CanAct, Apply;
      NothingFails(t, s, run[1..]);
    }
  }

  // ----- the removal as an object -----

  /** The shared semaphore, and the tasks of one removal with what they have done so far. A method is what
      one task does between two waits; any order that the preconditions allow can happen. */
  class Removal {
    const tree: Tree
    var free: nat
    var phases: seq<Phase>
    var cancelled: bool
    ghost var gone: set<nat>

    ghost function State(): Run
      reads this
    {
      Run(free, phases, gone, cancelled)
    }

    ghost predicate Good()
      reads this
    {
      Inv(tree, State())
    }

    constructor (tree: Tree)
      requires IsTree(tree)
      ensures Good() && this.tree == tree && State() == Initial(tree)
    {
      this.tree := tree;
      free, cancelled, gone := RMDIR_CONCURRENCY, false, {};
      phases := seq(|tree.parent|, i => if i == 0 then Listing else Waiting);
      new;
      InitialInv(tree);
    }

    /** The listing of `d` arrives; a task starts on each child. */
    method ListDirectory(d: nat)
      requires Good() && CanAct(tree, State(), List(d))
      modifies this
      ensures Good() && State() == Apply(tree, old(State()), List(d))
    {
      hide Inv, Apply, CanAct, Listed, Begun, ChildOf;
      StepsToListed(tree, State(), d);
      ghost var goal := Listed(tree, phases, d);
      var was := phases;
      phases := phases[d := Gathering];
      for i := 0 to |was|
        invariant |phases| == |was| && free == old(free) && gone == old(gone) && cancelled == old(cancelled)
        invariant forall k :: 0 <= k < |was| ==> phases[k] == if k < i || k == d then goal[k] else was[k]
      {
        if ChildOf(tree, i, d) {
          phases := phases[i := if tree.dir[i] then Listing else WantSlot];
        }
      }
      assert phases == goal;
    }

    method ListingFails(d: nat)
      requires Good() && CanAct(tree, State(), FailList(d))
      modifies this
      ensures Good() && State() == Apply(tree, old(State()), FailList(d))
    {
      ActKeepsInv(tree, State(), FailList(d));
      phases := phases[d := Failed];
    }

    /** All children have ended; the first exception among their results is raised. */
    method JoinChildren(d: nat) returns (raised: bool)
      requires Good() && CanAct(tree, State(), Join(d))
      modifies this
      ensures Good() && State() == Apply(tree, old(State()), Join(d))
      ensures raised <==> !ChildrenRemoved(tree, old(State()), d)
    {
      ActKeepsInv(tree, State(), Join(d));
      raised := false;
      for i := 0 to |phases|
        invariant raised <==> exists k :: 0 <= k < i && ChildOf(tree, k, d) && !phases[k].Removed?
      {
        if ChildOf(tree, i, d) && phases[i].Failed? {
          raised := true;
        }
      }
      phases := phases[d := if raised then Failed else WantSlot];
    }

    method TakeRemovalSlot(i: nat)
      requires Good() && CanAct(tree, State(), TakeSlot(i))
      modifies this
      ensures Good() && State() == Apply(tree, old(State()), TakeSlot(i))
    {
      ActKeepsInv(tree, State(), TakeSlot(i));
      free := free - 1;
      phases := phases[i := Removing];
    }

    method RemovalDone(i: nat)
      requires Good() && CanAct(tree, State(), Finish(i))
      modifies this
      ensures Good() && State() == Apply(tree, old(State()), Finish(i))
    {
      ActKeepsInv(tree, State(), Finish(i));
      free := free + 1;
      phases := phases[i := Removed];
      gone := gone + {i};
    }

    method RemovalFails(i: nat, ghost landed: bool)
      requires Good() && CanAct(tree, State(), Fail(i, landed))
      modifies this
      ensures Good() && State() == Apply(tree, old(State()), Fail(i, landed))
    {
      ActKeepsInv(tree, State(), Fail(i, landed));
      free := free + 1;
      phases := phases[i := Failed];
      gone := if landed then gone + {i} else gone;
    }

    method CancelAll()
      requires Good() && !cancelled
      modifies this
      ensures Good() && State() == Apply(tree, old(State()), Cancel)
    {
      ActKeepsInv(tree, State(), Cancel);
      cancelled := true;
    }

    /** A cancellation is delivered to the task of one entry; a slot it holds is given back. */
    method StopEntry(i: nat, ghost landed: bool)
      requires Good() && CanAct(tree, State(), Stop(i, landed))
      modifies this
      ensures Good() && State() == Apply(tree, old(State()), Stop(i, landed))
    {
      ActKeepsInv(tree, State(), Stop(i, landed));
      if phases[i].Removing? {
        free := free + 1;
        gone := if landed then gone + {i} else gone;
      }
      phases := phases[i := Failed];
    }
  }
}
