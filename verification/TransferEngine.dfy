/**
 The shared budget as an object: its fields are the state that every coroutine updates in place, and each
 method is what one coroutine does between two waits. The methods may be called in any order that their
 preconditions allow, which is every order the event loop can produce; `RunAll` is the event loop.
 */
module TransferEngine {
  import opened Basics
  import opened UploadPool
  import opened TransferBudget

  class Engine {
    const limits: Limits
    var free: int
    var busy: nat
    var ranges: nat
    var backlog: seq<Job>
    var uploads: seq<Upload>

    function State(): Pool
      reads this
    {
      Pool(free, busy, ranges, backlog, uploads)
    }

    ghost predicate Valid()
      reads this
    {
      Inv(limits, State())
    }

    constructor (limits: Limits, ranges: nat, backlog: seq<Job>)
      requires ValidLimits(limits) && ValidJobs(backlog)
      ensures Valid() && this.limits == limits && State() == Initial(limits, ranges, backlog)
    {
      this.limits := limits;
      this.free, this.busy, this.ranges := limits.ceiling, 0, ranges;
      this.backlog, this.uploads := backlog, [];
      new;
      InitialInv(limits, ranges, backlog);
    }

    method BeginUpload(active: nat)
      requires Valid() && backlog != []
      modifies this
      ensures Valid() && State() == Apply(limits, old(State()), Begin(active))
    {
      hide UploadInv;
      ActKeepsInv(limits, State(), Begin(active));
      var j := backlog[0];
      var n := WorkerCount(limits, active, j);
      assert n.None? ==> Fresh(j, 0).workers == [];
      var u := Upload(j.source, j.part, 0, None, [], 0, [], map[], map[], true);
      if n.Some? {
        u := u.(workers := seq(n.value, _ => WantSlot), failing := false);
      }
      backlog := backlog[1..];
      uploads := uploads + [u];
    }

    method StartRangeRead()
      requires Valid() && ranges > 0 && free > 0
      modifies this
      ensures Valid() && State() == Apply(limits, old(State()), StartRead)
    {
      hide Inv;
      ActKeepsInv(limits, State(), StartRead);
      ranges, busy, free := ranges - 1, busy + 1, free - 1;
    }

    method FinishRangeRead()
      requires Valid() && busy > 0
      modifies this
      ensures Valid() && State() == Apply(limits, old(State()), EndRead)
    {
      hide Inv;
      ActKeepsInv(limits, State(), EndRead);
      busy, free := busy - 1, free + 1;
    }

    /** `async with budget._slots` succeeds. */
    method TakeBudgetSlot(i: nat, w: nat)
      requires Valid() && CanAct(limits, State(), Step(i, w, TakeSlot))
      modifies this
      ensures Valid() && State() == Apply(limits, old(State()), Step(i, w, TakeSlot))
    {
      hide Inv;
      ActKeepsInv(limits, State(), Step(i, w, TakeSlot));
      var u := uploads[i];
      uploads := uploads[i := u.(workers := u.workers[w := WantLock])];
      free := free - 1;
    }

    /** `async with read_lock` succeeds. */
    method TakeReadLock(i: nat, w: nat)
      requires Valid() && CanAct(limits, State(), Step(i, w, TakeLock))
      modifies this
      ensures Valid() && State() == Apply(limits, old(State()), Step(i, w, TakeLock))
    {
      hide Inv;
      ActKeepsInv(limits, State(), Step(i, w, TakeLock));
      var u := uploads[i];
      uploads := uploads[i := u.(workers := u.workers[w := Reading], lock := Some(w))];
    }

    /** The read under the lock returns a chunk, which is numbered before the lock is released. */
    method ReadChunk(i: nat, w: nat, count: nat)
      requires Valid() && CanAct(limits, State(), Step(i, w, Read(count)))
      modifies this
      ensures Valid() && State() == Apply(limits, old(State()), Step(i, w, Read(count)))
    {
      hide Inv;
      ActKeepsInv(limits, State(), Step(i, w, Read(count)));
      var u := uploads[i];
      var chunk := u.source[u.cursor..u.cursor + count];
      var number := u.partNumber + 1;
      uploads := uploads[i := u.(cursor := u.cursor + count, partNumber := number, sent := u.sent + [chunk],
                                 lock := None, workers := u.workers[w := Sending(number, chunk)])];
    }

    /** The read under the lock returns nothing: the worker leaves, giving back lock and slot. */
    method SeeEndOfSource(i: nat, w: nat)
      requires Valid() && CanAct(limits, State(), Step(i, w, SeeEnd))
      modifies this
      ensures Valid() && State() == Apply(limits, old(State()), Step(i, w, SeeEnd))
    {
      hide Inv;
      ActKeepsInv(limits, State(), Step(i, w, SeeEnd));
      var u := uploads[i];
      uploads := uploads[i := u.(lock := None, workers := u.workers[w := Returned])];
      free := free + 1;
    }

    /** The upload of a part is acknowledged: its result is recorded and its slot given back. */
    method PartStored(i: nat, w: nat, reply: Reply)
      requires Valid() && CanAct(limits, State(), Step(i, w, Send(reply)))
      modifies this
      ensures Valid() && State() == Apply(limits, old(State()), Step(i, w, Send(reply)))
    {
      hide Inv;
      ActKeepsInv(limits, State(), Step(i, w, Send(reply)));
      var u := uploads[i];
      var p := u.workers[w];
      uploads := uploads[i := u.(results := u.results[p.number := reply],
                                 stored := u.stored[p.number := Part(p.chunk, reply)],
                                 workers := u.workers[w := WantSlot])];
      free := free + 1;
    }

    /** The upload of a part raises: the worker leaves and the whole call will raise. */
    method PartFailed(i: nat, w: nat, landed: Option<Reply>)
      requires Valid() && CanAct(limits, State(), Step(i, w, FailSend(landed)))
      modifies this
      ensures Valid() && State() == Apply(limits, old(State()), Step(i, w, FailSend(landed)))
    {
      hide Inv;
      ActKeepsInv(limits, State(), Step(i, w, FailSend(landed)));
      var u := uploads[i];
      uploads := uploads[i := u.(stored := Land(u.stored, u.workers[w], landed), failing := true,
                                 workers := u.workers[w := Raised])];
      free := free + 1;
    }

    method ReadFailed(i: nat, w: nat)
      requires Valid() && CanAct(limits, State(), Step(i, w, FailRead))
      modifies this
      ensures Valid() && State() == Apply(limits, old(State()), Step(i, w, FailRead))
    {
      hide Inv;
      ActKeepsInv(limits, State(), Step(i, w, FailRead));
      var u := uploads[i];
      uploads := uploads[i := u.(lock := None, failing := true, workers := u.workers[w := Raised])];
      free := free + 1;
    }

    /** A cancellation is delivered; whatever the worker holds is given back on the way out. */
    method StopWorker(i: nat, w: nat, drained: nat, landed: Option<Reply>)
      requires Valid() && CanAct(limits, State(), Step(i, w, Stop(drained, landed)))
      modifies this
      ensures Valid() && State() == Apply(limits, old(State()), Step(i, w, Stop(drained, landed)))
    {
      hide Inv;
      ActKeepsInv(limits, State(), Step(i, w, Stop(drained, landed)));
      var u := uploads[i];
      var p := u.workers[w];
      if p.Reading? {
        u := u.(cursor := u.cursor + drained, lock := None);
      } else if p.Sending? {
        u := u.(stored := Land(u.stored, p, landed));
      }
      if !p.WantSlot? {
        free := free + 1;
      }
      uploads := uploads[i := u.(workers := u.workers[w := Raised])];
    }

    method CancelUpload(i: nat)
      requires Valid() && CanAct(limits, State(), Cancel(i))
      modifies this
      ensures Valid() && State() == Apply(limits, old(State()), Cancel(i))
    {
      hide Inv;
      ActKeepsInv(limits, State(), Cancel(i));
      uploads := uploads[i := uploads[i].(failing := true)];
    }

    /** The event loop resumes one coroutine, whichever it is. */
    method Resume(a: Action)
      requires Valid() && CanAct(limits, State(), a)
      modifies this
      ensures Valid() && State() == Apply(limits, old(State()), a)
    {
      hide Inv, Apply;
      match a
      case Begin(active) => BeginUpload(active);
      case StartRead => StartRangeRead();
      case EndRead => FinishRangeRead();
      case Cancel(i) => CancelUpload(i);
      case Step(i, w, act) =>
        match act {
          case TakeSlot => TakeBudgetSlot(i, w);
          case TakeLock => TakeReadLock(i, w);
          case Read(count) => ReadChunk(i, w, count);
          case SeeEnd => SeeEndOfSource(i, w);
          case FailRead => ReadFailed(i, w);
          case Send(reply) => PartStored(i, w, reply);
          case FailSend(landed) => PartFailed(i, w, landed);
          case Stop(drained, landed) => StopWorker(i, w, drained, landed);
        }
    }

    /** Whatever the event loop chooses to resume, as long as it is something that can go on: after finitely
        many steps every upload and range read has ended and every slot is back. */
    method RunAll(choose: Pool -> Action) returns (ghost run: seq<Action>)
      requires Valid() && forall s :: Inv(limits, s) && !AllDone(s) ==> CanAct(limits, s, choose(s))
      modifies this
      ensures Valid() && AllDone(State()) && free == limits.ceiling
      ensures TransferBudget.Valid(limits, old(State()), run) && State() == Exec(limits, old(State()), run)
      ensures |run| <= Measure(old(State()))
    {
      hide Inv, Apply, CanAct, Measure, AllDone;
      run := [];
      while !AllDone(State())
        invariant Inv(limits, State()) && TransferBudget.Valid(limits, old(State()), run)
        invariant State() == Exec(limits, old(State()), run)
        decreases Measure(State())
      {
        ghost var before := State();
        var a := choose(State());
        Resume(a);
        ActDecreases(limits, before, a);
        RunOneMore(limits, old(State()), run, a);
        run := run + [a];
      }
      RunsEnd(limits, old(State()), run);
      DoneGivesBack(limits, State());
    }
  }

  lemma {:induction false} RunOneMore(l: Limits, s: Pool, run: seq<Action>, a: Action)
    requires TransferBudget.Valid(l, s, run) && CanAct(l, Exec(l, s, run), a)
    ensures TransferBudget.Valid(l, s, run + [a]) && Exec(l, s, run + [a]) == Apply(l, Exec(l, s, run), a)
    decreases |run|
  {
    hide Apply, CanAct;
    if run != [] {
      assert (run + [a])[1..] == run[1..] + [a];
      RunOneMore(l, Apply(l, s, run[0]), run[1..], a);
    } else {
      assert run + [a] == [a] && [a][1..] == [];
    }
  }
}
