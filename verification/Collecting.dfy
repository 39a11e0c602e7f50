/** What DeleteObsoleteFiles keeps beyond the tables of versions: exactly the tables that the
    active call is writing, so that everything else can go. */
module Collecting {
  import opened Options
  import opened Version
  import opened Inputs
  import opened Selection
  import opened Compaction
  import opened Disks
  import opened Durability
  import L = Lsm

  /** The numbers of the tables that a call has written or is writing and nobody else refers to. */
  function Owned(call: Call): set<nat> {
    Numbers(OutsOf(call)) + if call.Building? then {call.number} else {}
  }

  /** pending_outputs_ */
  ghost predicate PendingExact(s: State) {
    s.up.Some? ==> s.up.value.pending == Owned(Only(s.up.value))
  }

  /** A table that is being built has a number of its own. */
  lemma NumberApart(s: State)
    requires FileInv(s) && s.up.Some? && Only(s.up.value).Building?
    ensures Only(s.up.value).number !in Numbers(OutsOf(Only(s.up.value)))
  {
    var m := s.up.value;
    forall f | f in OutsOf(Only(m)) ensures f.number < Only(m).number {
      assert f in Held(m);
    }
  }

  lemma OneMoreNumber(outs: seq<FileMeta>, f: FileMeta)
    ensures Numbers(outs + [f]) == Numbers(outs) + {f.number}
  {
    assert forall g :: g in outs + [f] <==> g in outs || g == f;
    assert f in outs + [f];
  }

  lemma FlushPending(s: State, i: nat, step: CallStep, s': State)
    requires FileInv(s) && CallNext(s, i, step, s') && PendingExact(s)
    requires step.FlushBeginStep? || step.FlushBuiltStep?
    ensures PendingExact(s')
  {
    assert Running(s, i);
    TheCall(s, i);
    if step.FlushBuiltStep? {
      NumberApart(s);
    }
  }

  lemma BeginPending(s: State, i: nat, seed: FileMeta, j: L.Job, s': State)
    requires FileInv(s) && CompactBegin(s, i, seed, j, s') && PendingExact(s)
    ensures PendingExact(s')
  {
    TheCall(s, i);
    assert Only(s'.up.value) == Merging([]);
  }

  lemma LogPending(s: State, i: nat, outputs: seq<Output>, version: Levels, s': State)
    requires FileInv(s) && CompactLog(s, i, outputs, version, s') && PendingExact(s)
    ensures PendingExact(s')
  {
    TheCall(s, i);
    assert OutsOf(Only(s'.up.value)) == OutsOf(Only(s.up.value));
  }

  /** Calls without outputs and without a table in the making own nothing. */
  lemma NothingOwned(m: Memory, m': Memory)
    requires m.pending == Owned(Only(m)) && m'.pending == m.pending
    requires Only(m).Scheduled? && Only(m').Logging? && Only(m').work.Moving?
    ensures m'.pending == Owned(Only(m'))
  {
  }

  lemma MovePending(s: State, i: nat, c: Inputs2, f: FileMeta, version: Levels, s': State)
    requires FileInv(s) && MoveLog(s, i, c, f, version, s') && PendingExact(s)
    ensures PendingExact(s')
  {
    TheCall(s, i);
    NothingOwned(s.up.value, s'.up.value);
  }

  lemma OutputPending(s: State, i: nat, f: FileMeta, s': State)
    requires FileInv(s) && CompactOutput(s, i, f, s') && PendingExact(s)
    ensures PendingExact(s')
  {
    TheCall(s, i);
    OneMoreNumber(s.up.value.calls[i].outs, f);
  }

  lemma EndPending(s: State, i: nat, step: CallStep, s': State)
    requires FileInv(s) && CallNext(s, i, step, s') && PendingExact(s)
    requires step.IdleStep? || step.EndStep? || step.LandsStep?
    ensures PendingExact(s')
  {
    assert Running(s, i);
    TheCall(s, i);
  }

  /** What is left to a compaction that a flush interrupted, and nothing after any other work. */
  lemma NextOwned(work: Work, pending: set<nat>, version: Levels, edit: Edit, landed: bool)
    requires pending == Owned(Logging(work, version, edit, landed))
    ensures pending - Cleaned(work) == Owned(NextCall(work))
  {
  }

  lemma InstallPending(s: State, i: nat, gone: Gone, s': State)
    requires FileInv(s) && InstallEdit(s, i, gone, s') && PendingExact(s)
    ensures PendingExact(s')
  {
    TheCall(s, i);
    var m, call := s.up.value, s.up.value.calls[i];
    NextOwned(call.work, m.pending, call.version, call.edit, call.landed);
  }

  lemma FailPending(s: State, i: nat, s': State)
    requires FileInv(s) && Fails(s, i, s') && PendingExact(s)
    ensures PendingExact(s')
  {
    TheCall(s, i);
    var m, call := s.up.value, s.up.value.calls[i];
    if call.Building? {
      NumberApart(s);
    } else if call.Logging? {
      NextOwned(call.work, m.pending, call.version, call.edit, call.landed);
    }
  }

  lemma OtherPending(s: State, step: Step, s': State)
    requires FileInv(s) && Next(s, step, s') && PendingExact(s) && !step.Calling?
    ensures PendingExact(s')
  {
    match step
    case Writing(w) => assert WriterNext(s, w, s');
    case Reading(r) => assert ReaderNext(s, r, s');
    case Restarting(x) => assert RestartNext(s, x, s');
    case Scheduling => assert Schedule(s, s');
  }

  lemma NextPending(s: State, step: Step, s': State)
    requires FileInv(s) && Next(s, step, s') && PendingExact(s)
    ensures PendingExact(s')
  {
    if step.Calling? {
      var i, c := step.i, step.c;
      if c.FlushBeginStep? || c.FlushBuiltStep? {
        FlushPending(s, i, c, s');
      } else if c.CompactBeginStep? {
        BeginPending(s, i, c.seed, c.job, s');
      } else if c.CompactLogStep? {
        LogPending(s, i, c.outputs, c.version, s');
      } else if c.MoveLogStep? {
        MovePending(s, i, c.c, c.file, c.version, s');
      } else if c.CompactOutputStep? {
        OutputPending(s, i, c.file, s');
      } else if c.InstallStep? {
        InstallPending(s, i, c.gone, s');
      } else if c.FailsStep? {
        FailPending(s, i, s');
      } else {
        EndPending(s, i, c, s');
      }
    } else {
      OtherPending(s, step, s');
    }
  }

  lemma RunStep(run: seq<State>, steps: seq<Step>, i: nat)
    requires IsExecution(run, steps) && i < |steps|
    ensures Next(run[i], steps[i], run[i + 1])
  {
  }

  lemma InitPending(s: State)
    requires Init(s)
    ensures PendingExact(s)
  {
  }

  /** In every state of every run the pending outputs are those of the active call. */
  lemma PendingIsExact(run: seq<State>, steps: seq<Step>, k: nat)
    requires IsExecution(run, steps) && k < |run|
    ensures PendingExact(run[k])
  {
    if k == 0 {
      InitPending(run[0]);
    } else {
      PendingIsExact(run, steps, k - 1);
      var s, s' := run[k - 1], run[k];
      assert FileInv(s) by {
        RunFiles(run, steps, k - 1);
      }
      RunStep(run, steps, k - 1);
      NextPending(s, steps[k - 1], s');
    }
  }

  /** So a table is kept if and only if a version in use has it or the active call writes it; with no call
      active every other one may be deleted. */
  lemma KeptIff(run: seq<State>, steps: seq<Step>, k: nat, n: nat)
    requires IsExecution(run, steps) && k < |run| && run[k].up.Some?
    ensures var m := run[k].up.value;
      && (Live(m, n) <==> n in Owned(Only(m)) || exists f :: f in VersionTables(m) && f.number == n)
      && (m.calls == [] ==> Owned(Only(m)) == {})
  {
    PendingIsExact(run, steps, k);
  }
}
