/** The writer queue on the engine: what writers are told, and what is found of it after
    crashes and recoveries. */
module Writers {
  import opened Options
  import opened Coding
  import opened Keys
  import Disks
  import B = WriteBatches
  import Q = WriteQueue
  import L = Lsm
  import D = Durability
  import I = ReadInvariants
  import K = QuietSteps
  import R = DurableReads
  import Survival

  /** How the engine's model names the bytes of keys and values. Nothing is asked of it; that
      ranks can follow the key order is `Comparators.RankPreservesOrder`. */
  datatype Naming = Naming(rank: Bytes -> UserKey, text: Bytes -> string)

  function EngineOp(n: Naming, op: B.Op): L.Op {
    match op
    case Put(key, value) => L.Put(n.rank(key), n.text(value))
    case Delete(key) => L.Delete(n.rank(key))
  }

  function EngineOps(n: Naming, ops: seq<B.Op>): seq<L.Op> {
    seq(|ops|, i requires 0 <= i < |ops| => EngineOp(n, ops[i]))
  }

  function EntryFor(n: Naming, x: B.Numbered): Entry {
    L.EntryOf(EngineOp(n, x.op), x.sequence)
  }

  ghost function EntriesFor(n: Naming, xs: seq<B.Numbered>): set<Entry> {
    set x | x in xs :: EntryFor(n, x)
  }

  /** `start` is the last number before the running process, `base` what it found, and `past`
      what earlier processes told their writers. */
  datatype State = State(q: Q.State, d: D.State, start: nat, base: set<Entry>, past: seq<Q.Completion>)

  function NoWriters(last: nat): Q.State {
    Q.State([], Q.Idle, last, [], [], [])
  }

  ghost predicate Init(s: State) {
    D.Init(s.d) && s == State(NoWriters(0), s.d, 0, {}, [])
  }

  // ----- steps

  datatype Step =
    | ArriveStep(w: Q.Writer) | BeginStep(room: Q.Status, n: nat) | LoggedStep | LogFailedStep(appended: bool)
    | FinishStep
    | BesideStep(step: D.Step) | CrashStep(kept: Disks.Logs, spoils: bool) | StrayStep(x: D.RestartStep)
    | RecoverStep(r: D.Fresh)

  ghost predicate Arrive(s: State, w: Q.Writer, s': State) {
    s.d.up.Some? && Q.Arrive(s.q, w, s'.q) && s' == s.(q := s'.q)
  }

  /** The front writer leaves MakeRoomForWrite; after a background error there is no room. */
  ghost predicate Begin(s: State, room: Q.Status, n: nat, s': State) {
    && s.d.up.Some? && (s.d.up.value.bgError ==> room == Q.Failed) && Q.Begin(s.q, room, n, s'.q)
    && (if s'.q.phase.Logging? then D.Admit(s.d, s'.d) else s'.d == s.d)
    && s' == s.(q := s'.q, d := s'.d)
  }

  function GroupOps(s: State): seq<B.Op>
    requires s.q.phase.Logging? && s.q.phase.count <= |s.q.queue|
  {
    Q.GroupBatch(s.q, s.q.phase.count).ops
  }

  /** The group's batch is logged, synced if the leader asked for it, and inserted. */
  ghost predicate Logged(n: Naming, s: State, s': State) {
    && Q.Logged(s.q, s'.q) && D.Write(s.d, EngineOps(n, GroupOps(s)), s.q.queue[0].sync, s'.d)
    && s' == s.(q := s'.q, d := s'.d)
  }

  /** The append fails, or the sync that the leader asked for. */
  ghost predicate LogFailed(n: Naming, s: State, appended: bool, s': State) {
    && Q.LogFailed(s.q, s'.q) && D.WriteFails(s.d, EngineOps(n, GroupOps(s)), appended, s'.d)
    && (appended ==> s.q.queue[0].sync) && s' == s.(q := s'.q, d := s'.d)
  }

  ghost predicate Finish(s: State, s': State) {
    s.d.up.Some? && Q.Finish(s.q, s'.q) && s' == s.(q := s'.q)
  }

  /** What goes on beside the front writer's logging. Only the front writer, in
      MakeRoomForWrite, switches memtables. */
  ghost predicate Beside(s: State, step: D.Step, s': State) {
    && s.d.up.Some? && (step.Writing? ==> step.w.SwitchStep? && s.q.phase.Idle? && s.q.queue != []) && !step.Restarting?
    && D.Next(s.d, step, s'.d) && s' == s.(d := s'.d)
  }

  /** Nobody waits any more. */
  ghost predicate Crash(s: State, kept: Disks.Logs, spoils: bool, s': State) {
    && D.Crash(s.d, kept, spoils, s'.d)
    && s' == State(NoWriters(0), s'.d, 0, {}, s.past + s.q.completed)
  }

  ghost predicate Stray(s: State, x: D.RestartStep, s': State) {
    && (x.StrayTableStep? || x.StrayLogStep? || x.StrayDescriptorStep?)
    && D.RestartNext(s.d, x, s'.d) && s' == s.(d := s'.d)
  }

  ghost predicate Recover(s: State, r: D.Fresh, s': State) {
    && D.Recover(s.d, r, s'.d) && s'.d.up.Some?
    && var core := s'.d.up.value.core;
    && s' == State(NoWriters(core.lastSequence), s'.d, core.lastSequence, core.history, s.past)
  }

  ghost predicate Next(n: Naming, s: State, step: Step, s': State) {
    match step
    case ArriveStep(w) => Arrive(s, w, s')
    case BeginStep(room, count) => Begin(s, room, count, s')
    case LoggedStep => Logged(n, s, s')
    case LogFailedStep(appended) => LogFailed(n, s, appended, s')
    case FinishStep => Finish(s, s')
    case BesideStep(x) => Beside(s, x, s')
    case CrashStep(kept, spoils) => Crash(s, kept, spoils, s')
    case StrayStep(x) => Stray(s, x, s')
    case RecoverStep(r) => Recover(s, r, s')
  }

  // ----- every run is a run of the engine

  /** What the engine does in a step, if it does anything. */
  ghost function EngineStep(n: Naming, s: State, step: Step, s': State): Option<D.Step> {
    match step
    case ArriveStep(_) => None
    case BeginStep(_, _) => if s'.q.phase.Logging? then Some(D.Writing(D.AdmitStep)) else None
    case LoggedStep =>
      if Q.Logged(s.q, s'.q) then Some(D.Writing(D.WriteStep(EngineOps(n, GroupOps(s)), s.q.queue[0].sync))) else None
    case LogFailedStep(appended) =>
      if Q.LogFailed(s.q, s'.q) then Some(D.Writing(D.WriteFailsStep(EngineOps(n, GroupOps(s)), appended))) else None
    case FinishStep => None
    case BesideStep(x) => Some(x)
    case CrashStep(kept, spoils) => Some(D.Restarting(D.CrashStep(kept, spoils)))
    case StrayStep(x) => Some(D.Restarting(x))
    case RecoverStep(r) => Some(D.Restarting(D.RecoverStep(r)))
  }

  lemma EngineNext(n: Naming, s: State, step: Step, s': State)
    requires Next(n, s, step, s')
    ensures var x := EngineStep(n, s, step, s'); if x.Some? then D.Next(s.d, x.value, s'.d) else s'.d == s.d
  {
  }

  // ----- the invariant

  /** Numbers that are used up before the group's end. */
  function Pending(q: Q.State): nat {
    if q.phase.Ending? && q.phase.numbered && q.phase.count <= |q.queue|
    then |Q.GroupOps(q.queue[..q.phase.count])|
    else 0
  }

  ghost function ToldEntries(n: Naming, c: Q.Completion): set<Entry> {
    EntriesFor(n, B.Number(c.first, c.taken))
  }

  /** What a writer is told holds. */
  ghost predicate Kept(n: Naming, d: D.State, c: Q.Completion) {
    c.status == Q.Ok ==>
      && c.taken == Q.Ops(c.writer) && ToldEntries(n, c) <= d.written
      && (c.writer.sync ==> ToldEntries(n, c) <= d.acked)
  }

  ghost predicate AllKept(n: Naming, d: D.State, cs: seq<Q.Completion>) {
    forall c :: c in cs ==> Kept(n, d, c)
  }

  /** The group that has just been logged. */
  ghost predicate GroupKept(n: Naming, q: Q.State, d: D.State) {
    q.phase.Ending? && q.phase.numbered && q.phase.status == Q.Ok && 0 < q.phase.count <= |q.queue| ==>
      var es := EntriesFor(n, B.Number(q.lastSequence + 1, Q.GroupOps(q.queue[..q.phase.count])));
      es <= d.written && (q.queue[0].sync ==> es <= d.acked)
  }

  /** The process answers for what it found and for what its writers inserted. */
  ghost predicate Agrees(n: Naming, s: State, m: D.Memory) {
    && Q.Inv(s.q, s.start) && m.admitted == s.q.phase.Logging?
    && m.core.lastSequence == s.q.lastSequence + Pending(s.q)
    && m.core.history == s.base + EntriesFor(n, s.q.mem)
  }

  ghost predicate Inv(n: Naming, s: State) {
    && (s.d.up.None? ==> s.q == NoWriters(0))
    && (s.d.up.Some? ==> Agrees(n, s, s.d.up.value))
    && AllKept(n, s.d, s.past) && AllKept(n, s.d, s.q.completed) && GroupKept(n, s.q, s.d)
  }

  // ----- facts

  lemma {:induction false} NumberAt(first: nat, ops: seq<B.Op>, i: nat)
    requires i < |ops|
    ensures i < |B.Number(first, ops)| && B.Number(first, ops)[i] == B.Numbered(first + i, ops[i])
    decreases |ops|
  {
    if i > 0 {
      NumberAt(first + 1, ops[1..], i - 1);
    }
  }

  lemma {:induction false} NumberSize(first: nat, ops: seq<B.Op>)
    ensures |B.Number(first, ops)| == |ops|
    decreases |ops|
  {
    if ops != [] {
      NumberSize(first + 1, ops[1..]);
    }
  }

  /** The engine's entries of a batch are those of its numbered operations. */
  lemma {:induction false} BatchFor(n: Naming, ops: seq<B.Op>, first: nat)
    ensures L.BatchEntries(EngineOps(n, ops), first) == EntriesFor(n, B.Number(first, ops))
  {
    var xs := B.Number(first, ops);
    NumberSize(first, ops);
    forall e | e in L.BatchEntries(EngineOps(n, ops), first) ensures e in EntriesFor(n, xs) {
      var i :| 0 <= i < |ops| && e == L.EntryOf(EngineOps(n, ops)[i], first + i);
      NumberAt(first, ops, i);
      assert xs[i] in xs && EntryFor(n, xs[i]) == e;
    }
    forall e | e in EntriesFor(n, xs) ensures e in L.BatchEntries(EngineOps(n, ops), first) {
      var x :| x in xs && EntryFor(n, x) == e;
      var i :| 0 <= i < |xs| && xs[i] == x;
      NumberAt(first, ops, i);
      assert e == L.EntryOf(EngineOps(n, ops)[i], first + i);
    }
  }

  lemma EntriesJoin(n: Naming, a: seq<B.Numbered>, b: seq<B.Numbered>)
    ensures EntriesFor(n, a + b) == EntriesFor(n, a) + EntriesFor(n, b)
  {
  }

  lemma AmongEntries(n: Naming, a: seq<B.Numbered>, b: seq<B.Numbered>)
    requires Q.Among(a, b)
    ensures EntriesFor(n, a) <= EntriesFor(n, b)
  {
  }

  lemma StillKept(n: Naming, d: D.State, d': D.State, cs: seq<Q.Completion>)
    requires AllKept(n, d, cs) && d.acked <= d'.acked && d.written <= d'.written
    ensures AllKept(n, d', cs)
  {
  }

  lemma EngineGrows(n: Naming, s: State, step: Step, s': State)
    requires Next(n, s, step, s')
    ensures s.d.acked <= s'.d.acked && s.d.sure <= s'.d.sure && s.d.written <= s'.d.written
  {
    EngineNext(n, s, step, s');
    var x := EngineStep(n, s, step, s');
    if x.Some? {
      Survival.NextGrows(s.d, x.value, s'.d);
    }
  }

  // ----- every step keeps the invariant

  lemma ArriveKeeps(n: Naming, s: State, w: Q.Writer, s': State)
    requires Inv(n, s) && Arrive(s, w, s')
    ensures Inv(n, s')
  {
    Q.ArriveInv(s.q, s.start, w, s'.q);
    if s.q.phase.Ending? && s.q.phase.count <= |s.q.queue| {
      assert s'.q.queue[..s.q.phase.count] == s.q.queue[..s.q.phase.count];
    }
  }

  lemma BeginKeeps(n: Naming, s: State, room: Q.Status, count: nat, s': State)
    requires Inv(n, s) && Begin(s, room, count, s')
    ensures Inv(n, s')
  {
    Q.BeginInv(s.q, s.start, room, count, s'.q);
    StillKept(n, s.d, s'.d, s.past);
    StillKept(n, s.d, s'.d, s.q.completed);
  }

  /** What the engine does with the group's batch. */
  lemma {:induction false} WriteFor(n: Naming, d: D.State, ops: seq<B.Op>, sync: bool, d': D.State, es: set<Entry>)
    requires D.Write(d, EngineOps(n, ops), sync, d')
    requires es == EntriesFor(n, B.Number(d.up.value.core.lastSequence + 1, ops))
    ensures d'.up.Some? && !d'.up.value.admitted && d'.up.value.core.history == d.up.value.core.history + es
    ensures d'.up.value.core.lastSequence == d.up.value.core.lastSequence + |ops|
    ensures es <= d'.written && (sync ==> es <= d'.acked) && d.written <= d'.written && d.acked <= d'.acked
  {
    BatchFor(n, ops, d.up.value.core.lastSequence + 1);
  }

  lemma LoggedKeeps(n: Naming, s: State, s': State)
    requires Inv(n, s) && Logged(n, s, s')
    ensures Inv(n, s')
  {
    var b := Q.GroupBatch(s.q, s.q.phase.count);
    WriteFor(n, s.d, b.ops, s.q.queue[0].sync, s'.d, EntriesFor(n, B.Number(b.sequence, b.ops)));
    Q.LoggedInv(s.q, s.start, s'.q);
    EntriesJoin(n, s.q.mem, B.Number(b.sequence, b.ops));
    StillKept(n, s.d, s'.d, s.past);
    StillKept(n, s.d, s'.d, s.q.completed);
  }

  lemma FailsFor(n: Naming, d: D.State, ops: seq<B.Op>, appended: bool, d': D.State)
    requires D.WriteFails(d, EngineOps(n, ops), appended, d')
    ensures d'.up.Some? && !d'.up.value.admitted && d'.up.value.core.history == d.up.value.core.history
    ensures d'.up.value.core.lastSequence == d.up.value.core.lastSequence + |ops|
    ensures d.written <= d'.written && d.acked <= d'.acked
  {
  }

  lemma LogFailedKeeps(n: Naming, s: State, appended: bool, s': State)
    requires Inv(n, s) && LogFailed(n, s, appended, s')
    ensures Inv(n, s')
  {
    FailsFor(n, s.d, GroupOps(s), appended, s'.d);
    Q.LogFailedInv(s.q, s.start, s'.q);
    StillKept(n, s.d, s'.d, s.past);
    StillKept(n, s.d, s'.d, s.q.completed);
  }

  lemma {:induction false} MemberKept(n: Naming, ws: seq<Q.Writer>, first: nat, i: nat, d: D.State)
    requires i < |Q.Completions(ws, Q.Ok, first, true)| && ws != [] && Q.IsGroupPrefix(ws, |ws|)
    requires var es := EntriesFor(n, B.Number(first, Q.GroupOps(ws))); es <= d.written && (ws[0].sync ==> es <= d.acked)
    ensures Kept(n, d, Q.Completions(ws, Q.Ok, first, true)[i])
  {
    Q.MemberAmong(ws, Q.Ok, first, i);
    var c := Q.Completions(ws, Q.Ok, first, true)[i];
    AmongEntries(n, B.Number(c.first, c.taken), B.Number(first, Q.GroupOps(ws)));
  }

  lemma {:induction false} GroupIsKept(
    n: Naming, ws: seq<Q.Writer>, status: Q.Status, first: nat, numbered: bool, d: D.State)
    requires ws != [] && Q.IsGroupPrefix(ws, |ws|) && (status == Q.Ok && !numbered ==> |ws| == 1 && ws[0].batch.None?)
    requires numbered && status == Q.Ok ==>
      var es := EntriesFor(n, B.Number(first, Q.GroupOps(ws))); es <= d.written && (ws[0].sync ==> es <= d.acked)
    ensures AllKept(n, d, Q.Completions(ws, status, first, numbered))
  {
    var cs := Q.Completions(ws, status, first, numbered);
    forall c | c in cs ensures Kept(n, d, c) {
      var i :| 0 <= i < |cs| && cs[i] == c;
      Q.CompletionsStatus(ws, status, first, numbered, i);
      if status == Q.Ok && numbered {
        MemberKept(n, ws, first, i, d);
      } else if status == Q.Ok {
        Q.UnnumberedTaken(ws, status, first, i);
        assert B.Number(c.first, []) == [];
      }
    }
  }

  lemma FinishAgrees(n: Naming, s: State, s': State)
    requires s.d.up.Some? && Agrees(n, s, s.d.up.value) && Finish(s, s')
    ensures Agrees(n, s', s.d.up.value)
  {
    Q.FinishInv(s.q, s.start, s'.q);
  }

  lemma AllKeptBoth(n: Naming, d: D.State, a: seq<Q.Completion>, b: seq<Q.Completion>)
    requires AllKept(n, d, a) && AllKept(n, d, b)
    ensures AllKept(n, d, a + b)
  {
  }

  lemma FinishKept(n: Naming, q: Q.State, d: D.State, start: nat, q': Q.State)
    requires Q.Inv(q, start) && GroupKept(n, q, d) && AllKept(n, d, q.completed) && Q.Finish(q, q')
    ensures AllKept(n, d, q'.completed) && GroupKept(n, q', d)
  {
    var p := q.phase;
    var group := q.queue[..p.count];
    assert group[0] == q.queue[0];
    assert Q.IsGroupPrefix(group, |group|) by {
      forall i | 0 < i < |group| && group[i].sync ensures group[0].sync {
        assert q.queue[i].sync;
      }
    }
    GroupIsKept(n, group, p.status, q.lastSequence + 1, p.numbered, d);
    AllKeptBoth(n, d, q.completed, Q.Completions(group, p.status, q.lastSequence + 1, p.numbered));
  }

  lemma FinishKeeps(n: Naming, s: State, s': State)
    requires Inv(n, s) && Finish(s, s')
    ensures Inv(n, s')
  {
    FinishAgrees(n, s, s');
    FinishKept(n, s.q, s.d, s.start, s'.q);
  }

  ghost predicate SameFront(d: D.State, d': D.State) {
    && d.up.Some? && d'.up.Some? && d'.up.value.admitted == d.up.value.admitted
    && d'.up.value.core.history == d.up.value.core.history
    && d'.up.value.core.lastSequence == d.up.value.core.lastSequence
    && d'.acked == d.acked && d'.written == d.written
  }

  lemma CallBeside(d: D.State, i: nat, c: D.CallStep, d': D.State)
    requires D.CallNext(d, i, c, d')
    ensures SameFront(d, d')
  {
  }

  lemma ReaderBeside(d: D.State, r: D.ReaderStep, d': D.State)
    requires D.ReaderNext(d, r, d')
    ensures SameFront(d, d')
  {
  }

  lemma NextBeside(d: D.State, step: D.Step, d': D.State)
    requires D.Next(d, step, d') && !step.Restarting? && (step.Writing? ==> step.w.SwitchStep?)
    ensures SameFront(d, d')
  {
    match step
    case Calling(i, c) => CallBeside(d, i, c, d');
    case Reading(r) => ReaderBeside(d, r, d');
    case _ =>
  }

  lemma BesideKeeps(n: Naming, s: State, step: D.Step, s': State)
    requires Inv(n, s) && Beside(s, step, s')
    ensures Inv(n, s')
  {
    NextBeside(s.d, step, s'.d);
    StillKept(n, s.d, s'.d, s.past);
    StillKept(n, s.d, s'.d, s.q.completed);
  }

  lemma NoWritersInv(last: nat)
    ensures Q.Inv(NoWriters(last), last) && Pending(NoWriters(last)) == 0
  {
  }

  lemma CrashKeeps(n: Naming, s: State, kept: Disks.Logs, spoils: bool, s': State)
    requires Inv(n, s) && Crash(s, kept, spoils, s')
    ensures Inv(n, s')
  {
    AllKeptBoth(n, s.d, s.past, s.q.completed);
  }

  lemma StrayKeeps(n: Naming, s: State, x: D.RestartStep, s': State)
    requires Inv(n, s) && Stray(s, x, s')
    ensures Inv(n, s')
  {
  }

  lemma RecoverKeeps(n: Naming, s: State, r: D.Fresh, s': State)
    requires AllKept(n, s.d, s.past) && Recover(s, r, s')
    ensures Inv(n, s')
  {
    NoWritersInv(s'.start);
  }

  lemma NextKeeps(n: Naming, s: State, step: Step, s': State)
    requires Inv(n, s) && Next(n, s, step, s')
    ensures Inv(n, s')
  {
    match step
    case ArriveStep(w) => ArriveKeeps(n, s, w, s');
    case BeginStep(room, count) => BeginKeeps(n, s, room, count, s');
    case LoggedStep => LoggedKeeps(n, s, s');
    case LogFailedStep(appended) => LogFailedKeeps(n, s, appended, s');
    case FinishStep => FinishKeeps(n, s, s');
    case BesideStep(x) => BesideKeeps(n, s, x, s');
    case CrashStep(kept, spoils) => CrashKeeps(n, s, kept, spoils, s');
    case StrayStep(x) => StrayKeeps(n, s, x, s');
    case RecoverStep(r) => RecoverKeeps(n, s, r, s');
  }

  // ----- runs

  ghost predicate IsExecution(n: Naming, run: seq<State>, steps: seq<Step>) {
    && |run| == |steps| + 1 && Init(run[0])
    && forall i :: 0 <= i < |steps| ==> Next(n, run[i], steps[i], run[i + 1])
  }

  lemma RunInv(n: Naming, run: seq<State>, steps: seq<Step>, k: nat)
    requires IsExecution(n, run, steps) && k < |run|
    ensures Inv(n, run[k])
  {
    if k > 0 {
      RunInv(n, run, steps, k - 1);
      NextKeeps(n, run[k - 1], steps[k - 1], run[k]);
    }
  }

  /** Between groups a process answers for exactly what it found when it started and the
      operations of the writers that it has told `Ok`, under contiguous numbers in the order in
      which they came. */
  lemma HistoryIsTold(n: Naming, run: seq<State>, steps: seq<Step>, k: nat)
    requires IsExecution(n, run, steps) && k < |run| && run[k].d.up.Some? && run[k].q.phase.Idle?
    ensures var s, core := run[k], run[k].d.up.value.core;
      && core.history == s.base + EntriesFor(n, Q.Applied(s.q.completed))
      && core.lastSequence == s.q.lastSequence && Q.Ranges(s.q.completed, s.start + 1, core.lastSequence + 1)
      && Q.Writers(s.q.completed) + s.q.queue == s.q.arrived
  {
    RunInv(n, run, steps, k);
    assert Q.Applied(run[k].q.completed) + [] == Q.Applied(run[k].q.completed);
  }

  /** All that was ever told to a writer. */
  function Told(s: State): seq<Q.Completion> {
    s.past + s.q.completed
  }

  /** A writer told `Ok` that asked for a sync is one whose whole batch is acknowledged. */
  lemma ToldIsAcked(n: Naming, run: seq<State>, steps: seq<Step>, k: nat, c: Q.Completion)
    requires IsExecution(n, run, steps) && k < |run| && c in Told(run[k]) && c.status == Q.Ok
    ensures c.taken == Q.Ops(c.writer) && ToldEntries(n, c) <= run[k].d.written
    ensures c.writer.sync ==> ToldEntries(n, c) <= run[k].d.acked
  {
    RunInv(n, run, steps, k);
    AllKeptBoth(n, run[k].d, run[k].past, run[k].q.completed);
  }

  ghost predicate Clean(n: Naming, s: State, step: Step, s': State) {
    var x := EngineStep(n, s, step, s');
    x.Some? ==> I.Clean(s.d, x.value)
  }

  ghost predicate BehindTear(n: Naming, s: State, step: Step, s': State) {
    var x := EngineStep(n, s, step, s');
    x.Some? && Survival.AckedBehindTear(s.d, x.value)
  }

  ghost predicate IsCleanExecution(n: Naming, run: seq<State>, steps: seq<Step>) {
    IsExecution(n, run, steps) && forall i :: 0 <= i < |steps| ==> Clean(n, run[i], steps[i], run[i + 1])
  }

  lemma StepReads(n: Naming, s: State, step: Step, s': State)
    requires I.Inv(s.d) && Next(n, s, step, s') && Clean(n, s, step, s')
    ensures I.Inv(s'.d)
  {
    EngineNext(n, s, step, s');
    var x := EngineStep(n, s, step, s');
    if x.Some? {
      R.NextReads(s.d, x.value, s'.d);
    }
  }

  lemma InitReads(s: State)
    requires Init(s)
    ensures I.Inv(s.d)
  {
    D.InitFiles(s.d);
    K.InitReads(s.d);
  }

  lemma CleanAt(n: Naming, run: seq<State>, steps: seq<Step>, i: nat)
    requires IsCleanExecution(n, run, steps) && i < |steps|
    ensures Next(n, run[i], steps[i], run[i + 1]) && Clean(n, run[i], steps[i], run[i + 1])
  {
  }

  lemma RunStepReads(n: Naming, run: seq<State>, steps: seq<Step>, i: nat)
    requires IsCleanExecution(n, run, steps) && i < |steps| && I.Inv(run[i].d)
    ensures I.Inv(run[i + 1].d)
  {
    CleanAt(n, run, steps, i);
    StepReads(n, run[i], steps[i], run[i + 1]);
  }

  lemma RunReads(n: Naming, run: seq<State>, steps: seq<Step>, k: nat)
    requires IsCleanExecution(n, run, steps) && k < |run|
    ensures I.Inv(run[k].d)
  {
    if k == 0 {
      InitReads(run[0]);
    } else {
      RunReads(n, run, steps, k - 1);
      RunStepReads(n, run, steps, k - 1);
    }
  }

  ghost predicate NoneBehindTear(n: Naming, run: seq<State>, steps: seq<Step>)
    requires |run| == |steps| + 1
  {
    forall j :: 0 <= j < |steps| ==> !BehindTear(n, run[j], steps[j], run[j + 1])
  }

  lemma AckedAreSure(n: Naming, run: seq<State>, steps: seq<Step>, k: nat)
    requires IsExecution(n, run, steps) && k < |run| && NoneBehindTear(n, run, steps)
    ensures run[k].d.acked == run[k].d.sure
  {
    if k > 0 {
      AckedAreSure(n, run, steps, k - 1);
      assert Next(n, run[k - 1], steps[k - 1], run[k]) && !BehindTear(n, run[k - 1], steps[k - 1], run[k]);
      EngineNext(n, run[k - 1], steps[k - 1], run[k]);
      var x := EngineStep(n, run[k - 1], steps[k - 1], run[k]);
      if x.Some? {
        Survival.AckedSurely(run[k - 1].d, x.value, run[k].d);
      }
    }
  }

  lemma EngineStays(n: Naming, run: seq<State>, steps: seq<Step>, i: nat, k: nat)
    requires IsExecution(n, run, steps) && i <= k < |run|
    ensures run[i].d.acked <= run[k].d.acked && run[i].d.written <= run[k].d.written
  {
    if i < k {
      EngineStays(n, run, steps, i, k - 1);
      EngineGrows(n, run[k - 1], steps[k - 1], run[k]);
    }
  }

  /** What a writer that asked for a sync was told `Ok` for is there for good: whatever process
      runs later has it in its history, and its reads see that history. */
  lemma ToldSurvives(n: Naming, run: seq<State>, steps: seq<Step>, i: nat, k: nat, c: Q.Completion)
    requires IsCleanExecution(n, run, steps) && NoneBehindTear(n, run, steps) && i <= k < |run| && run[k].d.up.Some?
    requires c in Told(run[i]) && c.status == Q.Ok && c.writer.sync
    ensures c.taken == Q.Ops(c.writer) && ToldEntries(n, c) <= run[k].d.up.value.core.history
    ensures L.Inv(run[k].d.up.value.core)
  {
    ToldIsAcked(n, run, steps, i, c);
    EngineStays(n, run, steps, i, k);
    AckedAreSure(n, run, steps, k);
    RunReads(n, run, steps, k);
    Survival.HistoryKept(run[k].d);
  }

  /** So a read of a key that nothing newer was written to finds what the writer wrote. */
  lemma ToldIsRead(
    n: Naming, run: seq<State>, steps: seq<Step>, i: nat, k: nat, c: Q.Completion, x: B.Numbered, t: nat)
    requires IsCleanExecution(n, run, steps) && NoneBehindTear(n, run, steps) && i <= k < |run| && run[k].d.up.Some?
    requires c in Told(run[i]) && c.status == Q.Ok && c.writer.sync && x in B.Number(c.first, c.taken)
    requires L.Floor(run[k].d.up.value.core) <= t && IsNewest(run[k].d.written, n.rank(x.op.key), t, EntryFor(n, x))
    ensures Visible(L.Stored(run[k].d.up.value.core), n.rank(x.op.key), t)
         == if x.op.Put? then Found(n.text(x.op.value)) else NotFound
  {
    ToldSurvives(n, run, steps, i, k, c);
    RunReads(n, run, steps, k);
    Survival.HistoryKept(run[k].d);
    assert EntryFor(n, x) in ToldEntries(n, c);
    Survival.NewestReads(run[k].d.up.value.core, run[k].d.written, n.rank(x.op.key), t, EntryFor(n, x));
  }

  ghost predicate TriedBehindTear(n: Naming, s: State, step: Step, s': State) {
    var x := EngineStep(n, s, step, s');
    x.Some? && Survival.TriedBehindTear(s.d, x.value)
  }

  ghost predicate NoneTriedBehindTear(n: Naming, run: seq<State>, steps: seq<Step>)
    requires |run| == |steps| + 1
  {
    forall j :: 0 <= j < |steps| ==> !TriedBehindTear(n, run[j], steps[j], run[j + 1])
  }

  lemma StepReadable(n: Naming, s: State, step: Step, s': State)
    requires Next(n, s, step, s') && Survival.Readable(s.d.disk) && !TriedBehindTear(n, s, step, s')
    ensures Survival.Readable(s'.d.disk)
  {
    EngineNext(n, s, step, s');
    var x := EngineStep(n, s, step, s');
    if x.Some? {
      Survival.NextFrays(s.d, x.value, s'.d);
    }
  }

  lemma RunReadable(n: Naming, run: seq<State>, steps: seq<Step>, k: nat)
    requires IsExecution(n, run, steps) && NoneTriedBehindTear(n, run, steps) && k < |run|
    ensures Survival.Readable(run[k].d.disk)
  {
    if k > 0 {
      RunReadable(n, run, steps, k - 1);
      StepReadable(n, run[k - 1], steps[k - 1], run[k]);
    }
  }

  /** The database can be opened again after a crash in any state, and whatever process that
      gives has in its history what such a writer wrote. */
  lemma ToldIsFound(
    n: Naming, run: seq<State>, steps: seq<Step>, i: nat, k: nat, c: Q.Completion, kept: Disks.Logs, spoils: bool,
    down: D.State)
    requires IsCleanExecution(n, run, steps) && i <= k < |run| && c in Told(run[i]) && c.status == Q.Ok && c.writer.sync
    requires NoneBehindTear(n, run, steps) && NoneTriedBehindTear(n, run, steps)
    requires D.Crash(run[k].d, kept, spoils, down)
    ensures c.taken == Q.Ops(c.writer) && Survival.Found(down, ToldEntries(n, c))
  {
    ToldIsAcked(n, run, steps, i, c);
    EngineStays(n, run, steps, i, k);
    AckedAreSure(n, run, steps, k);
    RunReads(n, run, steps, k);
    RunReadable(n, run, steps, k);
    Survival.AckedFound(run[k].d, kept, spoils, down, ToldEntries(n, c));
  }
}
