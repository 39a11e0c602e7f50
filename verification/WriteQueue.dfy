/** The writer queue: threads line up, the front one logs and applies a group of
    batches for itself and those behind it, and wakes them. What logging does to the
    disk is `Writers`'s. */
module WriteQueue {
  import opened Options
  import opened Coding
  import opened WriteBatches

  /** A null batch asks for the memtable to be compacted. Writers are told apart by `id`. */
  datatype Writer = Writer(id: nat, batch: Option<seq<Op>>, sync: bool)

  function Ops(w: Writer): seq<Op> {
    if w.batch.Some? then w.batch.value else []
  }

  function ByteSize(ops: seq<Op>): nat {
    PREFIX + |Body(ops)|
  }

  // ----- the group a leader takes

  const GROUP_LIMIT: nat := 0x10_0000
  const SMALL: nat := 0x2_0000

  function MaxSize(first: Writer): nat {
    var size := ByteSize(Ops(first));
    if size <= SMALL then size + SMALL else GROUP_LIMIT
  }

  /** Byte sizes of the batches, null batches counting nothing. */
  function Total(ws: seq<Writer>): nat {
    if ws == [] then 0
    else Total(ws[..|ws| - 1]) + (if ws[|ws| - 1].batch.Some? then ByteSize(Ops(ws[|ws| - 1])) else 0)
  }

  function GroupOps(ws: seq<Writer>): seq<Op> {
    if ws == [] then [] else GroupOps(ws[..|ws| - 1]) + Ops(ws[|ws| - 1])
  }

  /** Writer `i` may not join the group of the front writer. */
  predicate Stops(queue: seq<Writer>, i: nat)
    requires 0 < i < |queue|
  {
    || (queue[i].sync && !queue[0].sync)
    || (queue[i].batch.Some? && Total(queue[..i + 1]) > MaxSize(queue[0]))
  }

  /** The writers before `n` may join. */
  ghost predicate Joined(queue: seq<Writer>, n: nat)
    requires n <= |queue|
  {
    forall i :: 0 < i < n ==> !Stops(queue, i)
  }

  /** The group is as long as it may be. */
  ghost predicate IsGroup(queue: seq<Writer>, n: nat) {
    && 0 < n <= |queue| && queue[0].batch.Some?
    && Joined(queue, n) && (n < |queue| ==> Stops(queue, n))
  }

  lemma JoinedOne(queue: seq<Writer>, n: nat)
    requires 0 < n < |queue| && Joined(queue, n) && !Stops(queue, n)
    ensures Joined(queue, n + 1)
  {
  }

  lemma GroupGrows(queue: seq<Writer>, n: nat, size: nat, ops: seq<Op>)
    requires n < |queue| && size == Total(queue[..n]) && ops == GroupOps(queue[..n])
    ensures Total(queue[..n + 1]) == size + (if queue[n].batch.Some? then ByteSize(Ops(queue[n])) else 0)
    ensures GroupOps(queue[..n + 1]) == ops + Ops(queue[n])
  {
    assert queue[..n + 1][..n] == queue[..n];
  }

  /** What a group may hold: a small first batch gets 128 KB more, a large one all that is below
      1 MB. */
  function Room(queue: seq<Writer>): nat
    requires queue != []
  {
    var first := 12 + |Body(Ops(queue[0]))|;
    if first <= 128 * 1024 then first + 128 * 1024 else 1024 * 1024
  }

  /** What a group weighs, and why it is no longer: no sync writer rides on a leader that does not
      sync, the batches behind the first fit in the room with it, and the next writer is a sync one
      that may not or has a batch that would not fit. */
  lemma GroupWeight(queue: seq<Writer>, n: nat)
    requires IsGroup(queue, n)
    ensures forall i :: 0 < i < n && queue[i].sync ==> queue[0].sync
    ensures (forall i :: 0 < i < n ==> queue[i].batch.None?) || Total(queue[..n]) <= Room(queue)
    ensures n < |queue| ==>
      || (queue[n].sync && !queue[0].sync)
      || (queue[n].batch.Some? && Total(queue[..n]) + 12 + |Body(queue[n].batch.value)| > Room(queue))
  {
    forall i | 0 < i < n && queue[i].sync ensures queue[0].sync {
      assert !Stops(queue, i);
    }
    if n < |queue| {
      GroupGrows(queue, n, Total(queue[..n]), GroupOps(queue[..n]));
    }
    LastBatch(queue, n);
  }

  /** Writers without a batch add nothing. */
  lemma LastBatch(queue: seq<Writer>, n: nat)
    requires 0 < n <= |queue| && Joined(queue, n)
    ensures (forall i :: 0 < i < n ==> queue[i].batch.None?) || Total(queue[..n]) <= Room(queue)
  {
    if n > 1 {
      LastBatch(queue, n - 1);
      GroupGrows(queue, n - 1, Total(queue[..n - 1]), GroupOps(queue[..n - 1]));
      assert !Stops(queue, n - 1);
    }
  }

  /** BuildBatchGroup: the group's length and the batch that is logged for it. */
  method BuildBatchGroup(queue: seq<Writer>) returns (n: nat, result: seq<Op>)
    requires queue != [] && queue[0].batch.Some?
    ensures IsGroup(queue, n) && result == GroupOps(queue[..n])
  {
    var first := queue[0];
    result := Ops(first);
    var size := ByteSize(Ops(first));
    var maxSize := GROUP_LIMIT;
    if size <= SMALL {
      maxSize := size + SMALL;
    }
    n := 1;
    GroupGrows(queue, 0, 0, []);
    while n < |queue|
      invariant 0 < n <= |queue| && size == Total(queue[..n]) && maxSize == MaxSize(first)
      invariant result == GroupOps(queue[..n])
      invariant Joined(queue, n)
    {
      var w := queue[n];
      GroupGrows(queue, n, size, result);
      if w.sync && !first.sync {
        return;
      }
      if w.batch.Some? {
        size := size + ByteSize(w.batch.value);
        if size > maxSize {
          return;
        }
        result := result + w.batch.value;
      }
      JoinedOne(queue, n);
      n := n + 1;
    }
  }

  /** The front group is popped up to its last member, each told the status. */
  method PopGroup(queue: seq<Writer>, last: Writer, ghost n: nat) returns (rest: seq<Writer>, told: seq<Writer>)
    requires 0 < n <= |queue| && queue[n - 1] == last
    requires forall i, j :: 0 <= i < j < |queue| ==> queue[i].id != queue[j].id
    ensures told == queue[..n] && rest == queue[n..]
  {
    rest, told := queue, [];
    while true
      invariant |told| < n && told == queue[..|told|] && rest == queue[|told|..]
      decreases |rest|
    {
      var ready := rest[0];
      rest := rest[1..];
      told := told + [ready];
      if ready.id == last.id {
        break;
      }
    }
  }

  // ----- steps

  datatype Status = Ok | Failed

  /** A writer that returned, with the operations that got numbers from `first` on. */
  datatype Completion = Completion(writer: Writer, status: Status, first: nat, taken: seq<Op>)

  /** What the front writer does for its group; the lock is released while it is
      `Logging`. `numbered` says whether the group's operations take numbers. */
  datatype Phase = Idle | Logging(count: nat) | Ending(count: nat, numbered: bool, status: Status)

  datatype State = State(
    queue: seq<Writer>, phase: Phase, lastSequence: nat, mem: seq<Numbered>,
    arrived: seq<Writer>, completed: seq<Completion>)

  predicate Init(s: State) {
    s == State([], Idle, s.lastSequence, [], [], [])
  }

  ghost predicate Arrive(s: State, w: Writer, s': State) {
    && (forall x :: x in s.arrived ==> x.id != w.id)
    && s' == s.(queue := s.queue + [w], arrived := s.arrived + [w])
  }

  /** The front writer makes room and, with a batch of its own, takes a group. */
  ghost predicate Begin(s: State, room: Status, n: nat, s': State) {
    && s.phase.Idle? && s.queue != []
    && if room == Ok && s.queue[0].batch.Some? then
         IsGroup(s.queue, n) && s' == s.(phase := Logging(n))
       else s' == s.(phase := Ending(1, false, room))
  }

  /** The batch logged for the group at the front. */
  function GroupBatch(s: State, count: nat): Batch
    requires count <= |s.queue|
  {
    Batch(s.lastSequence + 1, GroupOps(s.queue[..count]))
  }

  /** Logged, synced if the leader asked for it, and inserted. */
  ghost predicate Logged(s: State, s': State) {
    && s.phase.Logging? && 0 < s.phase.count <= |s.queue|
    && var b := GroupBatch(s, s.phase.count);
    && s' == s.(mem := s.mem + Number(b.sequence, b.ops), phase := Ending(s.phase.count, true, Ok))
  }

  /** The append or the sync failed. */
  ghost predicate LogFailed(s: State, s': State) {
    && s.phase.Logging? && 0 < s.phase.count <= |s.queue|
    && s' == s.(phase := Ending(s.phase.count, true, Failed))
  }

  function Completions(ws: seq<Writer>, status: Status, first: nat, numbered: bool): seq<Completion>
    decreases |ws|
  {
    if ws == [] then []
    else
      var taken := if numbered then Ops(ws[0]) else [];
      [Completion(ws[0], status, first, taken)] + Completions(ws[1..], status, first + |taken|, numbered)
  }

  /** Sequence numbers are used up whether or not logging worked. */
  ghost predicate Finish(s: State, s': State) {
    && s.phase.Ending? && s.phase.count <= |s.queue|
    && var p := s.phase;
    && var group := s.queue[..p.count];
    && s' == s.(lastSequence := s.lastSequence + (if p.numbered then |GroupOps(group)| else 0),
                queue := s.queue[p.count..], phase := Idle,
                completed := s.completed + Completions(group, p.status, s.lastSequence + 1, p.numbered))
  }

  datatype Step =
    | ArriveStep(w: Writer) | BeginStep(room: Status, n: nat) | LoggedStep
    | LogFailedStep | FinishStep

  ghost predicate Next(s: State, step: Step, s': State) {
    match step
    case ArriveStep(w) => Arrive(s, w, s')
    case BeginStep(room, n) => Begin(s, room, n, s')
    case LoggedStep => Logged(s, s')
    case LogFailedStep => LogFailed(s, s')
    case FinishStep => Finish(s, s')
  }

  // ----- the invariant

  function Writers(cs: seq<Completion>): (r: seq<Writer>)
    ensures |r| == |cs|
  {
    if cs == [] then [] else [cs[0].writer] + Writers(cs[1..])
  }

  /** The operations of the writers told `Ok`, under the numbers they were given. */
  function Applied(cs: seq<Completion>): seq<Numbered> {
    if cs == [] then []
    else (if cs[0].status == Ok then Number(cs[0].first, cs[0].taken) else []) + Applied(cs[1..])
  }

  /** Number ranges follow each other, from `low` up to `high`. */
  ghost predicate Ranges(cs: seq<Completion>, low: nat, high: nat)
    decreases |cs|
  {
    if cs == [] then low == high
    else cs[0].first == low && Ranges(cs[1..], low + |cs[0].taken|, high)
  }

  ghost predicate Among(a: seq<Numbered>, b: seq<Numbered>) {
    forall x :: x in a ==> x in b
  }

  /** Writers told `Ok` had their whole batch numbered. */
  ghost predicate AllServed(cs: seq<Completion>) {
    forall c :: c in cs && c.status == Ok ==> c.taken == Ops(c.writer)
  }

  /** The group does not let a sync writer ride on a leader that does not sync. */
  ghost predicate IsGroupPrefix(queue: seq<Writer>, n: nat) {
    && 0 < n <= |queue|
    && forall i :: 0 < i < n && queue[i].sync ==> queue[0].sync
  }

  ghost predicate PhaseOk(s: State) {
    match s.phase
    case Idle => true
    case Logging(n) => IsGroupPrefix(s.queue, n)
    case Ending(n, numbered, status) =>
      && IsGroupPrefix(s.queue, n)
      && (status == Ok && !numbered ==> n == 1 && s.queue[0].batch.None?)
  }

  ghost predicate Distinct(ws: seq<Writer>) {
    forall i, j :: 0 <= i < j < |ws| ==> ws[i].id != ws[j].id
  }

  /** What is in the memtable: the completed writers' operations and the group's. */
  ghost function Expected(s: State): seq<Numbered> {
    Applied(s.completed) +
    (if s.phase.Ending? && s.phase.count <= |s.queue| && s.phase.status == Ok && s.phase.numbered
     then Number(s.lastSequence + 1, GroupOps(s.queue[..s.phase.count])) else [])
  }

  ghost predicate Inv(s: State, start: nat) {
    && s.arrived == Writers(s.completed) + s.queue && Distinct(s.arrived)
    && PhaseOk(s)
    && Ranges(s.completed, start + 1, s.lastSequence + 1)
    && s.mem == Expected(s)
    && AllServed(s.completed)
  }

  // ----- facts about lists

  lemma {:induction false} NumberSum(first: nat, a: seq<Op>, b: seq<Op>)
    ensures Number(first, a + b) == Number(first, a) + Number(first + |a|, b)
    decreases |a|
  {
    if a == [] {
      assert a + b == b;
    } else {
      assert (a + b)[1..] == a[1..] + b;
      NumberSum(first + 1, a[1..], b);
    }
  }

  lemma Regroup(a: seq<Op>, b: seq<Op>, c: seq<Op>)
    ensures a + (b + c) == (a + b) + c
  {
  }

  lemma {:induction false} GroupOpsOne(ws: seq<Writer>)
    requires |ws| == 1
    ensures GroupOps(ws) == Ops(ws[0]) && ws[1..] == []
  {
    assert ws[..0] == [];
    assert [] + Ops(ws[0]) == Ops(ws[0]);
  }

  lemma {:induction false} GroupOpsFront(ws: seq<Writer>)
    requires ws != []
    ensures GroupOps(ws) == Ops(ws[0]) + GroupOps(ws[1..])
    decreases |ws|
  {
    if |ws| == 1 {
      GroupOpsOne(ws);
    } else {
      var front, rest := ws[..|ws| - 1], ws[1..];
      GroupOpsFront(front);
      assert front[1..] == rest[..|rest| - 1];
      assert rest != [] && rest[|rest| - 1] == ws[|ws| - 1];
      Regroup(Ops(ws[0]), GroupOps(front[1..]), Ops(ws[|ws| - 1]));
    }
  }

  lemma {:induction false} WritersSum(a: seq<Completion>, b: seq<Completion>)
    ensures Writers(a + b) == Writers(a) + Writers(b)
  {
    if a == [] {
      assert a + b == b;
    } else {
      assert (a + b)[1..] == a[1..] + b;
      WritersSum(a[1..], b);
    }
  }

  lemma {:induction false} AppliedSum(a: seq<Completion>, b: seq<Completion>)
    ensures Applied(a + b) == Applied(a) + Applied(b)
  {
    if a == [] {
      assert a + b == b;
    } else {
      assert (a + b)[1..] == a[1..] + b;
      AppliedSum(a[1..], b);
    }
  }

  lemma {:induction false} RangesSum(a: seq<Completion>, b: seq<Completion>, low: nat, mid: nat, high: nat)
    requires Ranges(a, low, mid) && Ranges(b, mid, high)
    ensures Ranges(a + b, low, high)
    decreases |a|
  {
    if a == [] {
      assert a + b == b;
    } else {
      assert (a + b)[1..] == a[1..] + b;
      RangesSum(a[1..], b, low + |a[0].taken|, mid, high);
    }
  }

  lemma {:induction false} CompletionsWriters(ws: seq<Writer>, status: Status, first: nat, numbered: bool)
    ensures Writers(Completions(ws, status, first, numbered)) == ws
    decreases |ws|
  {
    if ws != [] {
      CompletionsWriters(ws[1..], status, first + |if numbered then Ops(ws[0]) else []|, numbered);
    }
  }

  lemma {:induction false} CompletionsRanges(ws: seq<Writer>, status: Status, first: nat, numbered: bool, last: nat)
    requires last == first + (if numbered then |GroupOps(ws)| else 0)
    ensures Ranges(Completions(ws, status, first, numbered), first, last)
    decreases |ws|
  {
    if ws != [] {
      GroupOpsFront(ws);
      CompletionsRanges(ws[1..], status, first + |if numbered then Ops(ws[0]) else []|, numbered, last);
    }
  }

  lemma {:induction false} AppliedFront(c: Completion, rest: seq<Completion>)
    requires c.status == Ok
    ensures Applied([c] + rest) == Number(c.first, c.taken) + Applied(rest)
  {
    assert ([c] + rest)[1..] == rest;
  }

  lemma {:induction false} GroupApplied(ws: seq<Writer>, first: nat)
    ensures Applied(Completions(ws, Ok, first, true)) == Number(first, GroupOps(ws))
    decreases |ws|
  {
    if ws != [] {
      var mine := Ops(ws[0]);
      GroupApplied(ws[1..], first + |mine|);
      AppliedFront(Completion(ws[0], Ok, first, mine), Completions(ws[1..], Ok, first + |mine|, true));
      GroupOpsFront(ws);
      NumberSum(first, mine, GroupOps(ws[1..]));
    }
  }

  lemma {:induction false} NothingApplied(ws: seq<Writer>, status: Status, first: nat, numbered: bool)
    requires status == Failed || !numbered
    ensures Applied(Completions(ws, status, first, numbered)) == []
    decreases |ws|
  {
    if ws != [] {
      var taken := if numbered then Ops(ws[0]) else [];
      var rest := Completions(ws[1..], status, first + |taken|, numbered);
      assert Completions(ws, status, first, numbered)[1..] == rest;
      NothingApplied(ws[1..], status, first + |taken|, numbered);
    }
  }

  /** The numbers of one member are among those of the group. */
  lemma {:induction false} MemberAmong(ws: seq<Writer>, status: Status, first: nat, i: nat)
    requires i < |Completions(ws, status, first, true)|
    ensures var c := Completions(ws, status, first, true)[i];
            && i < |ws| && c.writer == ws[i] && c.taken == Ops(ws[i])
            && Among(Number(c.first, c.taken), Number(first, GroupOps(ws)))
    decreases |ws|
  {
    GroupOpsFront(ws);
    NumberSum(first, Ops(ws[0]), GroupOps(ws[1..]));
    if i > 0 {
      MemberAmong(ws[1..], status, first + |Ops(ws[0])|, i - 1);
    }
  }

  lemma {:induction false} UnnumberedTaken(ws: seq<Writer>, status: Status, first: nat, i: nat)
    requires i < |Completions(ws, status, first, false)|
    ensures var c := Completions(ws, status, first, false)[i];
            i < |ws| && c.writer == ws[i] && c.taken == []
    decreases |ws|
  {
    if i > 0 {
      UnnumberedTaken(ws[1..], status, first, i - 1);
    }
  }

  lemma {:induction false} GroupServed(ws: seq<Writer>, status: Status, first: nat, numbered: bool)
    requires status == Ok && !numbered ==> forall i :: 0 <= i < |ws| ==> ws[i].batch.None?
    ensures AllServed(Completions(ws, status, first, numbered))
  {
    var cs := Completions(ws, status, first, numbered);
    forall c | c in cs && c.status == Ok ensures c.taken == Ops(c.writer) {
      var i :| 0 <= i < |cs| && cs[i] == c;
      CompletionsStatus(ws, status, first, numbered, i);
      if numbered {
        MemberAmong(ws, status, first, i);
      } else {
        UnnumberedTaken(ws, status, first, i);
      }
    }
  }

  lemma {:induction false} CompletionsStatus(ws: seq<Writer>, status: Status, first: nat, numbered: bool, i: nat)
    requires i < |Completions(ws, status, first, numbered)|
    ensures Completions(ws, status, first, numbered)[i].status == status
    decreases |ws|
  {
    if i > 0 {
      CompletionsStatus(ws[1..], status, first + |if numbered then Ops(ws[0]) else []|, numbered, i - 1);
    }
  }

  // ----- every step keeps the invariant

  lemma ArriveInv(s: State, start: nat, w: Writer, s': State)
    requires Inv(s, start) && Arrive(s, w, s')
    ensures Inv(s', start)
  {
    assert Writers(s.completed) + s.queue + [w] == Writers(s.completed) + (s.queue + [w]);
    if !s.phase.Idle? {
      assert s'.queue[..s.phase.count] == s.queue[..s.phase.count];
    }
  }

  lemma BeginInv(s: State, start: nat, room: Status, n: nat, s': State)
    requires Inv(s, start) && Begin(s, room, n, s')
    ensures Inv(s', start)
  {
    if s'.phase.Logging? {
      forall i | 0 < i < n && s.queue[i].sync ensures s.queue[0].sync {
        assert !Stops(s.queue, i);
      }
    }
  }

  lemma LoggedInv(s: State, start: nat, s': State)
    requires Inv(s, start) && Logged(s, s')
    ensures Inv(s', start)
  {
    assert s.mem == Applied(s.completed) + [] == Applied(s.completed);
  }

  lemma LogFailedInv(s: State, start: nat, s': State)
    requires Inv(s, start) && LogFailed(s, s')
    ensures Inv(s', start)
  {
  }

  lemma FinishArrivals(s: State, start: nat, s': State)
    requires Inv(s, start) && Finish(s, s')
    ensures s'.arrived == Writers(s'.completed) + s'.queue
  {
    var p := s.phase;
    var group := s.queue[..p.count];
    CompletionsWriters(group, p.status, s.lastSequence + 1, p.numbered);
    WritersSum(s.completed, Completions(group, p.status, s.lastSequence + 1, p.numbered));
    assert Writers(s.completed) + (group + s.queue[p.count..]) == (Writers(s.completed) + group) + s.queue[p.count..];
    assert s.queue == group + s.queue[p.count..];
  }

  lemma {:induction false} FinishNumbers(s: State, start: nat, s': State)
    requires Inv(s, start) && Finish(s, s')
    ensures Ranges(s'.completed, start + 1, s'.lastSequence + 1)
  {
    var p, first := s.phase, s.lastSequence + 1;
    var group := s.queue[..p.count];
    CompletionsRanges(group, p.status, first, p.numbered, s'.lastSequence + 1);
    RangesSum(s.completed, Completions(group, p.status, first, p.numbered), start + 1, first, s'.lastSequence + 1);
  }

  lemma FinishMemtable(s: State, start: nat, s': State)
    requires Inv(s, start) && Finish(s, s')
    ensures s'.mem == Expected(s')
  {
    var p, first := s.phase, s.lastSequence + 1;
    var group := s.queue[..p.count];
    if p.status == Ok && p.numbered {
      GroupApplied(group, first);
    } else {
      NothingApplied(group, p.status, first, p.numbered);
    }
    AppliedSum(s.completed, Completions(group, p.status, first, p.numbered));
    assert Expected(s') == Applied(s'.completed) + [] == Applied(s'.completed);
  }

  lemma FinishServed(s: State, start: nat, s': State)
    requires Inv(s, start) && Finish(s, s')
    ensures AllServed(s'.completed)
  {
    GroupServed(s.queue[..s.phase.count], s.phase.status, s.lastSequence + 1, s.phase.numbered);
  }

  lemma FinishInv(s: State, start: nat, s': State)
    requires Inv(s, start) && Finish(s, s')
    ensures Inv(s', start)
  {
    FinishArrivals(s, start, s');
    FinishNumbers(s, start, s');
    FinishMemtable(s, start, s');
    FinishServed(s, start, s');
  }

  // ----- runs

  ghost predicate IsExecution(run: seq<State>, steps: seq<Step>) {
    && |run| == |steps| + 1 && Init(run[0])
    && forall i :: 0 <= i < |steps| ==> Next(run[i], steps[i], run[i + 1])
  }

  lemma NextInv(s: State, start: nat, step: Step, s': State)
    requires Inv(s, start) && Next(s, step, s')
    ensures Inv(s', start)
  {
    match step
    case ArriveStep(w) => ArriveInv(s, start, w, s');
    case BeginStep(room, n) => BeginInv(s, start, room, n, s');
    case LoggedStep => LoggedInv(s, start, s');
    case LogFailedStep => LogFailedInv(s, start, s');
    case FinishStep => FinishInv(s, start, s');
  }

  lemma RunInv(run: seq<State>, steps: seq<Step>, k: nat)
    requires IsExecution(run, steps) && k < |run|
    ensures Inv(run[k], run[0].lastSequence)
  {
    if k > 0 {
      RunInv(run, steps, k - 1);
      NextInv(run[k - 1], run[0].lastSequence, steps[k - 1], run[k]);
    }
  }

  /** Writers return in the order they came, each exactly once, and those that have
      not are queued. */
  lemma InOrderOnce(run: seq<State>, steps: seq<Step>, k: nat)
    requires IsExecution(run, steps) && k < |run|
    ensures Writers(run[k].completed) + run[k].queue == run[k].arrived && Distinct(run[k].arrived)
  {
    RunInv(run, steps, k);
  }

  /** Number ranges are contiguous in queue order, and between groups the memtable holds
      exactly the operations of the writers told `Ok`, numbered that way. */
  lemma MemtableIsExact(run: seq<State>, steps: seq<Step>, k: nat)
    requires IsExecution(run, steps) && k < |run| && run[k].phase.Idle?
    ensures Ranges(run[k].completed, run[0].lastSequence + 1, run[k].lastSequence + 1)
    ensures run[k].mem == Applied(run[k].completed)
  {
    RunInv(run, steps, k);
    assert Applied(run[k].completed) + [] == Applied(run[k].completed);
  }
}
