// One worker cycle as a transition system: two lanes, each a bounded pool of batch tasks, over a
// store-after-success extraction cache. The steps may interleave in any way.
module WorkerPool {
  import opened Sequences
  import opened Options
  import opened WorkerBatches

  // Where a task stands with its current row: before the cache lookup, past a miss, waiting for the
  // one who holds the claim, at the model call with the shared claim or without it, or past the
  // store with the claim still held.
  datatype Phase = Ready | Missed | Waiting(left: nat) | Calling(claimed: bool) | Stored

  // A pool task works through its batch row by row.
  datatype Task = Task(batch: seq<Row>, started: bool, next: nat, phase: Phase)
  {
    predicate Valid()
    {
      && next <= |batch| && (next > 0 || phase != Ready ==> started) && (phase != Ready ==> next < |batch|)
      && (phase.Waiting? ==> phase.left <= LOOKUPS)
    }

    predicate Running() { started && next < |batch| }

    predicate Done() { next == |batch| }

    // Between the cache miss and the end of the model call.
    predicate Pending() { phase.Missed? || phase.Waiting? || phase.Calling? }

    function Onwards(): (t: Task) { this.(next := next + 1, phase := Ready) }
  }

  // The further lookups of a row whose claim is refused.
  const LOOKUPS: nat := 4

  datatype Lane = Lane(workers: nat, tasks: seq<Task>)

  // claims is the shared claim table: the row that holds the claim of each body. wins counts the
  // successful model calls by lane and cache key.
  datatype State = State(lanes: seq<Lane>, cache: set<string>, claims: map<string, int>, wins: multiset<(nat, string)>)

  function RunningTasks(tasks: seq<Task>): (n: nat)
    ensures n <= |tasks|
  {
    if tasks == [] then 0 else (if tasks[0].Running() then 1 else 0) + RunningTasks(tasks[1..])
  }

  function NewTask(batch: seq<Row>): (t: Task) { Task(batch, false, 0, Ready) }

  // The lane's pool: max(1, min(slots, batches)) threads.
  function NewLane(slots: nat, batches: seq<seq<Row>>): (l: Lane)
  {
    Lane(Max(1, Min(slots, |batches|)), seq(|batches|, b requires 0 <= b < |batches| => NewTask(batches[b])))
  }

  predicate Initial(s: State)
  {
    && s.wins == multiset{}
    && forall l, t :: 0 <= l < |s.lanes| && 0 <= t < |s.lanes[l].tasks| ==>
         s.lanes[l].tasks[t] == NewTask(s.lanes[l].tasks[t].batch)
  }

  // What a thread can do next with its task.
  datatype Action =
    | Start                   // a free thread takes a batch
    | Refuse                  // the row's own claim is stale or fails: it ends without a cache lookup
    | Hit                     // the cache holds the row's key: its result is reused
    | Miss                    // it does not
    | Claim                   // the body is unclaimed, or claimed for this row: claimed, and the model is called
    | TakeOver                // an expired claim is taken from another row, and the model is called
    | Bypass                  // the claim table is not there: the model is called without a claim
    | Blocked                 // another row holds the claim: look in the cache a few times more
    | LookAgain               // once more in vain
    | GiveUp                  // nothing came, or the claim raised: the row fails
    | Succeed                 // the call succeeds and its result is stored
    | Fail                    // the call fails or its result is not kept: nothing is stored
    | FailHeld                // the same, and the claim is not released
    | Release                 // the claim is released after the store
    | ReleaseFails            // or its release fails

  function Key(t: Task): (k: string)
    requires t.next < |t.batch|
  {
    t.batch[t.next].key
  }

  // No other row holds the claim of the task's key.
  predicate Unclaimed(s: State, t: Task)
    requires t.next < |t.batch|
  {
    Key(t) !in s.claims || s.claims[Key(t)] == t.batch[t.next].id
  }

  predicate Enabled(s: State, l: nat, t: nat, a: Action)
  {
    && l < |s.lanes| && t < |s.lanes[l].tasks|
    && var task := s.lanes[l].tasks[t];
       if a.Start? then !task.started && task.next < |task.batch| && RunningTasks(s.lanes[l].tasks) < s.lanes[l].workers
       else
         && task.Running()
         && match a
            case Refuse => task.phase.Ready?
            case Hit => (task.phase.Ready? || (task.phase.Waiting? && task.phase.left > 0)) && Key(task) in s.cache
            case Miss => task.phase.Ready? && Key(task) !in s.cache
            case Claim => task.phase.Missed? && Unclaimed(s, task)
            case TakeOver => task.phase.Missed? && !Unclaimed(s, task)
            case Bypass => task.phase.Missed?
            case Blocked => task.phase.Missed? && !Unclaimed(s, task)
            case LookAgain => task.phase.Waiting? && task.phase.left > 0 && Key(task) !in s.cache
            case GiveUp => task.phase.Missed? || (task.phase.Waiting? && task.phase.left == 0)
            case Succeed => task.phase.Calling?
            case Fail => task.phase.Calling?
            case FailHeld => task.phase.Calling?
            case Release => task.phase.Stored?
            case ReleaseFails => task.phase.Stored?
  }

  function Acted(task: Task, a: Action): (r: Task)
  {
    match a
    case Start => task.(started := true)
    case Miss => task.(phase := Missed)
    case Claim => task.(phase := Calling(true))
    case TakeOver => task.(phase := Calling(true))
    case Bypass => task.(phase := Calling(false))
    case Blocked => task.(phase := Waiting(LOOKUPS))
    case LookAgain =>
      task.(phase := Waiting(if task.phase.Waiting? && task.phase.left > 0 then task.phase.left - 1 else 0))
    case Succeed => if task.phase == Calling(true) then task.(phase := Stored) else task.Onwards()
    case _ => task.Onwards()
  }

  // The claims after an action of the task at this row.
  function Claimed(claims: map<string, int>, row: Row, a: Action): (claims': map<string, int>)
  {
    if a.Claim? || a.TakeOver? then claims[row.key := row.id]
    else if (a.Fail? || a.Release?) && row.key in claims && claims[row.key] == row.id then claims - {row.key}
    else claims
  }

  function WithTask(s: State, l: nat, t: nat, task: Task): (r: State)
    requires l < |s.lanes| && t < |s.lanes[l].tasks|
  {
    s.(lanes := s.lanes[l := s.lanes[l].(tasks := s.lanes[l].tasks[t := task])])
  }

  function Apply(s: State, l: nat, t: nat, a: Action): (s': State)
    requires Enabled(s, l, t, a)
  {
    var task := s.lanes[l].tasks[t];
    var moved := WithTask(s, l, t, Acted(task, a)).(claims := Claimed(s.claims, task.batch[task.next], a));
    if a.Succeed? then moved.(cache := moved.cache + {Key(task)}, wins := moved.wins + multiset{(l, Key(task))})
    else moved
  }

  // Two batches of a lane share no key, but for keys in known.
  predicate DisjointBut(l: Lane, known: set<string>)
  {
    forall a, b, i, j :: 0 <= a < b < |l.tasks| && 0 <= i < |l.tasks[a].batch| && 0 <= j < |l.tasks[b].batch| ==>
      l.tasks[a].batch[i].key != l.tasks[b].batch[j].key || l.tasks[a].batch[i].key in known
  }

  // A lane cannot race itself: it has one thread, or what its batches share is cached already.
  predicate Quiet(l: Lane, known: set<string>) { l.workers == 1 || DisjointBut(l, known) }

  // No lane is over its thread count, whatever its batches.
  predicate Sound(s: State)
  {
    && (forall l, t :: 0 <= l < |s.lanes| && 0 <= t < |s.lanes[l].tasks| ==> s.lanes[l].tasks[t].Valid())
    && (forall l :: 0 <= l < |s.lanes| ==> RunningTasks(s.lanes[l].tasks) <= s.lanes[l].workers)
  }

  // The invariant of a quiet lane l over a cycle that began with the cache known: at most one
  // success per key, every success cached, and between a task's cache miss and the end of its call
  // the lane has not yet succeeded on that key.
  ghost predicate Safe(s: State, known: set<string>, l: nat)
    requires l < |s.lanes|
  {
    && Sound(s) && known <= s.cache && Quiet(s.lanes[l], known)
    && (forall k: string :: s.wins[(l, k)] <= 1 && (s.wins[(l, k)] == 1 ==> k in s.cache && k !in known))
    && (forall t :: 0 <= t < |s.lanes[l].tasks| && s.lanes[l].tasks[t].Pending() ==>
          s.wins[(l, Key(s.lanes[l].tasks[t]))] == 0 && Key(s.lanes[l].tasks[t]) !in known)
  }

  lemma ApplyKeepsBatches(s: State, l: nat, t: nat, a: Action)
    requires Enabled(s, l, t, a)
    ensures var s' := Apply(s, l, t, a);
            && |s'.lanes| == |s.lanes|
            && (forall m :: 0 <= m < |s.lanes| ==>
                  s'.lanes[m].workers == s.lanes[m].workers && |s'.lanes[m].tasks| == |s.lanes[m].tasks|)
            && (forall m, u :: 0 <= m < |s.lanes| && 0 <= u < |s.lanes[m].tasks| ==>
                  s'.lanes[m].tasks[u] == if m == l && u == t then Acted(s.lanes[l].tasks[t], a)
                      else s.lanes[m].tasks[u])
            && (forall m, u :: 0 <= m < |s.lanes| && 0 <= u < |s.lanes[m].tasks| ==>
                  s'.lanes[m].tasks[u].batch == s.lanes[m].tasks[u].batch)
  {
  }

  lemma {:induction false} RunningUpdated(tasks: seq<Task>, t: nat, task: Task)
    requires t < |tasks|
    ensures RunningTasks(tasks[t := task]) + (if tasks[t].Running() then 1 else 0)
         == RunningTasks(tasks) + (if task.Running() then 1 else 0)
    decreases |tasks|
  {
    if t == 0 {
      assert tasks[t := task][1..] == tasks[1..];
    } else {
      assert tasks[t := task][1..] == tasks[1..][t - 1 := task];
      RunningUpdated(tasks[1..], t - 1, task);
    }
  }

  lemma {:induction false} RunningCounts(tasks: seq<Task>, t: nat)
    requires t < |tasks| && tasks[t].Running()
    ensures RunningTasks(tasks) >= 1
    decreases |tasks|
  {
    if t > 0 { RunningCounts(tasks[1..], t - 1); }
  }

  lemma {:induction false} TwoRunning(tasks: seq<Task>, t: nat, u: nat)
    requires t < u < |tasks| && tasks[t].Running() && tasks[u].Running()
    ensures RunningTasks(tasks) >= 2
    decreases |tasks|
  {
    if t > 0 { TwoRunning(tasks[1..], t - 1, u - 1); } else { RunningCounts(tasks[1..], u - 1); }
  }

  // Two tasks of a quiet lane at model calls are at different keys.
  lemma OtherKeysDiffer(s: State, known: set<string>, l: nat, t: nat, u: nat)
    requires l < |s.lanes| && Safe(s, known, l)
    requires t < |s.lanes[l].tasks| && u < |s.lanes[l].tasks| && t != u
    requires s.lanes[l].tasks[t].Pending() && s.lanes[l].tasks[u].Pending()
    ensures Key(s.lanes[l].tasks[t]) != Key(s.lanes[l].tasks[u])
  {
    var lane := s.lanes[l];
    if lane.workers == 1 {
      TwoRunning(lane.tasks, if t < u then t else u, if t < u then u else t);
    }
  }

  lemma StepIsSound(s: State, l: nat, t: nat, a: Action)
    requires Sound(s) && Enabled(s, l, t, a)
    ensures Sound(Apply(s, l, t, a))
  {
    ApplyKeepsBatches(s, l, t, a);
    RunningUpdated(s.lanes[l].tasks, t, Acted(s.lanes[l].tasks[t], a));
  }

  lemma StepKeepsQuiet(s: State, l: nat, t: nat, a: Action, known: set<string>, m: nat)
    requires Enabled(s, l, t, a) && m < |s.lanes| && Quiet(s.lanes[m], known)
    ensures Quiet(Apply(s, l, t, a).lanes[m], known)
  {
    ApplyKeepsBatches(s, l, t, a);
  }

  // Every step, of whichever lane, keeps it.
  lemma StepIsSafe(s: State, known: set<string>, m: nat, l: nat, t: nat, a: Action)
    requires m < |s.lanes| && Safe(s, known, m) && Enabled(s, l, t, a)
    ensures Safe(Apply(s, l, t, a), known, m)
  {
    var s' := Apply(s, l, t, a);
    ApplyKeepsBatches(s, l, t, a);
    StepIsSound(s, l, t, a);
    StepKeepsQuiet(s, l, t, a, known, m);
    forall u | 0 <= u < |s'.lanes[m].tasks| && s'.lanes[m].tasks[u].Pending()
      ensures s'.wins[(m, Key(s'.lanes[m].tasks[u]))] == 0 && Key(s'.lanes[m].tasks[u]) !in known
    {
      if m == l && u != t && a.Succeed? { OtherKeysDiffer(s, known, l, t, u); }
    }
  }

  // ----- Runs -----

  datatype Move = Move(lane: nat, task: nat, action: Action)

  predicate Legal(s: State, moves: seq<Move>)
    decreases |moves|
  {
    moves == [] ||
    (Enabled(s, moves[0].lane, moves[0].task, moves[0].action) &&
     Legal(Apply(s, moves[0].lane, moves[0].task, moves[0].action), moves[1..]))
  }

  function After(s: State, moves: seq<Move>): (s': State)
    requires Legal(s, moves)
    decreases |moves|
  {
    if moves == [] then s else After(Apply(s, moves[0].lane, moves[0].task, moves[0].action), moves[1..])
  }

  lemma {:induction false} NoneRunning(tasks: seq<Task>)
    requires forall t :: 0 <= t < |tasks| ==> !tasks[t].Running()
    ensures RunningTasks(tasks) == 0
    decreases |tasks|
  {
    if tasks != [] { NoneRunning(tasks[1..]); }
  }

  lemma InitialIsSound(s: State)
    requires Initial(s)
    ensures Sound(s)
  {
    forall l | 0 <= l < |s.lanes| ensures RunningTasks(s.lanes[l].tasks) <= s.lanes[l].workers {
      NoneRunning(s.lanes[l].tasks);
    }
  }

  lemma {:induction false} RunIsSound(s: State, moves: seq<Move>)
    requires Sound(s) && Legal(s, moves)
    ensures var s' := After(s, moves);
            && Sound(s') && |s'.lanes| == |s.lanes|
            && (forall l :: 0 <= l < |s.lanes| ==> s'.lanes[l].workers == s.lanes[l].workers)
    decreases |moves|
  {
    if moves != [] {
      var m := moves[0];
      ApplyKeepsBatches(s, m.lane, m.task, m.action);
      StepIsSound(s, m.lane, m.task, m.action);
      RunIsSound(Apply(s, m.lane, m.task, m.action), moves[1..]);
    }
  }

  lemma {:induction false} RunIsSafe(s: State, known: set<string>, l: nat, moves: seq<Move>)
    requires l < |s.lanes| && Safe(s, known, l) && Legal(s, moves)
    ensures l < |After(s, moves).lanes| && Safe(After(s, moves), known, l)
    decreases |moves|
  {
    if moves != [] {
      var m := moves[0];
      ApplyKeepsBatches(s, m.lane, m.task, m.action);
      StepIsSafe(s, known, l, m.lane, m.task, m.action);
      RunIsSafe(Apply(s, m.lane, m.task, m.action), known, l, moves[1..]);
    }
  }

  // Whatever the interleaving, a quiet lane successfully extracts a body at most once, and a
  // cached one never.
  lemma OneSuccessPerLane(s: State, moves: seq<Move>, l: nat, key: string)
    requires Initial(s) && l < |s.lanes| && Quiet(s.lanes[l], s.cache) && Legal(s, moves)
    ensures After(s, moves).wins[(l, key)] <= 1
    ensures key in s.cache ==> After(s, moves).wins[(l, key)] == 0
  {
    InitialIsSound(s);
    RunIsSafe(s, s.cache, l, moves);
  }

  // ----- Every run ends with every row handled -----

  function Progress(p: Phase): (n: int)
  {
    match p
    case Ready => 0
    case Missed => 1
    case Waiting(left) => 2 + LOOKUPS - left
    case Calling(_) => 2
    case Stored => 3
  }

  function TaskWork(t: Task): (n: int)
  {
    (if t.started then 0 else 1) + 8 * (|t.batch| - t.next) - Progress(t.phase)
  }

  function LaneSum(tasks: seq<Task>, f: Task -> int): (n: int)
  {
    if tasks == [] then 0 else f(tasks[0]) + LaneSum(tasks[1..], f)
  }

  function Sum(lanes: seq<Lane>, f: Task -> int): (n: int)
  {
    if lanes == [] then 0 else LaneSum(lanes[0].tasks, f) + Sum(lanes[1..], f)
  }

  lemma {:induction false} LaneSumUpdated(tasks: seq<Task>, t: nat, task: Task, f: Task -> int)
    requires t < |tasks|
    ensures LaneSum(tasks[t := task], f) - LaneSum(tasks, f) == f(task) - f(tasks[t])
    decreases |tasks|
  {
    if t == 0 {
      assert tasks[t := task][1..] == tasks[1..];
    } else {
      assert tasks[t := task][1..] == tasks[1..][t - 1 := task];
      LaneSumUpdated(tasks[1..], t - 1, task, f);
    }
  }

  lemma {:induction false} SumUpdated(lanes: seq<Lane>, l: nat, lane: Lane, f: Task -> int)
    requires l < |lanes|
    ensures Sum(lanes[l := lane], f) - Sum(lanes, f) == LaneSum(lane.tasks, f) - LaneSum(lanes[l].tasks, f)
    decreases |lanes|
  {
    if l == 0 {
      assert lanes[l := lane][1..] == lanes[1..];
    } else {
      assert lanes[l := lane][1..] == lanes[1..][l - 1 := lane];
      SumUpdated(lanes[1..], l - 1, lane, f);
    }
  }

  // A step changes a sum over the tasks by what it does to its own task.
  lemma SumStep(s: State, l: nat, t: nat, a: Action, f: Task -> int)
    requires Enabled(s, l, t, a)
    ensures var task := s.lanes[l].tasks[t];
            Sum(Apply(s, l, t, a).lanes, f) == Sum(s.lanes, f) + f(Acted(task, a)) - f(task)
  {
    var task := s.lanes[l].tasks[t];
    LaneSumUpdated(s.lanes[l].tasks, t, Acted(task, a), f);
    SumUpdated(s.lanes, l, s.lanes[l].(tasks := s.lanes[l].tasks[t := Acted(task, a)]), f);
  }

  function Work(lanes: seq<Lane>): (n: int) { Sum(lanes, TaskWork) }

  lemma StepDoesWork(s: State, l: nat, t: nat, a: Action)
    requires Enabled(s, l, t, a)
    ensures Work(Apply(s, l, t, a).lanes) < Work(s.lanes)
  {
    SumStep(s, l, t, a, TaskWork);
  }

  lemma {:induction false} WorkIsNatural(lanes: seq<Lane>)
    requires forall l, t :: 0 <= l < |lanes| && 0 <= t < |lanes[l].tasks| ==> lanes[l].tasks[t].Valid()
    ensures Work(lanes) >= 0
    decreases |lanes|
  {
    if lanes != [] {
      LaneWorkIsNatural(lanes[0].tasks);
      WorkIsNatural(lanes[1..]);
    }
  }

  lemma {:induction false} LaneWorkIsNatural(tasks: seq<Task>)
    requires forall t :: 0 <= t < |tasks| ==> tasks[t].Valid()
    ensures LaneSum(tasks, TaskWork) >= 0
    decreases |tasks|
  {
    if tasks != [] { LaneWorkIsNatural(tasks[1..]); }
  }

  // No interleaving runs on for ever.
  lemma {:induction false} RunsAreBounded(s: State, moves: seq<Move>)
    requires Sound(s) && Legal(s, moves)
    ensures |moves| <= Work(s.lanes)
    decreases |moves|
  {
    if moves == [] {
      WorkIsNatural(s.lanes);
    } else {
      var m := moves[0];
      StepIsSound(s, m.lane, m.task, m.action);
      StepDoesWork(s, m.lane, m.task, m.action);
      RunsAreBounded(Apply(s, m.lane, m.task, m.action), moves[1..]);
    }
  }

  predicate Finished(s: State)
  {
    forall l, t :: 0 <= l < |s.lanes| && 0 <= t < |s.lanes[l].tasks| ==> s.lanes[l].tasks[t].Done()
  }

  // Something a running task can always do.
  function Forward(s: State, task: Task): (a: Action)
    requires task.Running()
  {
    match task.phase
    case Ready => Refuse
    case Missed => GiveUp
    case Waiting(left) => if left == 0 then GiveUp else if Key(task) in s.cache then Hit else LookAgain
    case Calling(_) => Fail
    case Stored => Release
  }

  // And none gets stuck: while a row is left some thread can move.
  lemma SomeoneCanMove(s: State) returns (m: Move)
    requires Sound(s) && !Finished(s)
    requires forall l :: 0 <= l < |s.lanes| ==> s.lanes[l].workers >= 1
    ensures Enabled(s, m.lane, m.task, m.action)
  {
    var l, t :| 0 <= l < |s.lanes| && 0 <= t < |s.lanes[l].tasks| && !s.lanes[l].tasks[t].Done();
    var tasks := s.lanes[l].tasks;
    if u :| 0 <= u < |tasks| && tasks[u].Running() {
      m := Move(l, u, Forward(s, tasks[u]));
    } else {
      NoneRunning(tasks);
      m := Move(l, t, Start);
    }
  }

  // ----- A cycle -----

  // The lanes that have slots, each with its own pool.
  function CycleStart(plan: Slots, fast: seq<seq<Row>>, backlog: seq<seq<Row>>, cache: set<string>,
                      claims: map<string, int>): (s: State)
  {
    State((if plan.fast > 0 then [NewLane(plan.fast, fast)] else []) +
          (if plan.backlog > 0 then [NewLane(plan.backlog, backlog)] else []), cache, claims, multiset{})
  }

  lemma CycleIsQuiet(plan: Slots, fast: seq<seq<Row>>, backlog: seq<seq<Row>>, cache: set<string>,
                     claims: map<string, int>, l: nat)
    requires KeyDisjoint(fast) && KeyDisjoint(backlog) && l < |CycleStart(plan, fast, backlog, cache, claims).lanes|
    ensures var s := CycleStart(plan, fast, backlog, cache, claims);
            Initial(s) && |s.lanes| <= 2 && Quiet(s.lanes[l], cache) && s.lanes[l].workers >= 1
  {
  }

  function TotalRunning(lanes: seq<Lane>): (n: nat)
  {
    if lanes == [] then 0 else RunningTasks(lanes[0].tasks) + TotalRunning(lanes[1..])
  }

  // For any settings and any interleaving of a cycle over exact-copy batches: a body is
  // successfully extracted at most once per lane, so at most twice per cycle, and not at all when
  // it was cached.
  lemma CycleExtractsOnce(plan: Slots, fast: seq<seq<Row>>, backlog: seq<seq<Row>>, cache: set<string>,
                          claims: map<string, int>, moves: seq<Move>, l: nat, key: string)
    requires KeyDisjoint(fast) && KeyDisjoint(backlog) && Legal(CycleStart(plan, fast, backlog, cache, claims), moves)
    ensures var wins := After(CycleStart(plan, fast, backlog, cache, claims), moves).wins;
            wins[(l, key)] <= (if key in cache || l >= 2 then 0 else 1)
  {
    var s := CycleStart(plan, fast, backlog, cache, claims);
    if l < |s.lanes| {
      CycleIsQuiet(plan, fast, backlog, cache, claims, l);
      OneSuccessPerLane(s, moves, l, key);
    } else {
      NoLaneNoWins(s, moves, l, key);
    }
  }

  lemma {:induction false} NoLaneNoWins(s: State, moves: seq<Move>, l: nat, key: string)
    requires Legal(s, moves) && l >= |s.lanes|
    ensures After(s, moves).wins[(l, key)] == s.wins[(l, key)]
    decreases |moves|
  {
    if moves != [] {
      NoLaneNoWins(Apply(s, moves[0].lane, moves[0].task, moves[0].action), moves[1..], l, key);
    }
  }

  // The handlers at work never exceed the configured pool, and that never exceeds 100, for any
  // lane settings, any batches and any interleaving.
  lemma HandlersAreBounded(configured: int, fastSetting: Option<int>, backlogSetting: Option<int>, fast: seq<seq<Row>>,
                           backlog: seq<seq<Row>>, cache: set<string>, claims: map<string, int>, moves: seq<Move>)
    requires Legal(CycleStart(SlotPlan(configured, fastSetting, backlogSetting), fast, backlog, cache, claims), moves)
    ensures var plan := SlotPlan(configured, fastSetting, backlogSetting);
            TotalRunning(After(CycleStart(plan, fast, backlog, cache, claims), moves).lanes) <= plan.concurrency <= 100
  {
    var plan := SlotPlan(configured, fastSetting, backlogSetting);
    var s := CycleStart(plan, fast, backlog, cache, claims);
    InitialIsSound(s);
    RunIsSound(s, moves);
    SlotsAreBounded(configured, fastSetting, backlogSetting);
    RunningWithinWorkers(After(s, moves).lanes, s.lanes);
    CycleWorkers(plan, fast, backlog, cache, claims);
  }

  function TotalWorkers(lanes: seq<Lane>): (n: nat)
  {
    if lanes == [] then 0 else lanes[0].workers + TotalWorkers(lanes[1..])
  }

  lemma {:induction false} RunningWithinWorkers(lanes: seq<Lane>, pools: seq<Lane>)
    requires |lanes| == |pools|
    requires forall l :: 0 <= l < |lanes| ==> RunningTasks(lanes[l].tasks) <= lanes[l].workers == pools[l].workers
    ensures TotalRunning(lanes) <= TotalWorkers(pools)
    decreases |lanes|
  {
    if lanes != [] { RunningWithinWorkers(lanes[1..], pools[1..]); }
  }

  lemma CycleWorkers(plan: Slots, fast: seq<seq<Row>>, backlog: seq<seq<Row>>, cache: set<string>,
                     claims: map<string, int>)
    requires plan.fast >= 0 && plan.backlog >= 0
    ensures TotalWorkers(CycleStart(plan, fast, backlog, cache, claims).lanes) <= plan.fast + plan.backlog
  {
    var f, b := NewLane(plan.fast, fast), NewLane(plan.backlog, backlog);
    assert TotalWorkers([f]) == f.workers && TotalWorkers([b]) == b.workers;
    assert [f] + [b] == [f, b] && [f, b][1..] == [b];
    assert TotalWorkers([f, b]) == f.workers + b.workers;
  }

  // ----- When a lane can race itself -----

  lemma {:induction false} LegalConcat(s: State, a: seq<Move>, b: seq<Move>)
    requires Legal(s, a) && Legal(After(s, a), b)
    ensures Legal(s, a + b) && After(s, a + b) == After(After(s, a), b)
    decreases |a|
  {
    if a == [] {
      assert a + b == b;
    } else {
      assert (a + b)[1..] == a[1..] + b;
      LegalConcat(Apply(s, a[0].lane, a[0].task, a[0].action), a[1..], b);
    }
  }

  // The state of a task set apart: it stands at row n, and nothing else has changed.
  function Standing(s: State, l: nat, t: nat, n: nat): (s': State)
    requires l < |s.lanes| && t < |s.lanes[l].tasks|
  {
    WithTask(s, l, t, Task(s.lanes[l].tasks[t].batch, true, n, Ready))
  }

  // No claim is taken over from another row, and none is done without.
  predicate Claiming(moves: seq<Move>)
  {
    forall k :: 0 <= k < |moves| ==> !moves[k].action.TakeOver? && !moves[k].action.Bypass?
  }

  lemma OneMove(s: State, m: Move)
    requires Enabled(s, m.lane, m.task, m.action)
    ensures Legal(s, [m]) && After(s, [m]) == Apply(s, m.lane, m.task, m.action)
  {
    assert [m][1..] == [];
  }

  // One move more at the end of a run.
  lemma Extended(s: State, moves: seq<Move>, m: Move) returns (s': State)
    requires Legal(s, moves) && Enabled(After(s, moves), m.lane, m.task, m.action)
    ensures Legal(s, moves + [m]) && After(s, moves + [m]) == s' == Apply(After(s, moves), m.lane, m.task, m.action)
  {
    OneMove(After(s, moves), m);
    LegalConcat(s, moves, [m]);
    s' := After(s, moves + [m]);
  }

  // A started task can be brought to any of its rows without touching the cache.
  lemma {:induction false} Skip(s: State, l: nat, t: nat, n: nat) returns (moves: seq<Move>)
    requires l < |s.lanes| && t < |s.lanes[l].tasks| && n < |s.lanes[l].tasks[t].batch|
    ensures Legal(Standing(s, l, t, 0), moves) && After(Standing(s, l, t, 0), moves) == Standing(s, l, t, n)
    ensures Claiming(moves)
  {
    if n == 0 {
      moves := [];
    } else {
      var before := Skip(s, l, t, n - 1);
      SkipOne(s, l, t, n - 1);
      var there := Extended(Standing(s, l, t, 0), before, Move(l, t, Refuse));
      moves := before + [Move(l, t, Refuse)];
    }
  }

  lemma SkipOne(s: State, l: nat, t: nat, n: nat)
    requires l < |s.lanes| && t < |s.lanes[l].tasks| && n + 1 < |s.lanes[l].tasks[t].batch|
    ensures Enabled(Standing(s, l, t, n), l, t, Refuse)
    ensures Apply(Standing(s, l, t, n), l, t, Refuse) == Standing(s, l, t, n + 1)
  {
    var there := Apply(Standing(s, l, t, n), l, t, Refuse);
    assert there.lanes[l].tasks == Standing(s, l, t, n + 1).lanes[l].tasks;
    assert there.lanes == Standing(s, l, t, n + 1).lanes;
  }

  // A free thread takes an idle batch and comes to its row n.
  lemma BringTo(s: State, l: nat, t: nat, n: nat) returns (moves: seq<Move>)
    requires l < |s.lanes| && t < |s.lanes[l].tasks| && n < |s.lanes[l].tasks[t].batch|
    requires s.lanes[l].tasks[t] == NewTask(s.lanes[l].tasks[t].batch) &&
             RunningTasks(s.lanes[l].tasks) < s.lanes[l].workers
    ensures Legal(s, moves) && Claiming(moves) && After(s, moves) == Standing(s, l, t, n)
  {
    var first := Move(l, t, Start);
    OneMove(s, first);
    assert Apply(s, l, t, Start) == Standing(s, l, t, 0);
    var rest := Skip(s, l, t, n);
    LegalConcat(s, [first], rest);
    moves := [first] + rest;
  }

  // Two idle batches, of one lane with two free threads or of two lanes.
  predicate Rivals(s: State, l: nat, a: nat, m: nat, b: nat)
  {
    && l < |s.lanes| && m < |s.lanes| && a < |s.lanes[l].tasks| && b < |s.lanes[m].tasks|
    && s.lanes[l].workers >= 1 && s.lanes[m].workers >= 1 && (l == m ==> a != b && s.lanes[l].workers >= 2)
  }

  // If they share an uncached, unclaimed key, some interleaving extracts it twice, with every claim
  // granted in its turn. The second row misses the cache before the first one stores, and is granted
  // the claim after the first one releases it.
  lemma SharedKeyRaces(s: State, l: nat, a: nat, m: nat, b: nat, i: nat, j: nat, key: string) returns (moves: seq<Move>)
    requires Initial(s) && Rivals(s, l, a, m, b)
    requires i < |s.lanes[l].tasks[a].batch| && j < |s.lanes[m].tasks[b].batch|
    requires s.lanes[l].tasks[a].batch[i].key == key == s.lanes[m].tasks[b].batch[j].key
    requires key !in s.cache && key !in s.claims
    ensures Legal(s, moves) && Claiming(moves) && After(s, moves).wins == multiset{(l, key), (m, key)}
  {
    var brought := BothBrought(s, l, a, m, b, i, j);
    var race := BothWin(Standing(Standing(s, l, a, i), m, b, j), l, a, m, b, key);
    LegalConcat(s, brought, race);
    moves := brought + race;
  }

  predicate Waits(s: State, l: nat, t: nat, key: string, phase: Phase)
  {
    && l < |s.lanes| && t < |s.lanes[l].tasks| && s.lanes[l].tasks[t].Running()
    && Key(s.lanes[l].tasks[t]) == key && s.lanes[l].tasks[t].phase == phase
  }

  // A row that missed the cache is granted the free claim, stores its result and releases the claim;
  // another one that waits does not notice.
  lemma WinsAlone(s: State, l: nat, t: nat, m: nat, u: nat, key: string, phase: Phase) returns (moves: seq<Move>)
    requires Waits(s, l, t, key, Missed) && key !in s.claims && Waits(s, m, u, key, phase) && (l == m ==> t != u)
    ensures Legal(s, moves) && Claiming(moves)
    ensures var s' := After(s, moves);
            key !in s'.claims && s'.wins == s.wins + multiset{(l, key)} && Waits(s', m, u, key, phase)
  {
    moves := [Move(l, t, Claim)];
    OneMove(s, Move(l, t, Claim));
    var s2 := Extended(s, moves, Move(l, t, Succeed));
    moves := moves + [Move(l, t, Succeed)];
    var s3 := Extended(s, moves, Move(l, t, Release));
    moves := moves + [Move(l, t, Release)];
  }

  // The last of them, with nobody waiting.
  lemma WinsLast(s: State, l: nat, t: nat, key: string) returns (moves: seq<Move>)
    requires Waits(s, l, t, key, Missed) && key !in s.claims
    ensures Legal(s, moves) && Claiming(moves) && After(s, moves).wins == s.wins + multiset{(l, key)}
  {
    OneMove(s, Move(l, t, Claim));
    var s2 := Extended(s, [Move(l, t, Claim)], Move(l, t, Succeed));
    moves := [Move(l, t, Claim)] + [Move(l, t, Succeed)];
  }

  lemma BothMiss(s: State, l: nat, a: nat, m: nat, b: nat, key: string) returns (moves: seq<Move>)
    requires (l == m ==> a != b) && Waits(s, l, a, key, Ready) && Waits(s, m, b, key, Ready) && key !in s.cache
    ensures Legal(s, moves) && Claiming(moves)
    ensures var s' := After(s, moves);
            Waits(s', l, a, key, Missed) && Waits(s', m, b, key, Missed) && s'.claims == s.claims && s'.wins == s.wins
  {
    OneMove(s, Move(l, a, Miss));
    var s' := Extended(s, [Move(l, a, Miss)], Move(m, b, Miss));
    moves := [Move(l, a, Miss)] + [Move(m, b, Miss)];
  }

  lemma InTurn(s: State, l: nat, a: nat, m: nat, b: nat, key: string) returns (moves: seq<Move>)
    requires (l == m ==> a != b) && Waits(s, l, a, key, Missed) && Waits(s, m, b, key, Missed) && key !in s.claims
    ensures Legal(s, moves) && Claiming(moves)
    ensures After(s, moves).wins == s.wins + multiset{(l, key)} + multiset{(m, key)}
  {
    var first := WinsAlone(s, l, a, m, b, key, Missed);
    var second := WinsLast(After(s, first), m, b, key);
    LegalConcat(s, first, second);
    moves := first + second;
  }

  lemma BothWin(s: State, l: nat, a: nat, m: nat, b: nat, key: string) returns (moves: seq<Move>)
    requires (l == m ==> a != b) && Waits(s, l, a, key, Ready) && Waits(s, m, b, key, Ready)
    requires key !in s.cache && key !in s.claims && s.wins == multiset{}
    ensures Legal(s, moves) && Claiming(moves) && After(s, moves).wins == multiset{(l, key), (m, key)}
  {
    var start := BothMiss(s, l, a, m, b, key);
    var rest := InTurn(After(s, start), l, a, m, b, key);
    LegalConcat(s, start, rest);
    moves := start + rest;
  }

  // Both tasks stand at the rows that share the key.
  lemma BothBrought(s: State, l: nat, a: nat, m: nat, b: nat, i: nat, j: nat) returns (moves: seq<Move>)
    requires Initial(s) && Rivals(s, l, a, m, b)
    requires i < |s.lanes[l].tasks[a].batch| && j < |s.lanes[m].tasks[b].batch|
    ensures Legal(s, moves) && Claiming(moves) && After(s, moves) == Standing(Standing(s, l, a, i), m, b, j)
  {
    NoneRunning(s.lanes[l].tasks);
    NoneRunning(s.lanes[m].tasks);
    var toA := BringTo(s, l, a, i);
    var s2 := Standing(s, l, a, i);
    RunningUpdated(s.lanes[l].tasks, a, s2.lanes[l].tasks[a]);
    var toB := BringTo(s2, m, b, j);
    LegalConcat(s, toA, toB);
    moves := toA + toB;
  }

  ghost predicate NeverTwice(s: State, l: nat)
  {
    forall moves: seq<Move>, key: string :: Legal(s, moves) ==> After(s, moves).wins[(l, key)] <= 1
  }

  // The same over the runs in which every call holds a claim that was free.
  ghost predicate NeverTwiceClaiming(s: State, l: nat)
  {
    forall moves: seq<Move>, key: string ::
      Legal(s, moves) && Claiming(moves) ==> After(s, moves).wins[(l, key)] <= 1
  }

  // A lane extracts no body twice, in any interleaving, exactly when it has one thread or its
  // batches share no key that is not cached yet: the shared claim makes no other lane safe, and
  // doing without it makes none unsafe. Batches by exact copy qualify; batches by chat
  // (SERIALIZE_GROUPS) do so only when no body was posted to two chats.
  lemma NeverTwiceIff(s: State, l: nat)
    requires Initial(s) && s.claims == map[] && l < |s.lanes| && s.lanes[l].workers >= 1
    ensures NeverTwice(s, l) <==> Quiet(s.lanes[l], s.cache)
    ensures NeverTwiceClaiming(s, l) <==> Quiet(s.lanes[l], s.cache)
  {
    if Quiet(s.lanes[l], s.cache) {
      forall moves: seq<Move>, key: string | Legal(s, moves) ensures After(s, moves).wins[(l, key)] <= 1 {
        OneSuccessPerLane(s, moves, l, key);
      }
    } else {
      var tasks := s.lanes[l].tasks;
      var a, b, i, j :| 0 <= a < b < |tasks| && 0 <= i < |tasks[a].batch| && 0 <= j < |tasks[b].batch| &&
        tasks[a].batch[i].key == tasks[b].batch[j].key && tasks[a].batch[i].key !in s.cache;
      var moves := SharedKeyRaces(s, l, a, l, b, i, j, tasks[a].batch[i].key);
    }
  }

  // The incident-debugging mode batches by chat: one body in two chats is one such case.
  lemma SerializedGroupsCanRepeat(k: string)
    ensures var lane := NewLane(2, [[Row(1, "t", k, "g1")], [Row(2, "t", k, "g2")]]);
            !NeverTwiceClaiming(State([lane], {}, map[], multiset{}), 0)
  {
    var lane := NewLane(2, [[Row(1, "t", k, "g1")], [Row(2, "t", k, "g2")]]);
    var s := State([lane], {}, map[], multiset{});
    assert lane.tasks[0].batch[0].key == lane.tasks[1].batch[0].key;
    assert !DisjointBut(lane, {});
    NeverTwiceIff(s, 0);
  }

  // ----- A cycle that extracts nothing twice -----

  lemma {:induction false} NoKeyNoWins(s: State, moves: seq<Move>, l: nat, key: string)
    requires Legal(s, moves) && l < |s.lanes| && LacksKey(s.lanes[l], key)
    ensures After(s, moves).wins[(l, key)] == s.wins[(l, key)]
    decreases |moves|
  {
    if moves != [] {
      var m := moves[0];
      var s' := Apply(s, m.lane, m.task, m.action);
      ApplyKeepsBatches(s, m.lane, m.task, m.action);
      assert forall t :: 0 <= t < |s'.lanes[l].tasks| ==> s'.lanes[l].tasks[t].batch == s.lanes[l].tasks[t].batch;
      NoKeyNoWins(s', moves[1..], l, key);
    }
  }

  predicate LacksKey(lane: Lane, key: string)
  {
    forall t, i :: 0 <= t < |lane.tasks| && 0 <= i < |lane.tasks[t].batch| ==> lane.tasks[t].batch[i].key != key
  }

  ghost predicate CycleNeverTwice(s: State)
  {
    forall moves: seq<Move>, key: string ::
      Legal(s, moves) ==> After(s, moves).wins[(0, key)] + After(s, moves).wins[(1, key)] <= 1
  }

  ghost predicate CycleNeverTwiceClaiming(s: State)
  {
    forall moves: seq<Move>, key: string ::
      Legal(s, moves) && Claiming(moves) ==> After(s, moves).wins[(0, key)] + After(s, moves).wins[(1, key)] <= 1
  }

  // What stands in both lanes is cached.
  predicate LanesApart(fast: seq<seq<Row>>, backlog: seq<seq<Row>>, cache: set<string>)
  {
    forall a, b, i, j :: 0 <= a < |fast| && 0 <= b < |backlog| && 0 <= i < |fast[a]| && 0 <= j < |backlog[b]| ==>
      fast[a][i].key != backlog[b][j].key || fast[a][i].key in cache
  }

  // Two lanes that share no uncached key: the one that lacks the key never wins it.
  lemma ApartExtractOnce(plan: Slots, fast: seq<seq<Row>>, backlog: seq<seq<Row>>, cache: set<string>,
                         moves: seq<Move>, key: string)
    requires KeyDisjoint(fast) && KeyDisjoint(backlog) && Legal(CycleStart(plan, fast, backlog, cache, map[]), moves)
    requires plan.fast <= 0 || plan.backlog <= 0 || LanesApart(fast, backlog, cache)
    ensures var wins := After(CycleStart(plan, fast, backlog, cache, map[]), moves).wins;
            wins[(0, key)] + wins[(1, key)] <= 1
  {
    var s := CycleStart(plan, fast, backlog, cache, map[]);
    CycleExtractsOnce(plan, fast, backlog, cache, map[], moves, 0, key);
    CycleExtractsOnce(plan, fast, backlog, cache, map[], moves, 1, key);
    if |s.lanes| <= 1 {
      NoLaneNoWins(s, moves, 1, key);
    } else if key !in cache {
      OneLaneLacks(fast, backlog, cache, plan, key);
      NoKeyNoWins(s, moves, if LacksKey(s.lanes[0], key) then 0 else 1, key);
    }
  }

  lemma OneLaneLacks(fast: seq<seq<Row>>, backlog: seq<seq<Row>>, cache: set<string>, plan: Slots, key: string)
    requires LanesApart(fast, backlog, cache) && key !in cache && plan.fast > 0 && plan.backlog > 0
    ensures LacksKey(NewLane(plan.fast, fast), key) || LacksKey(NewLane(plan.backlog, backlog), key)
  {
  }

  lemma CycleRace(plan: Slots, fast: seq<seq<Row>>, backlog: seq<seq<Row>>, cache: set<string>,
                  a: nat, b: nat, i: nat, j: nat) returns (moves: seq<Move>)
    requires plan.fast > 0 && plan.backlog > 0 && a < |fast| && b < |backlog| && i < |fast[a]| && j < |backlog[b]|
    requires fast[a][i].key == backlog[b][j].key && fast[a][i].key !in cache
    ensures var s := CycleStart(plan, fast, backlog, cache, map[]);
            && Legal(s, moves) && Claiming(moves)
            && After(s, moves).wins == multiset{(0, fast[a][i].key), (1, fast[a][i].key)}
  {
    var s := CycleStart(plan, fast, backlog, cache, map[]);
    assert s.lanes == [NewLane(plan.fast, fast), NewLane(plan.backlog, backlog)];
    moves := SharedKeyRaces(s, 0, a, 1, b, i, j, fast[a][i].key);
  }

  // A cycle over exact-copy batches extracts no body twice, in any interleaving, exactly when only one
  // lane runs or no uncached body stands in both. Otherwise some interleaving extracts it twice with
  // every claim granted in its turn, so that the bound of two in a cycle is attained.
  lemma CycleNeverTwiceIff(plan: Slots, fast: seq<seq<Row>>, backlog: seq<seq<Row>>, cache: set<string>)
    requires KeyDisjoint(fast) && KeyDisjoint(backlog)
    ensures var s, apart := CycleStart(plan, fast, backlog, cache, map[]), LanesApart(fast, backlog, cache);
            && (CycleNeverTwice(s) <==> plan.fast <= 0 || plan.backlog <= 0 || apart)
            && (CycleNeverTwiceClaiming(s) <==> plan.fast <= 0 || plan.backlog <= 0 || apart)
  {
    var s := CycleStart(plan, fast, backlog, cache, map[]);
    if plan.fast <= 0 || plan.backlog <= 0 || LanesApart(fast, backlog, cache) {
      forall moves: seq<Move>, key: string | Legal(s, moves)
        ensures After(s, moves).wins[(0, key)] + After(s, moves).wins[(1, key)] <= 1
      {
        ApartExtractOnce(plan, fast, backlog, cache, moves, key);
      }
    } else {
      var a, b, i, j :| 0 <= a < |fast| && 0 <= b < |backlog| && 0 <= i < |fast[a]| && 0 <= j < |backlog[b]| &&
        fast[a][i].key == backlog[b][j].key && fast[a][i].key !in cache;
      var moves := CycleRace(plan, fast, backlog, cache, a, b, i, j);
    }
  }

  // ----- What a second extraction takes -----

  predicate ApartTasks(a: Task, b: Task)
  {
    forall i, j :: 0 <= i < |a.batch| && 0 <= j < |b.batch| ==> a.batch[i].id != b.batch[j].id
  }

  // No row is in two batches, of whichever lane.
  predicate DistinctRows(s: State)
  {
    forall l, t, m, u ::
          0 <= l < |s.lanes| && 0 <= t < |s.lanes[l].tasks| && 0 <= m < |s.lanes| && 0 <= u < |s.lanes[m].tasks| ==>
      (l == m && t == u) || ApartTasks(s.lanes[l].tasks[t], s.lanes[m].tasks[u])
  }

  predicate IsCalling(t: Task, key: string) { t.phase.Calling? && t.next < |t.batch| && Key(t) == key }

  function CallsOn(key: string): (f: Task -> int) { (t: Task) => if IsCalling(t, key) then 1 else 0 }

  // The calls in progress on a key, over all lanes.
  function Callers(s: State, key: string): (n: int) { Sum(s.lanes, CallsOn(key)) }

  // One of them holds the claim.
  predicate HolderCalls(s: State, key: string)
  {
    key in s.claims &&
    exists l, t :: 0 <= l < |s.lanes| && 0 <= t < |s.lanes[l].tasks| && IsCalling(s.lanes[l].tasks[t], key) &&
      s.lanes[l].tasks[t].batch[s.lanes[l].tasks[t].next].id == s.claims[key]
  }

  datatype Kind = Storing | LateClaim | Unheld

  // A late claim is granted when the key has been cached since the lookup missed it; an unheld call
  // goes ahead on an expired claim or on none.
  function KindOf(s: State, m: Move, key: string): (k: Option<Kind>)
    requires Enabled(s, m.lane, m.task, m.action)
  {
    if Key(s.lanes[m.lane].tasks[m.task]) != key then None else
    match m.action
    case Succeed => Some(Storing)
    case Claim => if key in s.cache then Some(LateClaim) else None
    case TakeOver => Some(Unheld)
    case Bypass => Some(Unheld)
    case _ => None
  }

  function Count(s: State, moves: seq<Move>, key: string, kind: Kind): (n: nat)
    requires Legal(s, moves)
    decreases |moves|
  {
    if moves == [] then 0 else
    (if KindOf(s, moves[0], key) == Some(kind) then 1 else 0)
    + Count(Apply(s, moves[0].lane, moves[0].task, moves[0].action), moves[1..], key, kind)
  }

  // The calls in progress are accounted for: owed is how many results may still be stored.
  predicate Accounted(s: State, key: string, owed: int)
  {
    && (key in s.cache ==> Callers(s, key) <= owed)
    && (key !in s.cache ==> owed >= 1 && Callers(s, key) <= if HolderCalls(s, key) then owed else owed - 1)
  }

  // The tasks but the one that moves, and the claim of a key nobody touches, stay as they are.
  lemma HolderStays(s: State, l: nat, t: nat, a: Action, key: string)
    requires Enabled(s, l, t, a) && HolderCalls(s, key) && !IsCalling(s.lanes[l].tasks[t], key)
    requires var claims := Apply(s, l, t, a).claims; key in claims && claims[key] == s.claims[key]
    ensures HolderCalls(Apply(s, l, t, a), key)
  {
    ApplyKeepsBatches(s, l, t, a);
    var m, u :| 0 <= m < |s.lanes| && 0 <= u < |s.lanes[m].tasks| && IsCalling(s.lanes[m].tasks[u], key) &&
      s.lanes[m].tasks[u].batch[s.lanes[m].tasks[u].next].id == s.claims[key];
    assert Apply(s, l, t, a).lanes[m].tasks[u] == s.lanes[m].tasks[u];
  }

  // The row that holds the claim of a key at a call is the only one that can free it.
  lemma HolderIsOther(s: State, l: nat, t: nat, key: string)
    requires DistinctRows(s) && HolderCalls(s, key)
    requires l < |s.lanes| && t < |s.lanes[l].tasks| && s.lanes[l].tasks[t].next < |s.lanes[l].tasks[t].batch|
    requires !IsCalling(s.lanes[l].tasks[t], key)
    ensures s.claims[key] != s.lanes[l].tasks[t].batch[s.lanes[l].tasks[t].next].id
  {
    var m, u :| 0 <= m < |s.lanes| && 0 <= u < |s.lanes[m].tasks| && IsCalling(s.lanes[m].tasks[u], key) &&
      s.lanes[m].tasks[u].batch[s.lanes[m].tasks[u].next].id == s.claims[key];
    assert ApartTasks(s.lanes[m].tasks[u], s.lanes[l].tasks[t]);
  }

  lemma NowHolds(s: State, l: nat, t: nat, a: Action)
    requires Enabled(s, l, t, a) && (a.Claim? || a.TakeOver?)
    ensures HolderCalls(Apply(s, l, t, a), Key(s.lanes[l].tasks[t]))
  {
    ApplyKeepsBatches(s, l, t, a);
    var task := Apply(s, l, t, a).lanes[l].tasks[t];
    assert IsCalling(task, Key(task));
  }

  function Owes(s: State, m: Move, key: string): (n: int)
    requires Enabled(s, m.lane, m.task, m.action)
  {
    match KindOf(s, m, key) case None => 0 case Some(kind) => if kind.Storing? then -1 else 1
  }

  lemma ClaimAccounts(s: State, m: Move, key: string, owed: int)
    requires DistinctRows(s) && Enabled(s, m.lane, m.task, m.action) && Accounted(s, key, owed)
    requires Key(s.lanes[m.lane].tasks[m.task]) == key && (m.action.Claim? || m.action.TakeOver?)
    ensures Accounted(Apply(s, m.lane, m.task, m.action), key, owed + Owes(s, m, key))
  {
    var l, t, a := m.lane, m.task, m.action;
    SumStep(s, l, t, a, CallsOn(key));
    NowHolds(s, l, t, a);
    if HolderCalls(s, key) { HolderIsOther(s, l, t, key); }
  }

  // A step that grants no claim of the key leaves a calling holder in place, unless it is the caller.
  lemma HolderKept(s: State, m: Move, key: string)
    requires DistinctRows(s) && Enabled(s, m.lane, m.task, m.action) && HolderCalls(s, key)
    requires Key(s.lanes[m.lane].tasks[m.task]) == key ==> !m.action.Claim? && !m.action.TakeOver?
    requires !IsCalling(s.lanes[m.lane].tasks[m.task], key)
    ensures HolderCalls(Apply(s, m.lane, m.task, m.action), key)
  {
    HolderIsOther(s, m.lane, m.task, key);
    HolderStays(s, m.lane, m.task, m.action, key);
  }

  lemma StepAccounts(s: State, m: Move, key: string, owed: int)
    requires Sound(s) && DistinctRows(s) && Enabled(s, m.lane, m.task, m.action) && Accounted(s, key, owed)
    ensures Accounted(Apply(s, m.lane, m.task, m.action), key, owed + Owes(s, m, key))
  {
    var task := s.lanes[m.lane].tasks[m.task];
    if Key(task) == key && (m.action.Claim? || m.action.TakeOver?) {
      ClaimAccounts(s, m, key, owed);
    } else {
      SumStep(s, m.lane, m.task, m.action, CallsOn(key));
      if HolderCalls(s, key) && !IsCalling(task, key) { HolderKept(s, m, key); }
    }
  }

  lemma StepKeepsRows(s: State, l: nat, t: nat, a: Action)
    requires DistinctRows(s) && Enabled(s, l, t, a)
    ensures DistinctRows(Apply(s, l, t, a))
  {
    ApplyKeepsBatches(s, l, t, a);
    var s' := Apply(s, l, t, a);
    forall k, u, m, v | 0 <= k < |s'.lanes| && 0 <= u < |s'.lanes[k].tasks| && 0 <= m < |s'.lanes| &&
        0 <= v < |s'.lanes[m].tasks|
      ensures (k == m && u == v) || ApartTasks(s'.lanes[k].tasks[u], s'.lanes[m].tasks[v])
    {
      assert (k == m && u == v) || ApartTasks(s.lanes[k].tasks[u], s.lanes[m].tasks[v]);
    }
  }

  lemma {:induction false} RunAccounts(s: State, moves: seq<Move>, key: string, owed: int)
    requires Sound(s) && DistinctRows(s) && Legal(s, moves) && Accounted(s, key, owed)
    ensures Count(s, moves, key, Storing) <= owed + Count(s, moves, key, LateClaim) + Count(s, moves, key, Unheld)
    decreases |moves|
  {
    if moves == [] {
      CallersAreNatural(s.lanes, key);
    } else {
      var m := moves[0];
      StepIsSound(s, m.lane, m.task, m.action);
      StepKeepsRows(s, m.lane, m.task, m.action);
      StepAccounts(s, m, key, owed);
      RunAccounts(Apply(s, m.lane, m.task, m.action), moves[1..], key, owed + Owes(s, m, key));
    }
  }

  lemma {:induction false} CallersAreNatural(lanes: seq<Lane>, key: string)
    ensures Sum(lanes, CallsOn(key)) >= 0
    decreases |lanes|
  {
    if lanes != [] {
      LaneCallersAreNatural(lanes[0].tasks, key);
      CallersAreNatural(lanes[1..], key);
    }
  }

  lemma {:induction false} LaneCallersAreNatural(tasks: seq<Task>, key: string)
    ensures LaneSum(tasks, CallsOn(key)) >= 0
    decreases |tasks|
  {
    if tasks != [] { LaneCallersAreNatural(tasks[1..], key); }
  }

  lemma {:induction false} NoneCalls(lanes: seq<Lane>, key: string)
    requires forall l, t :: 0 <= l < |lanes| && 0 <= t < |lanes[l].tasks| ==> !lanes[l].tasks[t].phase.Calling?
    ensures Sum(lanes, CallsOn(key)) == 0
    decreases |lanes|
  {
    if lanes != [] {
      NoneCallsInLane(lanes[0].tasks, key);
      NoneCalls(lanes[1..], key);
    }
  }

  lemma {:induction false} NoneCallsInLane(tasks: seq<Task>, key: string)
    requires forall t :: 0 <= t < |tasks| ==> !tasks[t].phase.Calling?
    ensures LaneSum(tasks, CallsOn(key)) == 0
    decreases |tasks|
  {
    if tasks != [] { NoneCallsInLane(tasks[1..], key); }
  }

  // Every success is one store.
  lemma {:induction false} WinsAreStores(s: State, moves: seq<Move>, key: string)
    requires |s.lanes| <= 2 && Legal(s, moves)
    ensures var s' := After(s, moves);
            s'.wins[(0, key)] + s'.wins[(1, key)] == s.wins[(0, key)] + s.wins[(1, key)] + Count(s, moves, key, Storing)
    decreases |moves|
  {
    if moves != [] {
      var m := moves[0];
      WinsAreStores(Apply(s, m.lane, m.task, m.action), moves[1..], key);
    }
  }

  // Over both lanes and in any interleaving a body is extracted successfully at most once, unless a
  // claim was granted late, to a row whose lookup missed the cache before the store and whose claim
  // followed the release, or a call went ahead on an expired claim or on none: each such call can
  // add one more. A cached body is extracted again only in these ways.
  lemma ExtractionsAreAccounted(s: State, moves: seq<Move>, key: string)
    requires Initial(s) && DistinctRows(s) && |s.lanes| <= 2 && Legal(s, moves)
    ensures var s' := After(s, moves);
            s'.wins[(0, key)] + s'.wins[(1, key)]
              <= (if key in s.cache then 0 else 1) + Count(s, moves, key, LateClaim) + Count(s, moves, key, Unheld)
  {
    InitialIsSound(s);
    NoneCalls(s.lanes, key);
    assert !HolderCalls(s, key);
    WinsAreStores(s, moves, key);
    RunAccounts(s, moves, key, if key in s.cache then 0 else 1);
  }
}
