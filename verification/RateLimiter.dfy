// The minimum-interval limiter shared by the threads of one reprocessing run, and the run's counts.
module RateLimiter {

  function Max(x: real, y: real): (m: real) { if x >= y then x else y }

  // k intervals.
  function Steps(k: nat, interval: real): (t: real) { (k as real) * interval }

  lemma StepsOneMore(k: nat, interval: real)
    ensures Steps(k + 1, interval) == Steps(k, interval) + interval
  {
    assert (k + 1) as real == k as real + 1.0;
  }

  // The i-th reserved start, when the threads read the clock at nows under the lock.
  function Start(nows: seq<real>, i: nat, interval: real): (t: real)
    requires i < |nows|
  {
    if i == 0 then Max(nows[0], 0.0) else Max(nows[i], Start(nows, i - 1, interval) + interval)
  }

  function NextAt(nows: seq<real>, interval: real): (t: real)
  {
    if nows == [] then 0.0 else Start(nows, |nows| - 1, interval) + interval
  }

  class Limiter {
    const interval: real
    var nextAt: real
    // The clock readings of the calls so far.
    ghost var nows: seq<real>

    ghost predicate Valid()
      reads this
    {
      interval > 0.0 ==> nextAt == NextAt(nows, interval)
    }

    constructor (perMinute: real)
      ensures Valid() && nows == []
      ensures interval == if perMinute > 0.0 then 60.0 / perMinute else 0.0
    {
      interval := if perMinute > 0.0 then 60.0 / perMinute else 0.0;
      nextAt := 0.0;
      nows := [];
    }

    // Reserves the next start and says how long to sleep.
    method Wait(now: real) returns (delay: real)
      requires Valid()
      modifies this
      ensures Valid() && nows == old(nows) + [now]
      ensures delay == if interval <= 0.0 then 0.0 else Start(nows, |nows| - 1, interval) - now
      ensures delay >= 0.0
    {
      ghost var before := nows;
      nows := nows + [now];
      if interval <= 0.0 { return 0.0; }
      var start := Max(now, nextAt);
      nextAt := start + interval;
      delay := start - now;
      if before != [] { StartLocal(before, nows, |before| - 1, interval); }
    }
  }

  lemma {:induction false} StartLocal(a: seq<real>, b: seq<real>, i: nat, interval: real)
    requires i < |a| <= |b| && forall k :: 0 <= k <= i ==> a[k] == b[k]
    ensures Start(a, i, interval) == Start(b, i, interval)
  {
    if i > 0 { StartLocal(a, b, i - 1, interval); }
  }

  // ----- One run -----

  // The closed form: the latest of all now_j + (i - j) intervals, and of i intervals after zero.
  lemma {:induction false} StartIsLatest(nows: seq<real>, i: nat, interval: real)
    requires i < |nows|
    ensures Start(nows, i, interval) >= Steps(i, interval)
    ensures forall j :: 0 <= j <= i ==> Start(nows, i, interval) >= nows[j] + Steps(i - j, interval)
    ensures Start(nows, i, interval) == Steps(i, interval)
         || exists j :: 0 <= j <= i && Start(nows, i, interval) == nows[j] + Steps(i - j, interval)
  {
    if i > 0 {
      StartIsLatest(nows, i - 1, interval);
      StepsOneMore(i - 1, interval);
      forall j | 0 <= j <= i ensures Start(nows, i, interval) >= nows[j] + Steps(i - j, interval) {
        if j < i { StepsOneMore(i - 1 - j, interval); }
      }
      if Start(nows, i, interval) != nows[i] && Start(nows, i - 1, interval) != Steps(i - 1, interval) {
        var j :| 0 <= j <= i - 1 && Start(nows, i - 1, interval) == nows[j] + Steps(i - 1 - j, interval);
        StepsOneMore(i - 1 - j, interval);
        assert Start(nows, i, interval) == nows[j] + Steps(i - j, interval);
      } else if Start(nows, i, interval) == nows[i] {
        assert Start(nows, i, interval) == nows[i] + Steps(i - i, interval);
      }
    } else {
      assert Steps(0, interval) == 0.0;
      if nows[0] >= 0.0 { assert Start(nows, 0, interval) == nows[0] + Steps(0 - 0, interval); }
    }
  }

  // Starts are at least one interval apart.
  lemma {:induction false} StartsAreSpaced(nows: seq<real>, i: nat, j: nat, interval: real)
    requires i <= j < |nows|
    ensures Start(nows, j, interval) >= Start(nows, i, interval) + Steps(j - i, interval)
  {
    if i < j {
      StartsAreSpaced(nows, i, j - 1, interval);
      StepsOneMore(j - 1 - i, interval);
    }
  }

  // A schedule the limiter could have given: nobody starts before asking, and starts are spaced.
  ghost predicate Feasible(starts: seq<real>, nows: seq<real>, interval: real)
  {
    && |starts| == |nows|
    && (starts != [] ==> starts[0] >= 0.0)
    && (forall i :: 0 <= i < |starts| ==> starts[i] >= nows[i])
    && (forall i :: 0 < i < |starts| ==> starts[i] >= starts[i - 1] + interval)
  }

  lemma {:induction false} NoneIsEarlier(starts: seq<real>, nows: seq<real>, i: nat, interval: real)
    requires Feasible(starts, nows, interval) && i < |nows|
    ensures Start(nows, i, interval) <= starts[i]
  {
    if i > 0 { NoneIsEarlier(starts, nows, i - 1, interval); }
  }

  function Starts(nows: seq<real>, interval: real): (starts: seq<real>)
    ensures |starts| == |nows| && forall i :: 0 <= i < |nows| ==> starts[i] == Start(nows, i, interval)
  {
    seq(|nows|, i requires 0 <= i < |nows| => Start(nows, i, interval))
  }

  // Nobody waits longer than needed: the limiter's schedule is feasible, and no feasible schedule
  // starts anyone earlier.
  lemma StartsAreEarliest(nows: seq<real>, interval: real)
    ensures Feasible(Starts(nows, interval), nows, interval)
    ensures forall starts: seq<real>, i: nat :: Feasible(starts, nows, interval) && i < |nows| ==>
              Starts(nows, interval)[i] <= starts[i]
  {
    forall starts: seq<real>, i: nat | Feasible(starts, nows, interval) && i < |nows|
      ensures Starts(nows, interval)[i] <= starts[i]
    {
      NoneIsEarlier(starts, nows, i, interval);
    }
  }

  // A window of length w holds at most floor(w / interval) + 1 starts.
  lemma WindowBound(nows: seq<real>, first: nat, last: nat, w: real, interval: real)
    requires interval > 0.0 && first <= last < |nows|
    requires Start(nows, last, interval) - Start(nows, first, interval) <= w
    ensures last - first + 1 <= (w / interval).Floor + 1
  {
    StartsAreSpaced(nows, first, last, interval);
    assert Steps(last - first, interval) <= w;
    DivideBound(last - first, w, interval);
  }

  lemma DivideBound(k: nat, w: real, interval: real)
    requires interval > 0.0
    ensures Steps(k, interval) <= w <==> k <= (w / interval).Floor
  {
    var q := w / interval;
    assert q * interval == w;
    if k as real <= q {
      assert (k as real) * interval <= q * interval;
    } else {
      assert (k as real) * interval > q * interval;
    }
  }

  // And a burst reaches the bound: calls at the same moment fill the window.
  lemma BurstFillsWindow(nows: seq<real>, now: real, w: real, interval: real)
    requires interval > 0.0 && w >= 0.0 && now >= 0.0
    requires |nows| == (w / interval).Floor + 1 && forall i :: 0 <= i < |nows| ==> nows[i] == now
    ensures forall i :: 0 <= i < |nows| ==> now <= Start(nows, i, interval) <= now + w
  {
    forall i | 0 <= i < |nows| ensures now <= Start(nows, i, interval) <= now + w {
      BurstStart(nows, now, i, interval);
      DivideBound(i, w, interval);
      assert Steps(i, interval) >= 0.0;
    }
  }

  lemma {:induction false} BurstStart(nows: seq<real>, now: real, i: nat, interval: real)
    requires i < |nows| && interval > 0.0 && now >= 0.0 && forall k :: 0 <= k < |nows| ==> nows[k] == now
    ensures Start(nows, i, interval) == now + Steps(i, interval)
  {
    if i > 0 {
      BurstStart(nows, now, i - 1, interval);
      StepsOneMore(i - 1, interval);
      assert Steps(i - 1, interval) >= 0.0;
    } else {
      assert Steps(0, interval) == 0.0;
    }
  }

  // ----- Two runs -----

  // A new run has a new limiter. The starts of both runs are those one limiter would have given
  // exactly when the second run begins at least one interval after the last start of the first.
  lemma FreshLimiterIsSeamlessIff(first: seq<real>, second: seq<real>, interval: real)
    requires interval > 0.0 && first != [] && second != []
    requires forall i :: 0 <= i < |first| ==> first[i] >= 0.0
    requires forall i :: 0 <= i < |second| ==> second[i] >= 0.0
    ensures Starts(first + second, interval) == Starts(first, interval) + Starts(second, interval)
        <==> second[0] >= Start(first, |first| - 1, interval) + interval
  {
    var n := |first|;
    forall i | 0 <= i < n ensures Start(first + second, i, interval) == Start(first, i, interval) {
      StartLocal(first, first + second, i, interval);
    }
    var last := Start(first, n - 1, interval);
    assert last >= 0.0 by { StartIsLatest(first, n - 1, interval); }
    assert Start(first + second, n, interval) == Max(second[0], last + interval);
    assert Start(second, 0, interval) == second[0];
    if second[0] >= last + interval {
      forall i | 0 <= i < |second| ensures Start(first + second, n + i, interval) == Start(second, i, interval) {
        SecondStart(first, second, i, interval);
      }
    } else {
      assert Starts(first + second, interval)[n] != (Starts(first, interval) + Starts(second, interval))[n];
    }
  }

  lemma {:induction false} SecondStart(first: seq<real>, second: seq<real>, i: nat, interval: real)
    requires first != [] && i < |second| && second[0] >= 0.0
    requires second[0] >= Start(first + second, |first| - 1, interval) + interval
    ensures Start(first + second, |first| + i, interval) == Start(second, i, interval)
  {
    if i > 0 { SecondStart(first, second, i - 1, interval); }
  }

  // ----- The counts of a run -----

  datatype Outcome = Fixed | StillUnresolved | NoSource | Failed | Expired

  datatype Counts = Counts(attempted: nat, fixed: nat, stillUnresolved: nat, noSource: nat, failed: nat, expired: nat)

  // What one job meets: whether reading the job or its message raises, whether it is too old,
  // whether it has a text, how extraction ends, whether the row is clean afterwards, and whether
  // the write of its own outcome raises.
  datatype Extraction = Clean | NeedsReview | Raises
  datatype Job = Job(readRaises: bool, tooOld: bool, hasSource: bool, extraction: Extraction, writeRaises: bool,
                     failWriteRaises: bool)

  datatype JobEnd = Ended(outcome: Outcome) | Raised

  function Reached(job: Job, dryRun: bool): (o: Outcome)
  {
    if job.readRaises then Failed
    else if job.tooOld then Expired
    else if !job.hasSource then NoSource
    else if dryRun then StillUnresolved
    else match job.extraction
      case Raises => Failed
      case Clean => Fixed
      case NeedsReview => StillUnresolved
  }

  // The outcome is written inside the try: a write that raises turns it into a failure, and the
  // write of a failure is not guarded.
  function ProcessJob(job: Job, dryRun: bool): (e: JobEnd)
  {
    if Reached(job, dryRun) != Failed && !job.writeRaises then Ended(Reached(job, dryRun))
    else if job.failWriteRaises then Raised
    else Ended(Failed)
  }

  // How many of the first n jobs end with this outcome.
  function CountOf(jobs: seq<Job>, n: nat, dryRun: bool, o: Outcome): (k: nat)
    requires n <= |jobs|
  {
    if n == 0 then 0 else CountOf(jobs, n - 1, dryRun, o) + if ProcessJob(jobs[n - 1], dryRun) == Ended(o) then 1 else 0
  }

  // The job fails: reading it, extracting from it or writing its outcome raises.
  predicate Fails(job: Job, dryRun: bool)
  {
    job.readRaises || job.writeRaises || (!job.tooOld && job.hasSource && !dryRun && job.extraction == Raises)
  }

  // When a job ends with this outcome.
  predicate EndsAs(job: Job, dryRun: bool, o: Outcome)
  {
    match o
    case Failed => Fails(job, dryRun) && !job.failWriteRaises
    case Expired => !Fails(job, dryRun) && job.tooOld
    case NoSource => !Fails(job, dryRun) && !job.tooOld && !job.hasSource
    case Fixed => !Fails(job, dryRun) && !job.tooOld && job.hasSource && !dryRun && job.extraction == Clean
    case StillUnresolved =>
      !Fails(job, dryRun) && !job.tooOld && job.hasSource && (dryRun || job.extraction == NeedsReview)
  }

  lemma JobEnds(job: Job, dryRun: bool, o: Outcome)
    ensures ProcessJob(job, dryRun) == Ended(o) <==> EndsAs(job, dryRun, o)
    ensures ProcessJob(job, dryRun).Raised? <==> Fails(job, dryRun) && job.failWriteRaises
  {
  }

  function Ending(jobs: seq<Job>, n: nat, dryRun: bool, o: Outcome): (s: set<nat>)
    requires n <= |jobs|
  {
    set i: nat | i < n && EndsAs(jobs[i], dryRun, o)
  }

  // The count of an outcome is the number of jobs that end with it.
  lemma {:induction false} CountIs(jobs: seq<Job>, n: nat, dryRun: bool, o: Outcome)
    requires n <= |jobs|
    ensures CountOf(jobs, n, dryRun, o) == |Ending(jobs, n, dryRun, o)|
  {
    if n == 0 {
      assert Ending(jobs, 0, dryRun, o) == {};
    } else {
      CountIs(jobs, n - 1, dryRun, o);
      JobEnds(jobs[n - 1], dryRun, o);
      EndingOneMore(jobs, n, dryRun, o);
    }
  }

  lemma EndingOneMore(jobs: seq<Job>, n: nat, dryRun: bool, o: Outcome)
    requires 0 < n <= |jobs|
    ensures |Ending(jobs, n, dryRun, o)| == |Ending(jobs, n - 1, dryRun, o)| + if EndsAs(jobs[n - 1], dryRun, o) then 1
            else 0
  {
    var one := if EndsAs(jobs[n - 1], dryRun, o) then {n - 1} else {};
    assert Ending(jobs, n, dryRun, o) == Ending(jobs, n - 1, dryRun, o) + one;
  }

  predicate Counted(c: Counts, jobs: seq<Job>, n: nat, dryRun: bool)
    requires n <= |jobs|
  {
    && c.fixed == CountOf(jobs, n, dryRun, Fixed) && c.stillUnresolved == CountOf(jobs, n, dryRun, StillUnresolved)
    && c.noSource == CountOf(jobs, n, dryRun, NoSource) && c.failed == CountOf(jobs, n, dryRun, Failed)
    && c.expired == CountOf(jobs, n, dryRun, Expired)
  }

  // Jobs in the order in which they complete; the first one that raises ends the counting.
  method RunOnce(jobs: seq<Job>, dryRun: bool) returns (counts: Counts, raised: bool)
    ensures raised <==> exists i :: 0 <= i < |jobs| && ProcessJob(jobs[i], dryRun).Raised?
    ensures counts.attempted
         == counts.fixed + counts.stillUnresolved + counts.noSource + counts.failed + counts.expired
            + if raised then 1 else 0
    ensures !raised ==> counts.attempted == |jobs| && Counted(counts, jobs, |jobs|, dryRun)
    ensures raised ==>
      && 1 <= counts.attempted <= |jobs|
      && ProcessJob(jobs[counts.attempted - 1], dryRun).Raised?
      && Counted(counts, jobs, counts.attempted - 1, dryRun)
    ensures dryRun ==> counts.fixed == 0
  {
    counts := Counts(0, 0, 0, 0, 0, 0);
    for i := 0 to |jobs|
      invariant counts.attempted == i && forall k :: 0 <= k < i ==> ProcessJob(jobs[k], dryRun).Ended?
      invariant Counted(counts, jobs, i, dryRun)
      invariant i == counts.fixed + counts.stillUnresolved + counts.noSource + counts.failed + counts.expired
      invariant dryRun ==> counts.fixed == 0
    {
      counts := counts.(attempted := counts.attempted + 1);
      match ProcessJob(jobs[i], dryRun)
      case Raised => return counts, true;
      case Ended(outcome) =>
        match outcome {
          case Fixed => counts := counts.(fixed := counts.fixed + 1);
          case StillUnresolved => counts := counts.(stillUnresolved := counts.stillUnresolved + 1);
          case NoSource => counts := counts.(noSource := counts.noSource + 1);
          case Failed => counts := counts.(failed := counts.failed + 1);
          case Expired => counts := counts.(expired := counts.expired + 1);
        }
    }
    raised := false;
  }
}
