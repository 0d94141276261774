// The retry loop of ai_extract over the configured providers, for one source unit.
module ProviderRotation {
  import opened Options

  datatype Item = Item(id: int, needsReview: bool)

  // A parsed reply after normalisation: what the schema kept, and the count the provider declared.
  // explicitlyEmpty is an envelope whose item list is present and empty.
  datatype Envelope = Envelope(items: seq<Item>, declared: Option<real>, explicitlyEmpty: bool)

  datatype Reply = Malformed | Truncated | RateLimited | ProviderFailed | Nothing | Parsed(env: Envelope)

  datatype Outcome = Extracted(provider: nat, items: seq<Item>) | Unavailable

  // The loop's variables: attempts made, the round-robin pointer, the failed names, the calls so far.
  datatype Rotation = Rotation(attempts: nat, rr: nat, failed: set<string>, calls: seq<nat>)

  // The n providers by name, and whether the order is fixed (_EXTRACTION_FALLBACK_ORDER).
  datatype Config = Config(names: seq<string>, fixedOrder: bool)
  {
    predicate Valid() { |names| > 0 }

    predicate Distinct() { forall i, j :: 0 <= i < j < |names| ==> names[i] != names[j] }
  }

  // replies(k) is the answer to the k-th provider call of this run, whoever was called.
  type Replies = nat -> Reply

  // _next_provider: the candidate and the pointer after it.
  function Candidate(cfg: Config, attempt: nat, rr: nat): (r: (nat, nat))
    requires cfg.Valid() && rr < |cfg.names|
    ensures r.0 < |cfg.names| && r.1 < |cfg.names|
  {
    var n := |cfg.names|;
    if cfg.fixedOrder then (attempt % n, rr) else (rr, (rr + 1) % n)
  }

  // The inner loop: up to tries candidates, stopping at the first one that has not failed.
  function Pick(cfg: Config, attempt: nat, rr: nat, failed: set<string>, tries: nat): (r: (Option<nat>, nat))
    requires cfg.Valid() && rr < |cfg.names|
    ensures r.1 < |cfg.names|
    ensures r.0.Some? ==> r.0.value < |cfg.names| && cfg.names[r.0.value] !in failed
    decreases tries
  {
    if tries == 0 then (None, rr) else
    var (c, rr') := Candidate(cfg, attempt, rr);
    if cfg.names[c] !in failed then (Some(c), rr') else Pick(cfg, attempt, rr', failed, tries - 1)
  }

  predicate Usable(env: Envelope)
  {
    env.items != [] &&
    !(env.declared.Some? && env.declared.value > 0.0 && |env.items| as real < env.declared.value)
  }

  function Flagged(items: seq<Item>): (n: nat)
  {
    if items == [] then 0 else (if items[0].needsReview then 1 else 0) + Flagged(items[1..])
  }

  // The single repair call replaces the items only when it leaves fewer of them flagged.
  function Repaired(items: seq<Item>, reply: Reply): (r: seq<Item>)
  {
    if reply.Parsed? && reply.env.items != [] && Flagged(reply.env.items) < Flagged(items)
    then reply.env.items else items
  }

  // What one attempt's replies do: continue with the state, or finish with the outcome.
  datatype Step = Again(st: Rotation) | Done(st: Rotation, outcome: Outcome)

  function Settle(st: Rotation, p: nat, name: string, reply: Reply, replies: Replies): (r: Step)
  {
    match reply
    case ProviderFailed => Again(st.(failed := st.failed + {name}))
    case Parsed(env) =>
      if env.explicitlyEmpty then Done(st, Extracted(p, []))
      else if !Usable(env) then Again(st)
      else if Flagged(env.items) > 0 then
        Done(st.(calls := st.calls + [p]), Extracted(p, Repaired(env.items, replies(|st.calls|))))
      else Done(st, Extracted(p, env.items))
    case _ => Again(st)
  }

  // An attempt on provider p. A truncated reply is retried once with a doubled budget; on that
  // retry a finish=error is an ordinary miss and does not mark the provider as failed.
  function Attempt(cfg: Config, st: Rotation, p: nat, replies: Replies): (r: Step)
    requires p < |cfg.names|
  {
    var first := replies(|st.calls|);
    var once := st.(attempts := st.attempts + 1, calls := st.calls + [p]);
    if !first.Truncated? then Settle(once, p, cfg.names[p], first, replies)
    else
      var second := replies(|once.calls|);
      var twice := once.(calls := once.calls + [p]);
      if second.Parsed? then Settle(twice, p, cfg.names[p], second, replies) else Again(twice)
  }

  // The whole loop.
  function Run(cfg: Config, st: Rotation, replies: Replies): (r: (Rotation, Outcome))
    requires cfg.Valid() && st.rr < |cfg.names| && st.attempts <= 2 * |cfg.names|
    ensures r.0.rr < |cfg.names|
    decreases 2 * |cfg.names| - st.attempts
  {
    if st.attempts == 2 * |cfg.names| then (st, Unavailable) else
    var (p, rr) := Pick(cfg, st.attempts, st.rr, st.failed, |cfg.names|);
    match p
    case None => (st.(rr := rr), Unavailable)
    case Some(p) =>
      match Attempt(cfg, st.(rr := rr), p, replies)
      case Again(next) => Run(cfg, next, replies)
      case Done(last, outcome) => (last, outcome)
  }

  function Start(rr: nat): (st: Rotation) { Rotation(0, rr, {}, []) }

  // The provider pool: the round-robin pointer is the only state that outlives a run.
  class ProviderPool {
    const cfg: Config
    var rr: nat

    ghost predicate Valid() reads this { cfg.Valid() && rr < |cfg.names| }

    constructor (cfg: Config)
      requires cfg.Valid()
      ensures Valid() && this.cfg == cfg && rr == 0
    {
      this.cfg := cfg;
      rr := 0;
    }

    method NextProvider(attempt: nat) returns (p: nat)
      requires Valid()
      modifies `rr
      ensures Valid() && (p, rr) == Candidate(cfg, attempt, old(rr))
    {
      if cfg.fixedOrder { return attempt % |cfg.names|; }
      p := rr;
      rr := (rr + 1) % |cfg.names|;
    }

    method SelectProvider(attempt: nat, failed: set<string>) returns (provider: Option<nat>)
      requires Valid()
      modifies `rr
      ensures Valid() && (provider, rr) == Pick(cfg, attempt, old(rr), failed, |cfg.names|)
    {
      provider := None;
      var tries: nat := |cfg.names|;
      while tries > 0
        invariant Valid() && provider.None?
        invariant Pick(cfg, attempt, old(rr), failed, |cfg.names|) == Pick(cfg, attempt, rr, failed, tries)
      {
        var candidate := NextProvider(attempt);
        if cfg.names[candidate] !in failed { return Some(candidate); }
        tries := tries - 1;
      }
    }

    // One pass of the loop body on a selected provider.
    method TryProvider(st: Rotation, p: nat, replies: Replies) returns (step: Step)
      requires p < |cfg.names|
      ensures step == Attempt(cfg, st, p, replies)
    {
      var next := st.(attempts := st.attempts + 1, calls := st.calls + [p]);
      var reply := replies(|st.calls|);
      if reply.Malformed? { return Again(next); }
      if reply.Truncated? {
        reply := replies(|next.calls|);
        next := next.(calls := next.calls + [p]);
        if !reply.Parsed? { return Again(next); }
      }
      if reply.RateLimited? { return Again(next); }
      if reply.ProviderFailed? { return Again(next.(failed := next.failed + {cfg.names[p]})); }
      if reply.Nothing? { return Again(next); }
      var env := reply.env;
      if env.explicitlyEmpty { return Done(next, Extracted(p, [])); }
      if env.items == [] { return Again(next); }
      if env.declared.Some? && env.declared.value > 0.0 && |env.items| as real < env.declared.value {
        return Again(next);
      }
      if Flagged(env.items) > 0 {
        var repaired := replies(|next.calls|);
        next := next.(calls := next.calls + [p]);
        return Done(next, Extracted(p, Repaired(env.items, repaired)));
      }
      return Done(next, Extracted(p, env.items));
    }

    method AiExtract(replies: Replies) returns (last: Rotation, outcome: Outcome)
      requires Valid()
      modifies `rr
      ensures Valid() && rr == last.rr
      ensures (last, outcome) == Run(cfg, Start(old(rr)), replies)
    {
      last := Start(rr);
      while last.attempts < 2 * |cfg.names|
        invariant Valid() && rr == last.rr && last.attempts <= 2 * |cfg.names|
        invariant Run(cfg, Start(old(rr)), replies) == Run(cfg, last, replies)
        decreases 2 * |cfg.names| - last.attempts
      {
        var provider := SelectProvider(last.attempts, last.failed);
        last := last.(rr := rr);
        if provider.None? { return last, Unavailable; }
        var step := TryProvider(last, provider.value, replies);
        last := step.st;
        if step.Done? { return last, step.outcome; }
      }
      outcome := Unavailable;
    }
  }

  // ----- Who is asked next -----

  lemma {:induction false} FixedPick(cfg: Config, attempt: nat, rr: nat, failed: set<string>, tries: nat)
    requires cfg.Valid() && cfg.fixedOrder && rr < |cfg.names| && tries > 0
    ensures Pick(cfg, attempt, rr, failed, tries) ==
            (if cfg.names[attempt % |cfg.names|] in failed then None else Some(attempt % |cfg.names|), rr)
  {
    if cfg.names[attempt % |cfg.names|] in failed && tries > 1 {
      FixedPick(cfg, attempt, rr, failed, tries - 1);
    }
  }

  // The k-th position from rr going round n providers.
  function Slot(rr: nat, k: nat, n: nat): (p: nat)
    requires rr < n && k <= n
    ensures p < n
  {
    if rr + k < n then rr + k else rr + k - n
  }

  lemma NextSlot(rr: nat, n: nat)
    requires rr < n
    ensures (rr + 1) % n == Slot(rr, 1, n)
  {
  }

  // p is k places after rr, everyone before it has failed, and the pointer moves just past it.
  predicate NearestLive(cfg: Config, rr: nat, failed: set<string>, k: nat, p: nat, rr': nat)
    requires cfg.Valid() && rr < |cfg.names| && k < |cfg.names|
  {
    && p == Slot(rr, k, |cfg.names|) && rr' == Slot(rr, k + 1, |cfg.names|) && cfg.names[p] !in failed
    && forall j :: 0 <= j < k ==> cfg.names[Slot(rr, j, |cfg.names|)] in failed
  }

  // Round robin takes the nearest provider that has not failed, and none only when all have.
  lemma {:induction false} RoundRobinPick(cfg: Config, attempt: nat, rr: nat, failed: set<string>, tries: nat)
    requires cfg.Valid() && !cfg.fixedOrder && rr < |cfg.names| && tries <= |cfg.names|
    ensures var r := Pick(cfg, attempt, rr, failed, tries);
            if r.0.None? then forall k :: 0 <= k < tries ==> cfg.names[Slot(rr, k, |cfg.names|)] in failed
            else exists k :: 0 <= k < tries && NearestLive(cfg, rr, failed, k, r.0.value, r.1)
    decreases tries
  {
    var n := |cfg.names|;
    if tries > 0 {
      NextSlot(rr, n);
      assert Slot(rr, 0, n) == rr;
      var r := Pick(cfg, attempt, rr, failed, tries);
      if cfg.names[rr] in failed {
        var next := Slot(rr, 1, n);
        RoundRobinPick(cfg, attempt, next, failed, tries - 1);
        assert forall k :: 0 < k <= tries ==> Slot(rr, k, n) == Slot(next, k - 1, n) || k == n;
        if r.0.Some? {
          var k :| 0 <= k < tries - 1 && NearestLive(cfg, next, failed, k, r.0.value, r.1);
          forall j | 0 <= j < k + 1 ensures cfg.names[Slot(rr, j, n)] in failed {
            if j > 0 { assert cfg.names[Slot(next, j - 1, n)] in failed; }
          }
          assert NearestLive(cfg, rr, failed, k + 1, r.0.value, r.1);
        } else {
          forall k | 0 <= k < tries ensures cfg.names[Slot(rr, k, n)] in failed {
            if k > 0 { assert cfg.names[Slot(next, k - 1, n)] in failed; }
          }
        }
      } else {
        assert NearestLive(cfg, rr, failed, 0, r.0.value, r.1);
      }
    }
  }

  lemma RoundRobinStops(cfg: Config, attempt: nat, rr: nat, failed: set<string>)
    requires cfg.Valid() && !cfg.fixedOrder && rr < |cfg.names|
    ensures Pick(cfg, attempt, rr, failed, |cfg.names|).0.None? <==>
              forall i :: 0 <= i < |cfg.names| ==> cfg.names[i] in failed
  {
    var n := |cfg.names|;
    RoundRobinPick(cfg, attempt, rr, failed, n);
    if Pick(cfg, attempt, rr, failed, n).0.None? {
      forall i | 0 <= i < n ensures cfg.names[i] in failed {
        var k := if i >= rr then i - rr else i - rr + n;
        assert Slot(rr, k, n) == i;
      }
    }
  }

  // ----- The first rotation asks everyone once -----

  // The provider the i-th attempt of the first rotation asks.
  function First(cfg: Config, r0: nat, i: nat): (p: nat)
    requires cfg.Valid() && r0 < |cfg.names| && i <= |cfg.names|
    ensures p <= |cfg.names|
  {
    if cfg.fixedOrder then i else Slot(r0, i, |cfg.names|)
  }

  // What every state of a run from pointer r0 satisfies.
  predicate Reached(cfg: Config, r0: nat, st: Rotation)
  {
    var n := |cfg.names|;
    && n > 0 && r0 < n && st.rr < n && st.attempts <= 2 * n
    && st.attempts <= |st.calls| <= 2 * st.attempts
    && (forall name :: name in st.failed ==> exists c :: c in st.calls && c < n && cfg.names[c] == name)
    && (forall c :: c in st.calls ==> c < n)
    && (forall i :: 0 <= i < n && i < st.attempts ==> First(cfg, r0, i) in st.calls)
    && (st.attempts < n ==> forall c :: c in st.calls ==> exists i :: 0 <= i < st.attempts && c == First(cfg, r0, i))
    && (st.attempts < n && !cfg.fixedOrder ==> st.rr == Slot(r0, st.attempts, n))
  }

  lemma FirstIsLive(cfg: Config, r0: nat, st: Rotation)
    requires Reached(cfg, r0, st) && cfg.Distinct() && st.attempts < |cfg.names|
    ensures cfg.names[First(cfg, r0, st.attempts)] !in st.failed
  {
    var p := First(cfg, r0, st.attempts);
    assert p !in st.calls;
    assert forall c :: c in st.calls ==> cfg.names[c] != cfg.names[p];
  }

  lemma CandidateIsFirst(cfg: Config, r0: nat, attempts: nat, rr: nat)
    requires cfg.Valid() && r0 < |cfg.names| && attempts < |cfg.names| && rr < |cfg.names|
    requires !cfg.fixedOrder ==> rr == Slot(r0, attempts, |cfg.names|)
    ensures Candidate(cfg, attempts, rr)
         == (First(cfg, r0, attempts), if cfg.fixedOrder then rr else Slot(r0, attempts + 1, |cfg.names|))
  {
    NextSlot(rr, |cfg.names|);
  }

  lemma LivePick(cfg: Config, attempt: nat, rr: nat, failed: set<string>)
    requires cfg.Valid() && rr < |cfg.names|
    requires cfg.names[Candidate(cfg, attempt, rr).0] !in failed
    ensures Pick(cfg, attempt, rr, failed, |cfg.names|)
            == (Some(Candidate(cfg, attempt, rr).0), Candidate(cfg, attempt, rr).1)
  {
  }

  lemma FirstPick(cfg: Config, r0: nat, st: Rotation)
    requires Reached(cfg, r0, st) && cfg.Distinct() && st.attempts < |cfg.names|
    ensures Pick(cfg, st.attempts, st.rr, st.failed, |cfg.names|)
         == (Some(First(cfg, r0, st.attempts)),
             if cfg.fixedOrder then st.rr else Slot(r0, st.attempts + 1, |cfg.names|))
  {
    FirstIsLive(cfg, r0, st);
    CandidateIsFirst(cfg, r0, st.attempts, st.rr);
    LivePick(cfg, st.attempts, st.rr, st.failed);
  }

  lemma AttemptKeeps(cfg: Config, r0: nat, st: Rotation, p: nat, rr: nat, replies: Replies)
    requires Reached(cfg, r0, st) && st.attempts < 2 * |cfg.names| && p < |cfg.names| && rr < |cfg.names|
    requires st.attempts < |cfg.names| ==> p == First(cfg, r0, st.attempts)
    requires st.attempts + 1 < |cfg.names| && !cfg.fixedOrder ==> rr == Slot(r0, st.attempts + 1, |cfg.names|)
    ensures match Attempt(cfg, st.(rr := rr), p, replies)
            case Again(next) => Reached(cfg, r0, next) && next.attempts == st.attempts + 1 && next.rr == rr
            case Done(last, outcome) =>
              last.attempts == st.attempts + 1 && |last.calls| <= 2 * last.attempts + 1 && outcome.Extracted?
  {
    var step := Attempt(cfg, st.(rr := rr), p, replies);
    if step.Again? {
      var next := step.st;
      assert next.calls == st.calls + [p] || next.calls == st.calls + [p] + [p];
      assert forall c :: c in next.calls <==> c in st.calls || c == p;
      assert next.failed == st.failed || next.failed == st.failed + {cfg.names[p]};
      assert p in next.calls;
      forall name | name in next.failed ensures exists c :: c in next.calls && c < |cfg.names| && cfg.names[c] == name {
        if name in st.failed {
          var c :| c in st.calls && c < |cfg.names| && cfg.names[c] == name;
          assert c in next.calls;
        }
      }
    }
  }

  // Why the loop gave up: the attempts are spent, or nobody is left to pick.
  predicate GaveUp(cfg: Config, st: Rotation)
    requires cfg.Valid()
  {
    || st.attempts == 2 * |cfg.names|
    || (if cfg.fixedOrder then cfg.names[st.attempts % |cfg.names|] in st.failed
        else forall i :: 0 <= i < |cfg.names| ==> cfg.names[i] in st.failed)
  }

  lemma PickNoneIsGivingUp(cfg: Config, st: Rotation)
    requires cfg.Valid() && st.rr < |cfg.names|
    requires Pick(cfg, st.attempts, st.rr, st.failed, |cfg.names|).0.None?
    ensures GaveUp(cfg, st)
  {
    if cfg.fixedOrder { FixedPick(cfg, st.attempts, st.rr, st.failed, |cfg.names|); }
    else { RoundRobinStops(cfg, st.attempts, st.rr, st.failed); }
  }

  // At most two calls an attempt, whatever the names.
  predicate Counts(cfg: Config, st: Rotation)
  {
    cfg.Valid() && st.rr < |cfg.names| && st.attempts <= 2 * |cfg.names| && |st.calls| <= 2 * st.attempts
  }

  lemma AttemptCounts(cfg: Config, st: Rotation, p: nat, rr: nat, replies: Replies)
    requires Counts(cfg, st) && st.attempts < 2 * |cfg.names| && p < |cfg.names| && rr < |cfg.names|
    ensures match Attempt(cfg, st.(rr := rr), p, replies)
            case Again(next) => Counts(cfg, next) && next.attempts == st.attempts + 1
            case Done(last, outcome) =>
              last.attempts == st.attempts + 1 && |last.calls| <= 2 * last.attempts + 1 && outcome.Extracted?
  {
  }

  lemma {:induction false} RunCounts(cfg: Config, st: Rotation, replies: Replies)
    requires Counts(cfg, st)
    ensures var r := Run(cfg, st, replies);
            && r.0.attempts <= 2 * |cfg.names| && |r.0.calls| <= 2 * r.0.attempts + 1
            && (r.1.Unavailable? ==> |r.0.calls| <= 2 * r.0.attempts && GaveUp(cfg, r.0))
    decreases 2 * |cfg.names| - st.attempts
  {
    if st.attempts < 2 * |cfg.names| {
      var (p, rr) := Pick(cfg, st.attempts, st.rr, st.failed, |cfg.names|);
      if p.None? {
        PickNoneIsGivingUp(cfg, st);
      } else {
        AttemptCounts(cfg, st, p.value, rr, replies);
        var step := Attempt(cfg, st.(rr := rr), p.value, replies);
        if step.Again? { RunCounts(cfg, step.st, replies); }
      }
    }
  }

  // No run makes more than 4n + 1 calls, a fruitless one no more than 4n; and why it gave up.
  lemma CallsAreBounded(cfg: Config, r0: nat, replies: Replies)
    requires cfg.Valid() && r0 < |cfg.names|
    ensures var r := Run(cfg, Start(r0), replies);
            && |r.0.calls| <= 4 * |cfg.names| + 1
            && (r.1.Unavailable? ==> |r.0.calls| <= 4 * |cfg.names| && GaveUp(cfg, r.0))
  {
    RunCounts(cfg, Start(r0), replies);
  }

  // Every run from a reached state: its bounds, and what is true when it gives up.
  lemma {:induction false} RunEnds(cfg: Config, r0: nat, st: Rotation, replies: Replies)
    requires Reached(cfg, r0, st) && cfg.Distinct()
    ensures var r := Run(cfg, st, replies);
            && r.0.attempts <= 2 * |cfg.names| && |r.0.calls| <= 2 * r.0.attempts + 1
            && (r.1.Unavailable? ==> Reached(cfg, r0, r.0) && r.0.attempts >= |cfg.names| && GaveUp(cfg, r.0))
    decreases 2 * |cfg.names| - st.attempts
  {
    if st.attempts < 2 * |cfg.names| {
      var (p, rr) := Pick(cfg, st.attempts, st.rr, st.failed, |cfg.names|);
      if st.attempts < |cfg.names| { FirstPick(cfg, r0, st); }
      if p.None? {
        PickNoneIsGivingUp(cfg, st);
      } else {
        AttemptKeeps(cfg, r0, st, p.value, rr, replies);
        var step := Attempt(cfg, st.(rr := rr), p.value, replies);
        if step.Again? { RunEnds(cfg, r0, step.st, replies); }
      }
    }
  }

  lemma StartReached(cfg: Config, r0: nat)
    requires cfg.Valid() && r0 < |cfg.names|
    ensures Reached(cfg, r0, Start(r0))
  {
  }

  // With distinct names ai_unavailable means that everyone was asked.
  lemma UnavailableMeansAllAsked(cfg: Config, r0: nat, replies: Replies)
    requires cfg.Valid() && cfg.Distinct() && r0 < |cfg.names|
    ensures var r := Run(cfg, Start(r0), replies);
            && |r.0.calls| <= 4 * |cfg.names| + 1
            && (r.1.Unavailable? ==>
                 && |r.0.calls| <= 4 * |cfg.names|
                 && (forall p :: 0 <= p < |cfg.names| ==> p in r.0.calls)
                 && GaveUp(cfg, r.0))
  {
    StartReached(cfg, r0);
    RunEnds(cfg, r0, Start(r0), replies);
    var r := Run(cfg, Start(r0), replies);
    if r.1.Unavailable? {
      var n := |cfg.names|;
      forall p | 0 <= p < n ensures p in r.0.calls {
        var i := if cfg.fixedOrder then p else if p >= r0 then p - r0 else p - r0 + n;
        assert First(cfg, r0, i) == p;
      }
    }
  }

  // ----- Where the fixed order gives up -----

  // The least index from i on whose provider has failed, or n.
  function FirstFailed(names: seq<string>, failed: set<string>, i: nat): (k: nat)
    requires i <= |names|
    ensures i <= k <= |names| && (k < |names| ==> names[k] in failed)
    ensures forall j :: i <= j < k ==> names[j] !in failed
    decreases |names| - i
  {
    if i < |names| && names[i] !in failed then FirstFailed(names, failed, i + 1) else i
  }

  lemma {:induction false} FirstFailedIgnores(names: seq<string>, failed: set<string>, name: string, i: nat)
    requires i <= |names| && forall j :: i <= j < |names| ==> names[j] != name
    ensures FirstFailed(names, failed + {name}, i) == FirstFailed(names, failed, i)
    decreases |names| - i
  {
    if i < |names| && names[i] !in failed { FirstFailedIgnores(names, failed, name, i + 1); }
  }

  lemma SecondRound(n: nat, i: nat)
    requires i < n
    ensures (n + i) % n == i
  {
    var q := (n + i) / n;
    assert q >= 2 ==> n * q >= n * 2;
    assert q <= 0 ==> n * q <= 0;
  }

  // The state once every provider has been asked, unless an answer came first.
  function AfterFirstRotation(cfg: Config, st: Rotation, replies: Replies): (mid: Option<Rotation>)
    requires cfg.Valid() && st.rr < |cfg.names| && st.attempts <= |cfg.names|
    decreases |cfg.names| - st.attempts
  {
    if st.attempts == |cfg.names| then Some(st) else
    var (p, rr) := Pick(cfg, st.attempts, st.rr, st.failed, |cfg.names|);
    if p.None? then None else
    match Attempt(cfg, st.(rr := rr), p.value, replies)
    case Again(next) => AfterFirstRotation(cfg, next, replies)
    case Done(_, _) => None
  }

  lemma {:induction false} RunThroughMiddle(cfg: Config, r0: nat, st: Rotation, replies: Replies)
    requires Reached(cfg, r0, st) && cfg.Distinct() && st.attempts <= |cfg.names|
    ensures var mid := AfterFirstRotation(cfg, st, replies);
            if mid.None? then Run(cfg, st, replies).1.Extracted?
            else Reached(cfg, r0, mid.value) && mid.value.attempts == |cfg.names|
                 && Run(cfg, st, replies) == Run(cfg, mid.value, replies)
    decreases |cfg.names| - st.attempts
  {
    if st.attempts < |cfg.names| {
      FirstPick(cfg, r0, st);
      var (p, rr) := Pick(cfg, st.attempts, st.rr, st.failed, |cfg.names|);
      AttemptKeeps(cfg, r0, st, p.value, rr, replies);
      var step := Attempt(cfg, st.(rr := rr), p.value, replies);
      if step.Again? { RunThroughMiddle(cfg, r0, step.st, replies); }
    }
  }

  lemma AttemptFails(cfg: Config, st: Rotation, p: nat, replies: Replies)
    requires p < |cfg.names|
    ensures var step := Attempt(cfg, st, p, replies);
            step.Again? ==> step.st.failed == st.failed || step.st.failed == st.failed + {cfg.names[p]}
  {
  }

  // An attempt of the second rotation leaves the first failed provider behind it where it is.
  lemma SecondAttempt(cfg: Config, r0: nat, st: Rotation, i: nat, replies: Replies)
    requires Reached(cfg, r0, st) && cfg.Distinct() && |cfg.names| <= st.attempts < 2 * |cfg.names|
    requires i == st.attempts - |cfg.names|
    ensures match Attempt(cfg, st, i, replies)
            case Again(next) =>
              Reached(cfg, r0, next) && next.attempts == st.attempts + 1 &&
              FirstFailed(cfg.names, next.failed, i + 1) == FirstFailed(cfg.names, st.failed, i + 1)
            case Done(_, _) => true
  {
    assert st.(rr := st.rr) == st;
    AttemptKeeps(cfg, r0, st, i, st.rr, replies);
    AttemptFails(cfg, st, i, replies);
    FirstFailedIgnores(cfg.names, st.failed, cfg.names[i], i + 1);
  }

  // One step of a run in the second rotation of the fixed order.
  lemma SecondStep(cfg: Config, st: Rotation, i: nat, replies: Replies)
    requires cfg.Valid() && cfg.fixedOrder && st.rr < |cfg.names| && |cfg.names| <= st.attempts < 2 * |cfg.names|
    requires i == st.attempts - |cfg.names|
    ensures cfg.names[i] in st.failed ==> Run(cfg, st, replies) == (st, Unavailable)
    ensures var step := Attempt(cfg, st, i, replies);
            && (step.Again? ==> step.st.rr < |cfg.names| && step.st.attempts <= 2 * |cfg.names|)
            && (cfg.names[i] !in st.failed ==>
                  Run(cfg, st, replies) == if step.Again? then Run(cfg, step.st, replies) else (step.st, step.outcome))
  {
    SecondRound(|cfg.names|, i);
    FixedPick(cfg, st.attempts, st.rr, st.failed, |cfg.names|);
    assert st.(rr := st.rr) == st;
  }

  lemma {:induction false} SecondRotationStops(cfg: Config, r0: nat, st: Rotation, replies: Replies)
    requires Reached(cfg, r0, st) && cfg.Distinct() && cfg.fixedOrder && st.attempts >= |cfg.names|
    requires Run(cfg, st, replies).1.Unavailable?
    ensures Run(cfg, st, replies).0.attempts
         == |cfg.names| + FirstFailed(cfg.names, st.failed, st.attempts - |cfg.names|)
    decreases 2 * |cfg.names| - st.attempts
  {
    var n := |cfg.names|;
    if st.attempts < 2 * n {
      var i := st.attempts - n;
      SecondStep(cfg, st, i, replies);
      if cfg.names[i] !in st.failed {
        SecondAttempt(cfg, r0, st, i, replies);
        var step := Attempt(cfg, st, i, replies);
        if step.Again? { SecondRotationStops(cfg, r0, step.st, replies); }
      }
    }
  }

  // In fixed order a fruitless run ends at the first provider that failed in the first rotation,
  // however many live ones stand behind it; it spends all 2n attempts only when none failed.
  lemma FixedOrderStops(cfg: Config, r0: nat, replies: Replies)
    requires cfg.Valid() && cfg.Distinct() && cfg.fixedOrder && r0 < |cfg.names|
    requires Run(cfg, Start(r0), replies).1.Unavailable?
    ensures var mid := AfterFirstRotation(cfg, Start(r0), replies);
            mid.Some? &&
            Run(cfg, Start(r0), replies).0.attempts == |cfg.names| + FirstFailed(cfg.names, mid.value.failed, 0)
  {
    StartReached(cfg, r0);
    RunThroughMiddle(cfg, r0, Start(r0), replies);
    SecondRotationStops(cfg, r0, AfterFirstRotation(cfg, Start(r0), replies).value, replies);
  }

  // Round robin gives up early only when all have failed.
  lemma RoundRobinPersists(cfg: Config, r0: nat, replies: Replies)
    requires cfg.Valid() && cfg.Distinct() && !cfg.fixedOrder && r0 < |cfg.names|
    requires Run(cfg, Start(r0), replies).1.Unavailable?
    ensures var last := Run(cfg, Start(r0), replies).0;
            last.attempts == 2 * |cfg.names| || forall i :: 0 <= i < |cfg.names| ==> cfg.names[i] in last.failed
  {
    UnavailableMeansAllAsked(cfg, r0, replies);
  }

  // Two providers: the first is broken, the second answers only when asked again.
  function LateAnswer(k: nat): (r: Reply)
  {
    if k == 0 then ProviderFailed else if k == 1 then Nothing
    else Parsed(Envelope([Item(1, false)], None, false))
  }

  lemma FixedOrderGivesUpOnALiveProvider()
    ensures var fixed := Config(["a", "b"], true);
            Run(fixed, Start(0), LateAnswer) == (Rotation(2, 0, {"a"}, [0, 1]), Unavailable)
    ensures Run(Config(["a", "b"], false), Start(0), LateAnswer).1 == Extracted(1, [Item(1, false)])
  {
    var fixed, robin := Config(["a", "b"], true), Config(["a", "b"], false);
    var f1, f2 := Rotation(1, 0, {"a"}, [0]), Rotation(2, 0, {"a"}, [0, 1]);
    assert "a" != "b" by { assert "a"[0] != "b"[0]; }
    assert {} + {"a"} == {"a"};
    assert Attempt(fixed, Start(0), 0, LateAnswer) == Again(f1);
    assert Attempt(fixed, f1, 1, LateAnswer) == Again(f2);
    FixedPick(fixed, 2, 0, {"a"}, 2);
    assert Run(fixed, f2, LateAnswer) == (f2, Unavailable);
    var r1, r2 := Rotation(1, 1, {"a"}, [0]), Rotation(2, 0, {"a"}, [0, 1]);
    assert Pick(robin, 0, 0, {}, 2) == (Some(0), 1);
    assert Attempt(robin, Start(0).(rr := 1), 0, LateAnswer) == Again(r1);
    assert Pick(robin, 1, 1, {"a"}, 2) == (Some(1), 0);
    assert Attempt(robin, r1.(rr := 0), 1, LateAnswer) == Again(r2);
    assert Pick(robin, 2, 0, {"a"}, 2) == Pick(robin, 2, 1, {"a"}, 1) == (Some(1), 0);
    assert Run(robin, r2, LateAnswer).1 == Extracted(1, [Item(1, false)]);
  }

  // ----- Why the names must differ -----

  function AllFail(k: nat): (r: Reply) { ProviderFailed }

  predicate OneCallPerName(cfg: Config, st: Rotation)
  {
    && (forall c :: c in st.calls ==> c < |cfg.names| && cfg.names[c] in st.failed)
    && (forall a, b :: 0 <= a < b < |st.calls| && st.calls[a] < |cfg.names| && st.calls[b] < |cfg.names| ==>
          cfg.names[st.calls[a]] != cfg.names[st.calls[b]])
  }

  lemma {:induction false} AllFailing(cfg: Config, st: Rotation)
    requires cfg.Valid() && st.rr < |cfg.names| && st.attempts <= 2 * |cfg.names| && OneCallPerName(cfg, st)
    ensures var r := Run(cfg, st, AllFail);
            r.1.Unavailable? && OneCallPerName(cfg, r.0)
    decreases 2 * |cfg.names| - st.attempts
  {
    if st.attempts < 2 * |cfg.names| {
      var (p, rr) := Pick(cfg, st.attempts, st.rr, st.failed, |cfg.names|);
      if p.Some? {
        var next := Attempt(cfg, st.(rr := rr), p.value, AllFail).st;
        assert next.calls == st.calls + [p.value] && next.failed == st.failed + {cfg.names[p.value]};
        assert forall c :: c in next.calls ==> c in st.calls || c == p.value;
        AllFailing(cfg, next);
      }
    }
  }

  // "Unavailable means everyone was asked" is a property of exactly the configurations with
  // distinct names: the failed set is keyed by name, so a namesake is skipped unasked.
  lemma AllAskedIffDistinct(cfg: Config, r0: nat)
    requires cfg.Valid() && r0 < |cfg.names|
    ensures cfg.Distinct() <==>
            forall replies: Replies | Run(cfg, Start(r0), replies).1.Unavailable? ::
              forall p :: 0 <= p < |cfg.names| ==> p in Run(cfg, Start(r0), replies).0.calls
  {
    if cfg.Distinct() {
      forall replies: Replies | Run(cfg, Start(r0), replies).1.Unavailable?
        ensures forall p :: 0 <= p < |cfg.names| ==> p in Run(cfg, Start(r0), replies).0.calls
      {
        UnavailableMeansAllAsked(cfg, r0, replies);
      }
    } else {
      var i, j :| 0 <= i < j < |cfg.names| && cfg.names[i] == cfg.names[j];
      AllFailing(cfg, Start(r0));
      var last := Run(cfg, Start(r0), AllFail).0;
      assert !(i in last.calls && j in last.calls);
    }
  }

  // ----- The declared count and the repair -----

  // The items a usable envelope ends with, given the reply to the repair call it may cause.
  function Kept(env: Envelope, repair: Reply): (r: seq<Item>)
  {
    if Flagged(env.items) > 0 then Repaired(env.items, repair) else env.items
  }

  lemma {:induction false} UnflaggedItem(items: seq<Item>)
    requires |items| == 1 && !items[0].needsReview
    ensures Flagged(items) == 0
  {
  }

  // The guard against under-filled replies is not repeated on the repair: it protects the declared
  // count on every repair reply exactly when no item needs review or at most one was declared.
  lemma DeclaredCountSurvives(env: Envelope)
    requires Usable(env) && env.declared.Some? && env.declared.value > 0.0
    ensures (forall repair: Reply :: |Kept(env, repair)| as real >= env.declared.value)
        <==> Flagged(env.items) == 0 || env.declared.value <= 1.0
  {
    if Flagged(env.items) > 0 && env.declared.value > 1.0 {
      var one := [Item(0, false)];
      UnflaggedItem(one);
      var repair := Parsed(Envelope(one, None, false));
      assert Kept(env, repair) == one;
      assert !(|Kept(env, repair)| as real >= env.declared.value);
    }
  }

  // ----- A run told from its replies -----

  // The number of the call that attempt a begins with: a truncated reply takes a second call.
  function Opening(replies: Replies, a: nat): (k: nat)
    ensures k >= a
  {
    if a == 0 then 0 else Opening(replies, a - 1) + if replies(Opening(replies, a - 1)).Truncated? then 2 else 1
  }

  // The call whose reply the attempt is judged by.
  function Deciding(replies: Replies, a: nat): (k: nat)
  {
    Opening(replies, a) + if replies(Opening(replies, a)).Truncated? then 1 else 0
  }

  // A reply that ends the run: an explicitly empty list, or items that are at least as many as declared.
  predicate Ending(reply: Reply)
  {
    reply.Parsed? &&
    (reply.env.explicitlyEmpty ||
     (|reply.env.items| > 0 &&
      match reply.env.declared
      case None => true
      case Some(d) => d <= 0.0 || d <= |reply.env.items| as real))
  }

  function MarkedIn(items: seq<Item>): (s: set<int>) { set i | 0 <= i < |items| && items[i].needsReview }

  function Marked(items: seq<Item>): (n: nat) { |MarkedIn(items)| }

  // The repair is worth taking when it brings items, fewer of them flagged.
  predicate Better(repair: Reply, items: seq<Item>)
  {
    repair.Parsed? && |repair.env.items| > 0 && Marked(repair.env.items) < Marked(items)
  }

  // What the caller is given for an ending reply, and how many calls are made behind it.
  predicate GivenFor(env: Envelope, repair: Reply, items: seq<Item>, more: int)
  {
    if env.explicitlyEmpty then items == [] && more == 0
    else if forall i :: 0 <= i < |env.items| ==> !env.items[i].needsReview then items == env.items && more == 0
    else more == 1 && items == if Better(repair, env.items) then repair.env.items else env.items
  }

  // A provider of this name failed in one of the first a attempts.
  ghost predicate FailedBy(cfg: Config, calls: seq<nat>, replies: Replies, a: nat, name: string)
  {
    exists b: nat ::
      b < a && FailedAt(cfg, calls, replies, b) && cfg.names[calls[Opening(replies, b)]] == name
  }

  // Attempt b failed at its first call; an error on the second call is an ordinary miss.
  predicate FailedAt(cfg: Config, calls: seq<nat>, replies: Replies, b: nat)
  {
    Opening(replies, b) < |calls| && calls[Opening(replies, b)] < |cfg.names| &&
        replies(Opening(replies, b)).ProviderFailed?
  }

  // Where attempt a starts looking in round robin: just past the provider asked before.
  function LooksFrom(cfg: Config, r0: nat, calls: seq<nat>, replies: Replies, a: nat): (p: nat)
    requires cfg.Valid() && r0 < |cfg.names|
    ensures p < |cfg.names|
  {
    if a == 0 then r0
    else if Opening(replies, a - 1) < |calls| && calls[Opening(replies, a - 1)] < |cfg.names| then
      Slot(calls[Opening(replies, a - 1)], 1, |cfg.names|)
    else 0
  }

  // The provider of attempt a: the one whose turn it is, or in round robin the nearest one from there on
  // that has not failed.
  ghost predicate AskedInTurn(cfg: Config, r0: nat, calls: seq<nat>, replies: Replies, a: nat, p: nat)
    requires cfg.Valid() && r0 < |cfg.names|
  {
    && p < |cfg.names| && !FailedBy(cfg, calls, replies, a, cfg.names[p])
    && if cfg.fixedOrder then p == a % |cfg.names|
       else exists k :: 0 <= k < |cfg.names| && p == Slot(LooksFrom(cfg, r0, calls, replies, a), k, |cfg.names|) &&
              forall j :: 0 <= j < k ==>
                FailedBy(cfg, calls, replies, a, cfg.names[Slot(LooksFrom(cfg, r0, calls, replies, a), j, |cfg.names|)])
  }

  // Attempt a was made on one provider.
  ghost predicate Asked(cfg: Config, r0: nat, calls: seq<nat>, replies: Replies, a: nat)
    requires cfg.Valid() && r0 < |cfg.names|
  {
    && Opening(replies, a) <= Deciding(replies, a) < |calls|
    && calls[Opening(replies, a)] == calls[Deciding(replies, a)]
    && AskedInTurn(cfg, r0, calls, replies, a, calls[Opening(replies, a)])
  }

  // The state behind st.attempts attempts none of which ended the run.
  ghost predicate Traced(cfg: Config, r0: nat, st: Rotation, replies: Replies)
  {
    && cfg.Valid() && r0 < |cfg.names|
    && |st.calls| == Opening(replies, st.attempts)
    && (forall a: nat :: a < st.attempts ==>
          Asked(cfg, r0, st.calls, replies, a) && !Ending(replies(Deciding(replies, a))))
    && (forall name :: name in st.failed <==> FailedBy(cfg, st.calls, replies, st.attempts, name))
  }

  ghost predicate PointsOn(cfg: Config, r0: nat, st: Rotation, replies: Replies)
  {
    && cfg.Valid() && r0 < |cfg.names| && st.rr < |cfg.names|
    && (!cfg.fixedOrder ==> st.rr == LooksFrom(cfg, r0, st.calls, replies, st.attempts))
  }

  // The state that the last attempt ended with an answer.
  ghost predicate Answered(cfg: Config, r0: nat, st: Rotation, p: nat, items: seq<Item>, replies: Replies)
  {
    && cfg.Valid() && r0 < |cfg.names| && st.attempts > 0
    && (forall a: nat :: a < st.attempts ==> Asked(cfg, r0, st.calls, replies, a))
    && (forall a: nat :: a < st.attempts - 1 ==> !Ending(replies(Deciding(replies, a))))
    && (forall name :: name in st.failed <==> FailedBy(cfg, st.calls, replies, st.attempts, name))
    && var d := Deciding(replies, st.attempts - 1);
       && d < |st.calls| && st.calls[d] == p && Ending(replies(d))
       && GivenFor(replies(d).env, replies(d + 1), items, |st.calls| - (d + 1))
       && forall k :: d < k < |st.calls| ==> st.calls[k] == p
  }

  lemma {:induction false} MarkedIsFlagged(items: seq<Item>)
    ensures Marked(items) == Flagged(items)
    decreases |items|
  {
    if items != [] {
      var n := |items| - 1;
      var head := items[..n];
      MarkedIsFlagged(head);
      FlaggedEnd(items);
      assert MarkedIn(items) == MarkedIn(head) + (if items[n].needsReview then {n} else {});
    } else {
      assert MarkedIn(items) == {};
    }
  }

  lemma {:induction false} FlaggedEnd(items: seq<Item>)
    requires items != []
    ensures Flagged(items) == Flagged(items[..|items| - 1]) + if items[|items| - 1].needsReview then 1 else 0
  {
    if |items| > 1 {
      FlaggedEnd(items[1..]);
      assert items[1..][..|items| - 2] == items[..|items| - 1][1..];
    }
  }

  lemma NoneMarked(items: seq<Item>)
    ensures Flagged(items) == 0 <==> forall i :: 0 <= i < |items| ==> !items[i].needsReview
  {
    MarkedIsFlagged(items);
    if i :| 0 <= i < |items| && items[i].needsReview {
      assert i in MarkedIn(items);
    } else {
      assert MarkedIn(items) == {};
    }
  }

  lemma FailedStays(cfg: Config, calls: seq<nat>, calls': seq<nat>, replies: Replies, a: nat, name: string)
    requires calls <= calls' && a <= |calls| && (forall b: nat :: b < a ==> Opening(replies, b) < |calls|)
    ensures FailedBy(cfg, calls, replies, a, name) <==> FailedBy(cfg, calls', replies, a, name)
  {
    forall b: nat | b < a ensures calls[Opening(replies, b)] == calls'[Opening(replies, b)] {}
  }

  lemma {:induction false} OpeningGrows(replies: Replies, a: nat, b: nat)
    requires a < b
    ensures Deciding(replies, a) < Opening(replies, b)
    decreases b
  {
    if a < b - 1 { OpeningGrows(replies, a, b - 1); }
  }

  lemma AskedStays(cfg: Config, r0: nat, calls: seq<nat>, calls': seq<nat>, replies: Replies, a: nat)
    requires cfg.Valid() && r0 < |cfg.names| && calls <= calls' && Asked(cfg, r0, calls, replies, a)
    ensures Asked(cfg, r0, calls', replies, a)
  {
    forall b: nat | b < a ensures Opening(replies, b) < |calls| { OpeningGrows(replies, b, a); }
    forall name: string ensures FailedBy(cfg, calls, replies, a, name) <==> FailedBy(cfg, calls', replies, a, name) {
      FailedStays(cfg, calls, calls', replies, a, name);
    }
    assert LooksFrom(cfg, r0, calls', replies, a) == LooksFrom(cfg, r0, calls, replies, a);
  }

  // The next provider picked is the one whose turn it is.
  lemma PickedInTurn(cfg: Config, r0: nat, st: Rotation, replies: Replies)
    requires Traced(cfg, r0, st, replies) && PointsOn(cfg, r0, st, replies)
    ensures var (p, rr) := Pick(cfg, st.attempts, st.rr, st.failed, |cfg.names|);
            p.Some? ==> AskedInTurn(cfg, r0, st.calls, replies, st.attempts, p.value) &&
                        (!cfg.fixedOrder ==> rr == Slot(p.value, 1, |cfg.names|))
  {
    if cfg.fixedOrder {
      FixedPick(cfg, st.attempts, st.rr, st.failed, |cfg.names|);
    } else {
      RoundRobinPick(cfg, st.attempts, st.rr, st.failed, |cfg.names|);
    }
  }

  // What one attempt does, from the replies to its calls.
  lemma AttemptIs(cfg: Config, st: Rotation, p: nat, replies: Replies)
    requires p < |cfg.names| && |st.calls| == Opening(replies, st.attempts)
    ensures var k, d := Opening(replies, st.attempts), Deciding(replies, st.attempts);
            var calls := st.calls + (if d == k then [p] else [p, p]);
            match Attempt(cfg, st, p, replies)
            case Again(next) =>
              !Ending(replies(d)) && next.attempts == st.attempts + 1 && next.calls == calls && next.rr == st.rr &&
              next.failed == st.failed + if replies(k).ProviderFailed? then {cfg.names[p]} else {}
            case Done(last, outcome) =>
              Ending(replies(d)) && last.attempts == st.attempts + 1 && last.failed == st.failed &&
              outcome.Extracted? && outcome.provider == p &&
              GivenFor(replies(d).env, replies(d + 1), outcome.items, |last.calls| - (d + 1)) &&
              last.calls == calls + if |last.calls| > d + 1 then [p] else []
  {
    var d := Deciding(replies, st.attempts);
    if replies(d).Parsed? {
      NoneMarked(replies(d).env.items);
      MarkedIsFlagged(replies(d).env.items);
      if replies(d + 1).Parsed? { MarkedIsFlagged(replies(d + 1).env.items); }
    }
  }

  lemma TurnStays(cfg: Config, r0: nat, calls: seq<nat>, calls': seq<nat>, replies: Replies, a: nat, p: nat)
    requires cfg.Valid() && r0 < |cfg.names| && calls <= calls' && |calls| == Opening(replies, a)
    requires AskedInTurn(cfg, r0, calls, replies, a, p)
    ensures AskedInTurn(cfg, r0, calls', replies, a, p)
  {
    forall b: nat | b < a ensures Opening(replies, b) < |calls| { OpeningGrows(replies, b, a); }
    forall name: string ensures FailedBy(cfg, calls, replies, a, name) <==> FailedBy(cfg, calls', replies, a, name) {
      FailedStays(cfg, calls, calls', replies, a, name);
    }
    assert LooksFrom(cfg, r0, calls', replies, a) == LooksFrom(cfg, r0, calls, replies, a);
  }

  lemma AllAsked(cfg: Config, r0: nat, st: Rotation, p: nat, calls: seq<nat>, replies: Replies)
    requires Traced(cfg, r0, st, replies) && AskedInTurn(cfg, r0, st.calls, replies, st.attempts, p)
    requires st.calls <= calls && Deciding(replies, st.attempts) < |calls|
    requires calls[Opening(replies, st.attempts)] == calls[Deciding(replies, st.attempts)] == p
    ensures forall a: nat :: a <= st.attempts ==> Asked(cfg, r0, calls, replies, a)
  {
    forall a: nat | a <= st.attempts ensures Asked(cfg, r0, calls, replies, a) {
      if a < st.attempts {
        AskedStays(cfg, r0, st.calls, calls, replies, a);
      } else {
        TurnStays(cfg, r0, st.calls, calls, replies, a, p);
      }
    }
  }

  // The failed names grow by this attempt's provider exactly when its first call failed.
  lemma FailedGrow(cfg: Config, st: Rotation, p: nat, calls: seq<nat>, failed: set<string>, replies: Replies)
    requires p < |cfg.names| && st.calls <= calls && |st.calls| == Opening(replies, st.attempts) < |calls|
    requires calls[Opening(replies, st.attempts)] == p
    requires forall name :: name in st.failed <==> FailedBy(cfg, st.calls, replies, st.attempts, name)
    requires failed == st.failed + if replies(Opening(replies, st.attempts)).ProviderFailed? then {cfg.names[p]} else {}
    ensures forall name :: name in failed <==> FailedBy(cfg, calls, replies, st.attempts + 1, name)
  {
    forall b: nat | b < st.attempts ensures Opening(replies, b) < |st.calls| { OpeningGrows(replies, b, st.attempts); }
    forall name ensures name in failed <==> FailedBy(cfg, calls, replies, st.attempts + 1, name) {
      FailedStays(cfg, st.calls, calls, replies, st.attempts, name);
      FailedNext(cfg, calls, replies, st.attempts, name);
    }
  }

  lemma FailedNext(cfg: Config, calls: seq<nat>, replies: Replies, a: nat, name: string)
    ensures FailedBy(cfg, calls, replies, a + 1, name) <==>
            FailedBy(cfg, calls, replies, a, name) ||
            (FailedAt(cfg, calls, replies, a) && cfg.names[calls[Opening(replies, a)]] == name)
  {
  }

  // The attempt's calls, once they are made.
  predicate Called(st: Rotation, p: nat, calls: seq<nat>, replies: Replies)
  {
    var k, d := Opening(replies, st.attempts), Deciding(replies, st.attempts);
    |st.calls| == k && d < |calls| && st.calls <= calls && calls[k] == calls[d] == p
  }

  lemma AgainTraced(cfg: Config, r0: nat, st: Rotation, p: nat, next: Rotation, replies: Replies)
    requires Traced(cfg, r0, st, replies) && AskedInTurn(cfg, r0, st.calls, replies, st.attempts, p)
    requires next.rr < |cfg.names| && (!cfg.fixedOrder ==> next.rr == Slot(p, 1, |cfg.names|))
    requires next.attempts == st.attempts + 1 && Called(st, p, next.calls, replies)
    requires |next.calls| == Opening(replies, st.attempts + 1) && !Ending(replies(Deciding(replies, st.attempts)))
    requires next.failed ==
             st.failed + if replies(Opening(replies, st.attempts)).ProviderFailed? then {cfg.names[p]} else {}
    ensures Traced(cfg, r0, next, replies) && PointsOn(cfg, r0, next, replies)
  {
    AllAsked(cfg, r0, st, p, next.calls, replies);
    FailedGrow(cfg, st, p, next.calls, next.failed, replies);
  }

  lemma DoneAnswered(cfg: Config, r0: nat, st: Rotation, p: nat, last: Rotation, items: seq<Item>, replies: Replies)
    requires Traced(cfg, r0, st, replies) && AskedInTurn(cfg, r0, st.calls, replies, st.attempts, p)
    requires last.attempts == st.attempts + 1 && Called(st, p, last.calls, replies) && last.failed == st.failed
    requires var d := Deciding(replies, st.attempts);
             && Ending(replies(d)) && GivenFor(replies(d).env, replies(d + 1), items, |last.calls| - (d + 1))
             && forall k :: d < k < |last.calls| ==> last.calls[k] == p
    ensures Answered(cfg, r0, last, p, items, replies)
  {
    AllAsked(cfg, r0, st, p, last.calls, replies);
    DoneFailed(cfg, st, p, last, replies);
    AllTraced(cfg, r0, st, replies);
  }

  // An attempt that answers adds no failed name.
  lemma DoneFailed(cfg: Config, st: Rotation, p: nat, last: Rotation, replies: Replies)
    requires p < |cfg.names| && Called(st, p, last.calls, replies) && last.failed == st.failed
    requires forall name :: name in st.failed <==> FailedBy(cfg, st.calls, replies, st.attempts, name)
    requires Ending(replies(Deciding(replies, st.attempts)))
    ensures forall name :: name in last.failed <==> FailedBy(cfg, last.calls, replies, st.attempts + 1, name)
  {
    FailedGrow(cfg, st, p, last.calls, last.failed, replies);
  }

  lemma AllTraced(cfg: Config, r0: nat, st: Rotation, replies: Replies)
    requires Traced(cfg, r0, st, replies)
    ensures forall a: nat :: a < st.attempts ==> !Ending(replies(Deciding(replies, a)))
  {
  }

  lemma AttemptTraced(cfg: Config, r0: nat, st: Rotation, p: nat, rr: nat, replies: Replies)
    requires Traced(cfg, r0, st, replies) && AskedInTurn(cfg, r0, st.calls, replies, st.attempts, p) && rr < |cfg.names|
    requires !cfg.fixedOrder ==> rr == Slot(p, 1, |cfg.names|)
    ensures match Attempt(cfg, st.(rr := rr), p, replies)
            case Again(next) => Traced(cfg, r0, next, replies) && PointsOn(cfg, r0, next, replies) &&
                                next.attempts == st.attempts + 1
            case Done(last, outcome) =>
              outcome.Extracted? && Answered(cfg, r0, last, outcome.provider, outcome.items, replies)
  {
    match Attempt(cfg, st.(rr := rr), p, replies)
    case Again(next) =>
      AttemptGoesOn(cfg, st, p, rr, next, replies);
      AgainTraced(cfg, r0, st, p, next, replies);
    case Done(last, outcome) =>
      AttemptAnswers(cfg, st, p, rr, last, outcome, replies);
      DoneAnswered(cfg, r0, st, p, last, outcome.items, replies);
  }

  lemma AttemptGoesOn(cfg: Config, st: Rotation, p: nat, rr: nat, next: Rotation, replies: Replies)
    requires p < |cfg.names| && |st.calls| == Opening(replies, st.attempts)
    requires Attempt(cfg, st.(rr := rr), p, replies) == Again(next)
    ensures next.rr == rr && next.attempts == st.attempts + 1 && Called(st, p, next.calls, replies)
    ensures |next.calls| == Opening(replies, st.attempts + 1) && !Ending(replies(Deciding(replies, st.attempts)))
    ensures next.failed ==
            st.failed + if replies(Opening(replies, st.attempts)).ProviderFailed? then {cfg.names[p]} else {}
  {
    AttemptIs(cfg, st.(rr := rr), p, replies);
  }

  lemma AttemptAnswers(cfg: Config, st: Rotation, p: nat, rr: nat, last: Rotation, outcome: Outcome, replies: Replies)
    requires p < |cfg.names| && |st.calls| == Opening(replies, st.attempts)
    requires Attempt(cfg, st.(rr := rr), p, replies) == Done(last, outcome)
    ensures outcome.Extracted? && outcome.provider == p && last.attempts == st.attempts + 1 && last.failed == st.failed
    ensures Called(st, p, last.calls, replies)
    ensures var d := Deciding(replies, st.attempts);
            && Ending(replies(d)) && GivenFor(replies(d).env, replies(d + 1), outcome.items, |last.calls| - (d + 1))
            && forall k :: d < k < |last.calls| ==> last.calls[k] == p
  {
    AttemptIs(cfg, st.(rr := rr), p, replies);
  }

  lemma {:induction false} RunTraced(cfg: Config, r0: nat, st: Rotation, replies: Replies)
    requires Traced(cfg, r0, st, replies) && PointsOn(cfg, r0, st, replies) && st.attempts <= 2 * |cfg.names|
    ensures var (last, outcome) := Run(cfg, st, replies);
            match outcome
            case Unavailable => last.attempts <= 2 * |cfg.names| && Traced(cfg, r0, last, replies)
            case Extracted(p, items) => Answered(cfg, r0, last, p, items, replies)
    decreases 2 * |cfg.names| - st.attempts
  {
    if st.attempts < 2 * |cfg.names| {
      var (p, rr) := Pick(cfg, st.attempts, st.rr, st.failed, |cfg.names|);
      PickedInTurn(cfg, r0, st, replies);
      if p.Some? {
        AttemptTraced(cfg, r0, st, p.value, rr, replies);
        var step := Attempt(cfg, st.(rr := rr), p.value, replies);
        if step.Again? { RunTraced(cfg, r0, step.st, replies); }
      }
    }
  }

  // The whole run told from the replies: which of them ends it, what the caller is given for it, whom
  // each attempt asks, and whose failures are remembered. Without an ending reply it gives up.
  lemma RunIsItsReplies(cfg: Config, r0: nat, replies: Replies)
    requires cfg.Valid() && r0 < |cfg.names|
    ensures var (last, outcome) := Run(cfg, Start(r0), replies);
            match outcome
            case Extracted(p, items) => Answered(cfg, r0, last, p, items, replies)
            case Unavailable => Traced(cfg, r0, last, replies) && GaveUp(cfg, last)
  {
    RunTraced(cfg, r0, Start(r0), replies);
    CallsAreBounded(cfg, r0, replies);
  }

  // ----- Block by block -----

  // Several blocks in turn, each with its own replies; the round-robin pointer carries over.
  function RunBlocks(cfg: Config, rr: nat, blocks: seq<Replies>): (r: seq<(Rotation, Outcome)>)
    requires cfg.Valid() && rr < |cfg.names|
    ensures |r| == |blocks|
    decreases |blocks|
  {
    if blocks == [] then [] else
    var first := Run(cfg, Start(rr), blocks[0]);
    [first] + RunBlocks(cfg, first.0.rr, blocks[1..])
  }

  function TotalCalls(runs: seq<(Rotation, Outcome)>): (n: nat)
  {
    if runs == [] then 0 else |runs[0].0.calls| + TotalCalls(runs[1..])
  }

  lemma OneMore(k: nat, c: nat)
    ensures (k + 1) * c == c + k * c
  {
  }

  // A blockwise extraction of m blocks stays within m(4n + 1) calls.
  lemma {:induction false} BlockwiseCalls(cfg: Config, rr: nat, blocks: seq<Replies>)
    requires cfg.Valid() && rr < |cfg.names|
    ensures TotalCalls(RunBlocks(cfg, rr, blocks)) <= |blocks| * (4 * |cfg.names| + 1)
    decreases |blocks|
  {
    if blocks != [] {
      var first := Run(cfg, Start(rr), blocks[0]);
      CallsAreBounded(cfg, rr, blocks[0]);
      BlockwiseCalls(cfg, first.0.rr, blocks[1..]);
      OneMore(|blocks| - 1, 4 * |cfg.names| + 1);
      assert RunBlocks(cfg, rr, blocks)[1..] == RunBlocks(cfg, first.0.rr, blocks[1..]);
    }
  }

  // It asks everyone about every block it gives up on, wherever earlier blocks left the pointer.
  lemma {:induction false} BlockwiseAllAsked(cfg: Config, rr: nat, blocks: seq<Replies>, b: nat, p: nat)
    requires cfg.Valid() && cfg.Distinct() && rr < |cfg.names| && b < |blocks| && p < |cfg.names|
    requires RunBlocks(cfg, rr, blocks)[b].1.Unavailable?
    ensures p in RunBlocks(cfg, rr, blocks)[b].0.calls
    decreases |blocks|
  {
    UnavailableMeansAllAsked(cfg, rr, blocks[0]);
    if b > 0 {
      var first := Run(cfg, Start(rr), blocks[0]);
      assert RunBlocks(cfg, rr, blocks)[b] == RunBlocks(cfg, first.0.rr, blocks[1..])[b - 1];
      BlockwiseAllAsked(cfg, first.0.rr, blocks[1..], b - 1, p);
    }
  }
}
