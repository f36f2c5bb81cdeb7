/**
 * A wrapper's dictionary of claims, changed in place the way its helpers change it: watching a
 * claim swaps the bare owner for a record, and unclaiming pops it and wakes its waiters.
 *
 * Each method is tied to the function the step relation of `ClaimProtocol` uses for it.
 */
module Inflight {
  import opened Options
  import opened ClaimProtocol

  const ThreadClaims := Config(Locked, false, false)
  const AsyncClaims := Config(Locked, false, true)
  const TaskClaims := Config(Task, false, true)

  class ClaimTable {
    var inflight: map<ClaimKey, Claim>
    var signals: map<Signal, SignalState>

    constructor ()
      ensures inflight == map[] && signals == map[]
    {
      inflight, signals := map[], map[];
    }

    /** The claims of this table have the form the style writes, and their signals exist. */
    ghost predicate Valid(cfg: Config)
      reads this
    {
      forall ck :: ck in inflight ==> WellShaped(cfg, signals, inflight[ck])
    }

    /** File `agent` as the owner of an entry nobody has claimed. */
    method Claim(cfg: Config, ck: ClaimKey, agent: Agent)
      requires Valid(cfg) && ck !in inflight
      modifies this
      ensures Valid(cfg) && inflight == old(inflight)[ck := Bare(agent)] && signals == old(signals)
    {
      inflight := inflight[ck := Bare(agent)];
    }

    /** Return the event to wait on for a thread's claim, or `None` if the caller owns it. */
    method WatchThreadClaim(ck: ClaimKey, agent: Agent, spare: Signal) returns (done: Option<Signal>)
      requires Valid(ThreadClaims) && ck in inflight && spare !in signals
      modifies this
      ensures Valid(ThreadClaims)
      ensures var r := Watch(ThreadClaims, old(inflight)[ck], agent, spare);
              && inflight == old(inflight)[ck := r.claim]
              && (done.None? <==> r == Refused(r.claim, CacheCycle))
              && (done.Some? ==> r == Watching(r.claim, done.value))
              && signals ==
                   if done.Some? && done.value !in old(signals) then old(signals)[done.value := Clear] else old(signals)
    {
      var claim := inflight[ck];
      if claim.Bare? {
        claim := Pending(claim.owner, None);
        inflight := inflight[ck := claim];
      }
      if claim.owner == agent {
        return None;
      }
      if claim.done.None? {
        claim := claim.(done := Some(spare));
        signals := signals[spare := Clear];
        inflight := inflight[ck := claim];
      }
      done := claim.done;
    }

    /** Return a future to await for a task's claim, or `None` if the caller owns it. */
    method WatchTaskClaim(ck: ClaimKey, agent: Agent, spare: Signal) returns (waiter: Option<Signal>)
      requires Valid(AsyncClaims) && ck in inflight && spare !in signals
      modifies this
      ensures Valid(AsyncClaims)
      ensures var r := Watch(AsyncClaims, old(inflight)[ck], agent, spare);
              && inflight == old(inflight)[ck := r.claim]
              && (waiter.None? <==> r == Refused(r.claim, CacheCycle))
              && (waiter.Some? ==>
                    r == Watching(r.claim, waiter.value) && signals == old(signals)[waiter.value := Clear])
              && (waiter.None? ==> signals == old(signals))
    {
      var claim := inflight[ck];
      if claim.Bare? {
        claim := AsyncPending(claim.owner, []);
        inflight := inflight[ck := claim];
      }
      if claim.owner == agent {
        return None;
      }
      signals := signals[spare := Clear];
      claim := claim.(waiters := claim.waiters + [spare]);
      inflight := inflight[ck := claim];
      waiter := Some(spare);
    }

    /** Find the event a task waits on for another task's claim, or how it is refused. */
    method WaitForClaim(ck: ClaimKey, agent: Agent, spare: Signal) returns (r: WatchResult)
      requires Valid(TaskClaims) && ck in inflight && spare !in signals
      modifies this
      ensures Valid(TaskClaims)
      ensures r == Watch(TaskClaims, old(inflight)[ck], agent, spare)
      ensures inflight == old(inflight)[ck := r.claim]
      ensures signals ==
              if r.Watching? && r.signal !in old(signals) then old(signals)[r.signal := Clear] else old(signals)
    {
      var claim := inflight[ck];
      assert inflight[ck := claim] == inflight;
      if claim.owner == agent {
        return Refused(claim, CacheCycle);
      }
      if claim.owner.loop != agent.loop {
        return Refused(claim, CrossLoop);
      }
      if !claim.WatchedClaim? {
        claim := WatchedClaim(claim.owner, spare);
        signals := signals[spare := Clear];
        inflight := inflight[ck := claim];
      }
      r := Watching(claim, claim.event);
    }

    /** Pop the claim and wake whoever waits on it: an event at once, each future on its own loop. */
    method Unclaim(cfg: Config, ck: ClaimKey)
      requires Valid(cfg) && ck in inflight
      modifies this
      ensures Valid(cfg)
      ensures inflight == old(inflight) - {ck}
      ensures signals == WakeAll(old(inflight)[ck], old(signals))
    {
      var claim := inflight[ck];
      inflight := inflight - {ck};
      match claim
      case Bare(_) =>
      case Pending(_, done) =>
        if done.Some? {
          signals := signals[done.value := Raised];
        }
      case WatchedClaim(_, event) =>
        signals := signals[event := Raised];
      case AsyncPending(_, waiters) =>
        for i := 0 to |waiters|
          invariant inflight == old(inflight) - {ck}
          invariant signals.Keys == old(signals).Keys
          invariant forall w :: w in signals ==>
            signals[w] == if w in waiters[..i] && old(signals)[w].Clear? then Scheduled else old(signals)[w]
        {
          assert waiters[i] in Watched(claim);
          assert waiters[..i + 1] == waiters[..i] + [waiters[i]];
          if signals[waiters[i]].Clear? {
            signals := signals[waiters[i] := Scheduled];
          }
        }
        assert waiters[..|waiters|] == waiters;
    }
  }
}
