/** Lease tokens fence whole runs: a token that no stage holds any more can never act again. */
module Fencing {
  import opened Common
  import opened Records
  import opened Lifecycle
  import opened TaskInvariant
  import opened Movement
  import opened Protocol
  import opened SystemInvariant
  import opened Effects

  ghost predicate HeldAnywhere(s: Store, token: Token) {
    exists r :: HasStage(s, r) && StageAt(s, r).token == Some(LeaseDigest(token))
  }

  /** Issued, and no longer held by any stage. */
  ghost predicate Spent(s: Store, token: Token) {
    token.serial < s.issued && !HeldAnywhere(s, token)
  }

  lemma SpentStep(s: Store, a: Action, token: Token)
    requires Inv(s) && Admissible(s, a) && Spent(s, token)
    ensures Spent(Step(s, a).store, token)
  {
    StepTokens(s, a);
    SpentFrom(s, Step(s, a).store, token);
  }

  lemma SpentFrom(s: Store, n: Store, token: Token)
    requires TokensFrom(s, n) && Spent(s, token)
    ensures Spent(n, token)
  {
    forall r | HasStage(n, r) ensures StageAt(n, r).token != Some(LeaseDigest(token)) {
      if HasStage(s, r) {
        assert StageAt(s, r).token != Some(LeaseDigest(token));
      }
      assert n.tasks[r.task].stages[r.position] == StageAt(n, r);
    }
  }

  /** Once spent, a token is spent for the rest of the run. */
  lemma {:induction false} SpentForever(s: Store, actions: seq<Action>, k: nat, j: nat, token: Token)
    requires Inv(s) && Feasible(s, actions) && k <= j <= |actions| && Spent(Run(s, actions[..k]), token)
    ensures Spent(Run(s, actions[..j]), token)
    decreases j
  {
    hide Inv, Spent, Admissible, Feasible;
    if k < j {
      SpentForever(s, actions, k, j - 1, token);
      Midway(s, actions, j - 1);
      SpentStep(Run(s, actions[..j - 1]), actions[j - 1], token);
    }
  }

  /** The state in which the `i`th action of a run happens. */
  lemma Midway(s: Store, actions: seq<Action>, i: nat)
    requires Inv(s) && Feasible(s, actions) && i < |actions|
    ensures Inv(Run(s, actions[..i])) && Admissible(Run(s, actions[..i]), actions[i])
    ensures Run(s, actions[..i + 1]) == Step(Run(s, actions[..i]), actions[i]).store
  {
    hide Inv;
    FeasiblePrefix(s, actions, i);
    RunKeeps(s, actions[..i]);
    assert actions[..i + 1][..i] == actions[..i];
  }

  /** The calls a worker makes under a token. */
  predicate Presents(a: Action, token: Token) {
    match a
    case Renew(_, _, k, _) => k == token
    case Start(_, _, k, _) => k == token
    case Progress(_, _, k, _, _) => k == token
    case Complete(_, request, _) => request.token == token
    case _ => false
  }

  /** A call under a spent token changes no row at all. */
  lemma SpentCallIdle(s: Store, a: Action, token: Token)
    requires Spent(s, token) && Presents(a, token)
    ensures Step(s, a).store == Tick(s, a.now)
  {
    assert HasStage(s, a.stage) ==> StageAt(s, a.stage).token != Some(LeaseDigest(token));
  }

  /** A token that leaves its stage in one step is spent from then on. */
  lemma LeavingSpends(s: Store, a: Action, r: StageRef, token: Token)
    requires Inv(s) && Admissible(s, a)
    requires HasStage(s, r) && StageAt(s, r).token == Some(LeaseDigest(token))
    requires HasStage(Step(s, a).store, r) ==> StageAt(Step(s, a).store, r).token != Some(LeaseDigest(token))
    ensures Spent(Step(s, a).store, token)
  {
    StepTokens(s, a);
    LeavingAll(s, Step(s, a).store, r, token);
  }

  lemma LeavingAll(s: Store, n: Store, r: StageRef, token: Token)
    requires TokensInv(s) && TokensFrom(s, n)
    requires HasStage(s, r) && StageAt(s, r).token == Some(LeaseDigest(token))
    requires HasStage(n, r) ==> StageAt(n, r).token != Some(LeaseDigest(token))
    ensures Spent(n, token)
  {
    assert s.tasks[r.task].stages[r.position].token.value.token.serial < s.issued;
    forall q | HasStage(n, q) ensures StageAt(n, q).token != Some(LeaseDigest(token)) {
      assert n.tasks[q.task].stages[q.position] == StageAt(n, q);
      if q != r && HasStage(s, q) {
        OnlyHolder(s, r, q, token);
      }
    }
  }

  lemma OnlyHolder(s: Store, r: StageRef, q: StageRef, token: Token)
    requires TokensInv(s) && HasStage(s, r) && HasStage(s, q) && q != r
    requires StageAt(s, r).token == Some(LeaseDigest(token))
    ensures StageAt(s, q).token != Some(LeaseDigest(token))
  {
    assert s.tasks[r.task].stages[r.position].token == Some(LeaseDigest(token));
    assert s.tasks[q.task].stages[q.position] == StageAt(s, q);
  }

  /**
   Fencing over whole runs: once a stage no longer holds a token, because the lease was
   completed, expired, requeued or cancelled, every later call under it changes nothing.
   */
  lemma FencedForever(s: Store, actions: seq<Action>, i: nat, j: nat, r: StageRef, token: Token)
    requires Inv(s) && Feasible(s, actions) && i < j < |actions| && Presents(actions[j], token)
    requires HasStage(Run(s, actions[..i]), r)
    requires StageAt(Run(s, actions[..i]), r).token == Some(LeaseDigest(token))
    requires var n := Run(s, actions[..i + 1]); HasStage(n, r) ==> StageAt(n, r).token != Some(LeaseDigest(token))
    ensures Run(s, actions[..j + 1]) == Tick(Run(s, actions[..j]), actions[j].now)
  {
    hide Inv, Spent, Admissible, Feasible, Step, Run, Presents;
    Midway(s, actions, i);
    LeavingSpends(Run(s, actions[..i]), actions[i], r, token);
    SpentForever(s, actions, i + 1, j, token);
    Midway(s, actions, j);
    SpentCallIdle(Run(s, actions[..j]), actions[j], token);
  }

  /** The completion that takes effect at this point of a run. */
  ghost predicate Effective(s: Store, a: Action) {
    a.Complete? && HasStage(s, a.stage) && Applies(StageAt(s, a.stage), a.completion, a.now)
  }

  lemma CompletionSpends(s: Store, a: Action)
    requires Inv(s) && Admissible(s, a) && Effective(s, a)
    ensures Spent(Step(s, a).store, a.completion.token)
    ensures HasStage(Step(s, a).store, a.stage) && Replays(StageAt(Step(s, a).store, a.stage), a.completion)
  {
    var r, t := a.stage, s.tasks[a.stage.task];
    CompleteMoves(t, r.position, a.completion, s.clock, a.now);
    StepKeeps(s, a);
    var n := Step(s, a).store;
    assert StageInv(n.tasks[r.task].stages[r.position], n.clock);
    LeavingSpends(s, a, r, a.completion.token);
  }

  /** Over a whole run, one token has at most one effective completion. */
  lemma AtMostOneCompletion(s: Store, actions: seq<Action>, i: nat, j: nat)
    requires Inv(s) && Feasible(s, actions) && i < j < |actions|
    requires Effective(Run(s, actions[..i]), actions[i]) && Effective(Run(s, actions[..j]), actions[j])
    ensures actions[i].completion.token != actions[j].completion.token
  {
    hide Inv, Spent;
    var token := actions[i].completion.token;
    Midway(s, actions, i);
    CompletionSpends(Run(s, actions[..i]), actions[i]);
    SpentForever(s, actions, i + 1, j, token);
    SpentNotEffective(Run(s, actions[..j]), actions[j], token);
  }

  lemma SpentNotEffective(s: Store, a: Action, token: Token)
    requires Spent(s, token) && Effective(s, a)
    ensures a.completion.token != token
  {
    assert HasStage(s, a.stage) && StageAt(s, a.stage).token == Some(LeaseDigest(a.completion.token));
  }

  /** Replaying a recorded completion changes no row and reports the state as it now stands. */
  lemma ReplayIdle(s: Store, r: StageRef, request: CompleteRequest, now: Time)
    requires HasStage(s, r) && Replays(StageAt(s, r), request)
    ensures Step(s, Complete(r, request, now)).store == Tick(s, now)
    ensures Step(s, Complete(r, request, now)).reply == ExecutionData(s.tasks[r.task], r.position)
  {
  }

  /** While a completion is on record, any different completion is refused without effect. */
  lemma ConflictingCompletionRefused(s: Store, r: StageRef, request: CompleteRequest, now: Time)
    requires HasStage(s, r) && StageAt(s, r).completionRequest.Some? && !Replays(StageAt(s, r), request)
    ensures Step(s, Complete(r, request, now)).store == Tick(s, now)
    ensures Step(s, Complete(r, request, now)).reply == Raised(StageConflict)
  {
  }

  /** A worker that holds a live lease on a running stage is never blocked by an older completion. */
  lemma HolderCanComplete(s: Store, r: StageRef, request: CompleteRequest, now: Time)
    requires Inv(s) && HasStage(s, r) && StageAt(s, r).status.Running? && s.clock <= now
    requires RequireValidLease(StageAt(s, r), request.worker, request.token, now).Success?
    ensures Effective(s, Complete(r, request, now))
    ensures Step(s, Complete(r, request, now)).reply.Execution?
  {
    assert StageInv(s.tasks[r.task].stages[r.position], s.clock);
    assert TaskInv(s.tasks[r.task], s.clock);
    CompletionEffect(s, r, request, now);
  }

  lemma CompletionEffect(s: Store, r: StageRef, request: CompleteRequest, now: Time)
    requires HasStage(s, r) && Applies(StageAt(s, r), request, now)
    requires TaskInv(s.tasks[r.task], s.clock) && s.clock <= now
    ensures Step(s, Complete(r, request, now)).reply.Execution?
  {
    CompleteMoves(s.tasks[r.task], r.position, request, s.clock, now);
  }
}
