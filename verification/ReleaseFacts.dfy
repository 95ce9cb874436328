/**
 * What runRelease and runCheck promise, proved about their specifications
 * ReleaseResult and CheckResult (and so about RunRelease and RunCheck, which
 * compute them): which steps a release plans, that it stops at the first failure,
 * that a dry run changes nothing, that the release actions happen in their
 * fixed order and only when asked for, which errors end a run and with which
 * exit code, what a successful release leaves in the repository, and what a
 * passed check says about the tag.
 */
module ReleaseFacts {
  import opened Wrappers
  import Changelog
  import ChangelogFacts
  import opened Errors
  import opened Git
  import opened Steps
  import opened App
  import opened Release

  // ---------------------------------------------------------------------
  // The inventory of a release plan.
  // ---------------------------------------------------------------------

  /** The steps of Preparation: the repository check, then the sync with the remote when it is needed. */
  predicate PreparationStep(c: Config, s: Step) {
    || s == Plain(EnsureRepo)
    || (NeedsRemote(c.actions) && (s == Plain(EnsureRemote(c.remote)) || s == Plain(FetchRemote(c.remote)) || s == Plain(PullFFOnly(c.remote))))
  }

  /** The steps of TagChecks: the deletions of --force-retag, else the tag checks. */
  predicate TagCheckStep(c: Config, s: Step) {
    var a, t := c.actions, c.tag;
    || (c.forceRetag && a.pushTag && s == DropRemoteTag(c))
    || (a.tag && c.forceRetag && s == DropLocalTag(c))
    || (a.tag && !c.forceRetag && s == TagAbsent(c.path, t))
    || (a.pushTag && !a.tag && s == Replace(EnsureTagPresent(t), Preflight(CreateTagFirst(t))))
  }

  /** The steps of Committing. */
  predicate CommitStep(c: Config, s: Step) {
    var a := c.actions;
    || (a.stageAll && s == Plain(StageAll))
    || (a.commit && !(c.dryRun && a.stageAll) && s == Require(HasStagedChanges, NothingToCommit(c)))
    || (a.commit && s == Plain(Commit(c.entry.summary, c.entry.description)))
  }

  /** The steps of Publishing. */
  predicate PublishStep(c: Config, s: Step) {
    var a, r, t := c.actions, c.remote, c.tag;
    || (a.tag && s == Plain(CreateTag(t, c.entry.summary, c.entry.description)))
    || (a.pushCommit && s == Plain(PushHead(r)))
    || (a.pushTag && a.tag && s == WrapFailure(PushTag(r, t), CreatedLocally(t)))
    || (a.pushTag && !a.tag && s == Plain(PushTag(r, t)))
  }

  /** The steps a release may plan, each with the actions and flags that bring it in. */
  predicate PlannedStep(c: Config, s: Step) {
    PreparationStep(c, s) || TagCheckStep(c, s) || CommitStep(c, s) || PublishStep(c, s)
  }

  lemma PreparationInventory(c: Config, s: Step)
    ensures s in Preparation(c) <==> PreparationStep(c, s)
  {
  }

  lemma TagCheckInventory(c: Config, s: Step)
    ensures s in TagChecks(c) <==> TagCheckStep(c, s)
  {
    assert s in TagChecks(c) <==> s in TagGuard(c) || s in RetagRemote(c) || s in PushTagGuard(c);
  }

  lemma CommitInventory(c: Config, s: Step)
    ensures s in Committing(c) <==> CommitStep(c, s)
  {
  }

  lemma PublishInventory(c: Config, s: Step)
    ensures s in Publishing(c) <==> PublishStep(c, s)
  {
    assert s in Publishing(c) <==> s in Tagging(c) || s in PushHeadStep(c) || s in PushTagStep(c);
  }

  /** The plan holds exactly the planned steps. */
  lemma PlanInventory(c: Config, s: Step)
    ensures s in Plan(c) <==> PlannedStep(c, s)
  {
    PreparationInventory(c, s);
    TagCheckInventory(c, s);
    CommitInventory(c, s);
    PublishInventory(c, s);
  }

  /** A call that talks to the remote. */
  predicate TalksToRemote(x: Call) {
    || x.EnsureRemote? || x.FetchTags? || x.FetchRemote? || x.PullFFOnly? || x.HasRemoteTag?
    || x.DeleteRemoteTag? || x.PushHead? || x.PushTag?
  }

  lemma {:induction false} PlanCallsMembers(steps: seq<Step>, x: Call)
    ensures x in PlanCalls(steps) <==> exists s :: s in steps && x in StepCalls(s)
    decreases |steps|
  {
    if steps != [] {
      PlanCallsMembers(steps[1..], x);
      if x in PlanCalls(steps[1..]) {
        var s :| s in steps[1..] && x in StepCalls(s);
        assert s in steps;
      }
      forall s | s in steps && x in StepCalls(s) ensures x in PlanCalls(steps) {
        if s != steps[0] {
          assert s in steps[1..];
        }
      }
    }
  }

  /**
   * The calls a release may make: none to the remote when nothing is pushed,
   * the staged-change query only for a commit that is not a dry run after
   * staging, only the release actions asked for, and tag deletions only with
   * --force-retag (the remote one only when the tag is pushed).
   */
  predicate AllowedCall(c: Config, x: Call) {
    && (!NeedsRemote(c.actions) ==> !TalksToRemote(x))
    && (x == HasStagedChanges ==> c.actions.commit && !(c.dryRun && c.actions.stageAll))
    && (IsAction(x) ==> x in ExpectedActions(c))
    && (x.DeleteLocalTag? ==> c.actions.tag && c.forceRetag)
    && (x.DeleteRemoteTag? ==> c.forceRetag && c.actions.pushTag)
  }

  lemma PreparationCalls(c: Config, s: Step, x: Call)
    requires PreparationStep(c, s) && x in StepCalls(s)
    ensures AllowedCall(c, x)
  {
  }

  lemma TagCheckCalls(c: Config, s: Step, x: Call)
    requires TagCheckStep(c, s) && x in StepCalls(s)
    ensures AllowedCall(c, x)
  {
    if s.DeleteIfPresent? {
      TagDeletionCalls(c, s, x);
    } else {
      TagQueryCalls(c, s, x);
    }
  }

  /** The tag checks without --force-retag ask about the local tag only. */
  lemma TagQueryCalls(c: Config, s: Step, x: Call)
    requires s.Replace? && (s.call == EnsureTagAbsent(c.tag) || s.call == EnsureTagPresent(c.tag))
    requires x in StepCalls(s)
    ensures AllowedCall(c, x)
  {
    assert x == s.call;
  }

  /** The deletions of --force-retag query and delete the tag only. */
  lemma TagDeletionCalls(c: Config, s: Step, x: Call)
    requires (s == DropRemoteTag(c) && c.forceRetag && c.actions.pushTag) || (s == DropLocalTag(c) && c.actions.tag && c.forceRetag)
    requires x in StepCalls(s)
    ensures AllowedCall(c, x)
  {
    assert x == s.query || x == s.delete;
  }

  lemma CommitCalls(c: Config, s: Step, x: Call)
    requires CommitStep(c, s) && x in StepCalls(s)
    ensures AllowedCall(c, x)
  {
  }

  lemma PublishCalls(c: Config, s: Step, x: Call)
    requires PublishStep(c, s) && x in StepCalls(s)
    ensures AllowedCall(c, x)
  {
  }

  /** The calls a release plans are allowed ones. */
  lemma PlannedCalls(c: Config, x: Call)
    requires x in PlanCalls(Plan(c))
    ensures AllowedCall(c, x)
  {
    PlanCallsMembers(Plan(c), x);
    var s :| s in Plan(c) && x in StepCalls(s);
    PlanInventory(c, s);
    if PreparationStep(c, s) {
      PreparationCalls(c, s, x);
    } else if TagCheckStep(c, s) {
      TagCheckCalls(c, s, x);
    } else if CommitStep(c, s) {
      CommitCalls(c, s, x);
    } else {
      PublishCalls(c, s, x);
    }
  }

  // ---------------------------------------------------------------------
  // The release actions.
  // ---------------------------------------------------------------------

  /** The release actions asked for, in the order a release makes them: stage, commit, tag, push HEAD, push the tag. */
  function ExpectedActions(c: Config): seq<Call> {
    CommitActions(c) + PublishActions(c)
  }

  /** Staging, then the commit. */
  function CommitActions(c: Config): seq<Call> {
    (if c.actions.stageAll then [StageAll] else [])
    + (if c.actions.commit then [Commit(c.entry.summary, c.entry.description)] else [])
  }

  /** The tag, then the push of HEAD, then the push of the tag. */
  function PublishActions(c: Config): seq<Call> {
    (if c.actions.tag then [CreateTag(c.tag, c.entry.summary, c.entry.description)] else [])
    + (if c.actions.pushCommit then [PushHead(c.remote)] else [])
    + (if c.actions.pushTag then [PushTag(c.remote, c.tag)] else [])
  }

  /** The preparation makes no release action. */
  lemma PreparationMakesNoAction(c: Config)
    ensures PlanActions(Preparation(c)) == []
  {
    forall i | 0 <= i < |Preparation(c)| ensures !IsAction(FirstCall(Preparation(c)[i])) {
      PreparationInventory(c, Preparation(c)[i]);
    }
    PlanActionsNone(Preparation(c));
  }

  /** The tag checks make no release action. */
  lemma TagChecksMakeNoAction(c: Config)
    ensures PlanActions(TagChecks(c)) == []
  {
    forall i | 0 <= i < |TagChecks(c)| ensures !IsAction(FirstCall(TagChecks(c)[i])) {
      TagCheckInventory(c, TagChecks(c)[i]);
    }
    PlanActionsNone(TagChecks(c));
  }

  lemma CommittingActions(c: Config)
    ensures PlanActions(Committing(c)) == CommitActions(c)
  {
    PlanActionsAppend(Stage(c), CommitSteps(c));
    if c.actions.stageAll {
      PlanActionsOne(Plain(StageAll));
    }
    if c.actions.commit {
      var check := if c.dryRun && c.actions.stageAll then [] else [Require(HasStagedChanges, NothingToCommit(c))];
      PlanActionsAppend(check, [Plain(Commit(c.entry.summary, c.entry.description))]);
      PlanActionsOne(Plain(Commit(c.entry.summary, c.entry.description)));
      if check != [] {
        PlanActionsOne(check[0]);
      }
    }
  }

  lemma PublishingActions(c: Config)
    ensures PlanActions(Publishing(c)) == PublishActions(c)
  {
    PlanActionsAppend(Tagging(c) + PushHeadStep(c), PushTagStep(c));
    PlanActionsAppend(Tagging(c), PushHeadStep(c));
    if c.actions.tag {
      PlanActionsOne(Tagging(c)[0]);
    }
    if c.actions.pushCommit {
      PlanActionsOne(PushHeadStep(c)[0]);
    }
    if c.actions.pushTag {
      PlanActionsOne(PushTagStep(c)[0]);
    }
  }

  /** Run to the end, the plan makes the release actions asked for, in order. */
  lemma PlannedActions(c: Config)
    ensures PlanActions(Plan(c)) == ExpectedActions(c)
  {
    var prep, checks, commit, publish := Preparation(c), TagChecks(c), Committing(c), Publishing(c);
    PlanActionsAppend(prep + checks + commit, publish);
    PlanActionsAppend(prep + checks, commit);
    PlanActionsAppend(prep, checks);
    PreparationMakesNoAction(c);
    TagChecksMakeNoAction(c);
    CommittingActions(c);
    PublishingActions(c);
    assert PlanActions(prep + checks) == [];
    assert PlanActions(prep + checks + commit) == CommitActions(c);
  }

  /** No planned step makes a release action after a query: the only deletions are of the tag. */
  lemma PlannedActionIsFirst(c: Config, s: Step)
    requires PlannedStep(c, s)
    ensures ActionIsFirst(s)
  {
  }

  /**
   * The release actions a release makes are those asked for, in their fixed
   * order: a prefix of them when it fails, all of them when it succeeds.
   */
  lemma ReleaseActionsInOrder(f: ReleaseFlags, env: Env)
    requires Prepare(f, env).Success?
    ensures var c, r := Prepare(f, env).value, ReleaseResult(f, env);
      && Actions(r.calls) <= ExpectedActions(c)
      && (r.err.None? ==> Actions(r.calls) == ExpectedActions(c))
  {
    var c := Prepare(f, env).value;
    var run0 := Run(env.world, []);
    forall k | 0 <= k < |Plan(c)| ensures ActionIsFirst(Plan(c)[k]) {
      PlanInventory(c, Plan(c)[k]);
      PlannedActionIsFirst(c, Plan(c)[k]);
    }
    InterpActions(PortOf(f.dryRun, env), Plan(c), run0);
    PlannedActions(c);
    var o := Interp(PortOf(f.dryRun, env), Plan(c), run0);
    assert o.run.calls[|run0.calls|..] == o.run.calls;
  }

  /** Every call of a release is an allowed one. */
  lemma ReleaseCalls(f: ReleaseFlags, env: Env, x: Call)
    requires Prepare(f, env).Success? && x in ReleaseResult(f, env).calls
    ensures AllowedCall(Prepare(f, env).value, x)
  {
    var c := Prepare(f, env).value;
    var run0 := Run(env.world, []);
    InterpCallsFromPlan(PortOf(f.dryRun, env), Plan(c), run0);
    var i :| 0 <= i < |ReleaseResult(f, env).calls| && ReleaseResult(f, env).calls[i] == x;
    PlannedCalls(c, x);
  }

  // ---------------------------------------------------------------------
  // The preparation comes first.
  // ---------------------------------------------------------------------

  /**
   * The calls of the preparation: the repository check, then, when anything
   * is pushed, the remote check, the fetch and the fast-forward pull.
   */
  function SyncCalls(c: Config): seq<Call> {
    [EnsureRepo] + (if NeedsRemote(c.actions) then [EnsureRemote(c.remote), FetchRemote(c.remote), PullFFOnly(c.remote)] else [])
  }

  /** A call of the preparation. */
  predicate IsSyncCall(x: Call) {
    x.EnsureRepo? || x.EnsureRemote? || x.FetchRemote? || x.PullFFOnly?
  }

  lemma PreparationIsSync(c: Config)
    ensures Plan(c) == Plains(SyncCalls(c)) + (TagChecks(c) + Committing(c) + Publishing(c))
  {
    PreparationPlains(c);
    Regroup(Preparation(c), TagChecks(c), Committing(c), Publishing(c));
  }

  lemma Regroup<T>(a: seq<T>, b: seq<T>, c: seq<T>, d: seq<T>)
    ensures a + b + c + d == a + (b + c + d)
  {
  }

  lemma PreparationPlains(c: Config)
    ensures Preparation(c) == Plains(SyncCalls(c))
  {
    var sync := SyncCalls(c);
    assert |Preparation(c)| == |sync|;
    forall i | 0 <= i < |sync| ensures Preparation(c)[i] == Plain(sync[i]) {
    }
  }

  /** No step after the preparation makes a call of the preparation. */
  lemma AfterSyncStep(c: Config, s: Step, x: Call)
    requires s in TagChecks(c) + Committing(c) + Publishing(c) && x in StepCalls(s)
    ensures !IsSyncCall(x)
  {
    if s in TagChecks(c) {
      TagCheckNoSync(c, s, x);
    } else if s in Committing(c) {
      CommitNoSync(c, s, x);
    } else {
      PublishNoSync(c, s, x);
    }
  }

  lemma TagCheckNoSync(c: Config, s: Step, x: Call)
    requires s in TagChecks(c) && x in StepCalls(s)
    ensures !IsSyncCall(x)
  {
    TagCheckInventory(c, s);
  }

  lemma CommitNoSync(c: Config, s: Step, x: Call)
    requires s in Committing(c) && x in StepCalls(s)
    ensures !IsSyncCall(x)
  {
    CommitInventory(c, s);
  }

  lemma PublishNoSync(c: Config, s: Step, x: Call)
    requires s in Publishing(c) && x in StepCalls(s)
    ensures !IsSyncCall(x)
  {
    PublishInventory(c, s);
  }

  /** The rest of a release makes no call of the preparation. */
  lemma AfterSyncCalls(c: Config, p: Port, run: Run)
    ensures var rest := TagChecks(c) + Committing(c) + Publishing(c);
      forall i :: |run.calls| <= i < |Interp(p, rest, run).run.calls| ==> !IsSyncCall(Interp(p, rest, run).run.calls[i])
  {
    var rest := TagChecks(c) + Committing(c) + Publishing(c);
    var o := Interp(p, rest, run);
    InterpCallsFromPlan(p, rest, run);
    forall i | |run.calls| <= i < |o.run.calls| ensures !IsSyncCall(o.run.calls[i]) {
      PlanCallsMembers(rest, o.run.calls[i]);
      var s :| s in rest && o.run.calls[i] in StepCalls(s);
      AfterSyncStep(c, s, o.run.calls[i]);
    }
  }

  /**
   * A release starts with the repository check and goes on with the remote
   * check, the fetch and the pull, in that order, exactly when a push is
   * asked for; it makes these calls before any other, never again later,
   * and stops early among them only on a failure.
   */
  lemma ReleaseStartsWithSync(f: ReleaseFlags, env: Env)
    requires Prepare(f, env).Success?
    ensures var c, r := Prepare(f, env).value, ReleaseResult(f, env); var sync := SyncCalls(c);
      && r.calls != [] && r.calls[0] == EnsureRepo
      && (forall i :: 0 <= i < |sync| && i < |r.calls| ==> r.calls[i] == sync[i])
      && (|r.calls| < |sync| ==> r.err.Some?)
      && (forall i :: |sync| <= i < |r.calls| ==> !IsSyncCall(r.calls[i]))
  {
    PlanStartsWithSync(Prepare(f, env).value, PortOf(f.dryRun, env), env.world);
  }

  /** ReleaseStartsWithSync, for the plan of `c` run from `w` through `p`. */
  lemma PlanStartsWithSync(c: Config, p: Port, w: World)
    ensures var o, sync := Interp(p, Plan(c), Run(w, [])), SyncCalls(c);
      && o.run.calls != [] && o.run.calls[0] == EnsureRepo
      && (forall i :: 0 <= i < |sync| && i < |o.run.calls| ==> o.run.calls[i] == sync[i])
      && (|o.run.calls| < |sync| ==> o.err.Some?)
      && (forall i :: |sync| <= i < |o.run.calls| ==> !IsSyncCall(o.run.calls[i]))
  {
    var run0 := Run(w, []);
    var sync, rest := SyncCalls(c), TagChecks(c) + Committing(c) + Publishing(c);
    PreparationIsSync(c);
    PlainsThen(p, sync, rest, run0);
    var first := Interp(p, Plains(sync), run0);
    if first.err.None? {
      AfterSyncCalls(c, p, first.run);
    }
  }

  /**
   * A plan that starts with plain calls makes a prefix of them first, all of
   * them unless one failed, and then goes on with the rest of the plan.
   */
  lemma PlainsThen(p: Port, cs: seq<Call>, ys: seq<Step>, run: Run)
    requires run.calls == []
    ensures var o, first := Interp(p, Plains(cs) + ys, run), Interp(p, Plains(cs), run);
      && (cs != [] ==> o.run.calls != [] && o.run.calls[0] == cs[0])
      && (forall i :: 0 <= i < |cs| && i < |o.run.calls| ==> o.run.calls[i] == cs[i])
      && (|o.run.calls| < |cs| ==> o.err.Some?)
      && (first.err.None? ==> |first.run.calls| == |cs| && o == Interp(p, ys, first.run))
      && (first.err.Some? ==> o == first && |o.run.calls| <= |cs|)
  {
    InterpAppend(p, Plains(cs), ys, run);
    InterpPlains(p, cs, run);
    var first := Interp(p, Plains(cs), run);
    var o := Interp(p, Plains(cs) + ys, run);
    if first.err.Some? {
      PrefixAgrees(o.run.calls, cs);
    } else {
      assert o.run.calls[..|cs|] == cs;
      PrefixAgrees(cs, o.run.calls);
    }
  }

  /** A prefix agrees with the sequence it is a prefix of, index by index. */
  lemma PrefixAgrees<T>(a: seq<T>, b: seq<T>)
    requires |a| <= |b| && a == b[..|a|]
    ensures forall i :: 0 <= i < |a| ==> a[i] == b[i]
  {
  }

  // ---------------------------------------------------------------------
  // How a release ends.
  // ---------------------------------------------------------------------

  /**
   * A usage error ends a release before the changelog is read: whatever the
   * changelog holds, a positional argument, or --all with an explicit
   * action, makes no call and changes nothing.
   */
  lemma UsageErrorsFirst(f: ReleaseFlags, env: Env)
    requires f.positional != [] || (f.all && ExplicitActions(f))
    ensures ReleaseResult(f, env)
      == RunResult(Some(Usage(if f.positional != [] then PositionalRelease else AllWithActions)), [], env.world)
  {
  }

  /**
   * A release stops at its first failure: the calls up to the last one all
   * succeeded, and the repository is what they made of it; a release that
   * fails before its first call makes none and changes nothing.
   */
  lemma ReleaseStopsAtFirstFailure(f: ReleaseFlags, env: Env)
    ensures var r := ReleaseResult(f, env);
      if Prepare(f, env).Failure? then r.calls == [] && r.world == env.world && r.err.Some?
      else StoppedAtFirstFailure(PortOf(f.dryRun, env), Run(env.world, []), Outcome(r.err, Run(r.world, r.calls)))
  {
    if Prepare(f, env).Success? {
      InterpStops(PortOf(f.dryRun, env), Plan(Prepare(f, env).value), Run(env.world, []));
    }
  }

  /** A dry run leaves the repository as it was, whatever happens. */
  lemma DryRunKeepsRepository(f: ReleaseFlags, env: Env)
    requires f.dryRun
    ensures ReleaseResult(f, env).world == env.world
  {
    if Prepare(f, env).Success? {
      InterpDryRun(PortOf(f.dryRun, env), Plan(Prepare(f, env).value), Run(env.world, []));
    }
  }

  /** The client's failures are GitErrors, as gitutil.Client's are. */
  predicate GitFailuresOnly(env: Env) {
    forall x :: x in env.failures ==> env.failures[x].Git?
  }

  /**
   * The errors a release can end with once its changelog entry is known:
   * one of the four preflight errors, each only where its check is planned,
   * a GitError, or a failed push of a tag this run created, wrapped.
   */
  predicate ReleaseError(c: Config, e: Error) {
    || (e == Preflight(TagExists(c.tag, c.path)) && c.actions.tag && !c.forceRetag)
    || (e == Preflight(CreateTagFirst(c.tag)) && c.actions.pushTag && !c.actions.tag)
    || (e == NothingToCommit(c) && c.actions.commit && !(c.dryRun && c.actions.stageAll))
    || e.Git?
    || (e.Wrapped? && e.inner.Git? && e.note == CreatedLocally(c.tag) && c.actions.tag && c.actions.pushTag)
  }

  lemma PlannedStepErrors(c: Config, p: Port, s: Step, e: Error)
    requires PlannedStep(c, s) && StepError(p, s, e)
    requires forall e' :: PortError(p, e') ==> e'.Git?
    ensures ReleaseError(c, e)
  {
    if PreparationStep(c, s) {
    } else if TagCheckStep(c, s) {
    } else if CommitStep(c, s) {
    } else {
    }
  }

  /** The exit code of each error a release can end with. */
  lemma ReleaseErrorExitCode(c: Config, e: Error)
    requires ReleaseError(c, e)
    ensures ExitCode(Some(e)) != ExitGeneral
    ensures ExitCode(Some(e)) == ExitPreflight <==> e.Preflight?
    ensures Root(e).Git? ==> ExitCode(Some(e)) == ExitGit
  {
    if e.Wrapped? {
      WrappedExitCode(e.inner, e.note);
    }
  }

  /** With the client's failures, every error of a release is a usage, changelog, preflight or git error. */
  lemma ReleaseFailures(f: ReleaseFlags, env: Env)
    requires GitFailuresOnly(env)
    ensures var r := ReleaseResult(f, env);
      r.err.Some? ==>
        match Prepare(f, env)
        case Failure(e) => r.err.value == e && (e.Usage? || e.Parse?)
        case Success(c) => ReleaseError(c, r.err.value)
  {
    if Prepare(f, env).Success? {
      var c, p := Prepare(f, env).value, PortOf(f.dryRun, env);
      var o := Interp(p, Plan(c), Run(env.world, []));
      InterpErrors(p, Plan(c), Run(env.world, []));
      if o.err.Some? {
        var s :| s in Plan(c) && StepError(p, s, o.err.value);
        PlanInventory(c, s);
        forall e | PortError(p, e) ensures e.Git? {
          if e in p.failures.Values {
            var x :| x in p.failures && p.failures[x] == e;
          }
        }
        PlannedStepErrors(c, p, s, o.err.value);
      }
    }
  }

  /**
   * The exit code of a release with the client's failures: never the
   * general 1; 4 exactly for the preflight errors, 5 for the git errors,
   * wrapped or not.
   */
  lemma ReleaseExitCode(f: ReleaseFlags, env: Env)
    requires GitFailuresOnly(env) && Prepare(f, env).Success?
    ensures var r := ReleaseResult(f, env);
      && ExitCode(r.err) != ExitGeneral
      && (ExitCode(r.err) == ExitPreflight <==> r.err.Some? && r.err.value.Preflight?)
      && (r.err.Some? && Root(r.err.value).Git? ==> ExitCode(r.err) == ExitGit)
  {
    ReleaseFailures(f, env);
    var r := ReleaseResult(f, env);
    if r.err.Some? {
      ReleaseErrorExitCode(Prepare(f, env).value, r.err.value);
    }
  }

  /** The plan up to the push of the tag. */
  function BeforeTagPush(c: Config): seq<Step> {
    Preparation(c) + TagChecks(c) + Committing(c) + Tagging(c) + PushHeadStep(c)
  }

  /** No step before the push of the tag pushes a tag. */
  lemma BeforeTagPushStep(c: Config, s: Step, x: Call)
    requires s in BeforeTagPush(c) && x in StepCalls(s)
    ensures !x.PushTag?
  {
    PreparationInventory(c, s);
    TagCheckInventory(c, s);
    CommitInventory(c, s);
  }

  /** The plan up to the push of the tag pushes no tag. */
  lemma BeforeTagPushCalls(c: Config, p: Port, run: Run)
    ensures PushTag(c.remote, c.tag) !in Interp(p, BeforeTagPush(c), run).run.calls[|run.calls|..]
  {
    var o := Interp(p, BeforeTagPush(c), run);
    InterpCallsFromPlan(p, BeforeTagPush(c), run);
    forall i | |run.calls| <= i < |o.run.calls| ensures !o.run.calls[i].PushTag? {
      PlanCallsMembers(BeforeTagPush(c), o.run.calls[i]);
      var s :| s in BeforeTagPush(c) && o.run.calls[i] in StepCalls(s);
      BeforeTagPushStep(c, s, o.run.calls[i]);
    }
  }

  /**
   * A release that fails on the push of the tag fails with the client's
   * error for it, wrapped with the note that the tag was created locally
   * exactly when this run created the tag (and the tag creation is then
   * among the calls), bare when the tag was there before.
   */
  lemma FailedTagPush(f: ReleaseFlags, env: Env)
    requires Prepare(f, env).Success?
    requires var c, r := Prepare(f, env).value, ReleaseResult(f, env);
      r.err.Some? && r.calls != [] && r.calls[|r.calls| - 1] == PushTag(c.remote, c.tag)
    ensures var c, r := Prepare(f, env).value, ReleaseResult(f, env); var push := PushTag(c.remote, c.tag);
      && push in env.failures
      && (c.actions.tag <==> CreateTag(c.tag, c.entry.summary, c.entry.description) in r.calls)
      && r.err.value == if c.actions.tag then Wrapped(env.failures[push], CreatedLocally(c.tag)) else env.failures[push]
  {
    var c := Prepare(f, env).value;
    var create := CreateTag(c.tag, c.entry.summary, c.entry.description);
    PlanFailedTagPush(c, PortOf(f.dryRun, env), env.world);
    if create in ReleaseResult(f, env).calls {
      ReleaseCalls(f, env, create);
      CreateTagAsked(c);
    }
  }

  /** The tag is created only when asked for. */
  lemma CreateTagAsked(c: Config)
    requires AllowedCall(c, CreateTag(c.tag, c.entry.summary, c.entry.description))
    ensures c.actions.tag
  {
    var create := CreateTag(c.tag, c.entry.summary, c.entry.description);
    assert create in ExpectedActions(c);
    assert create !in CommitActions(c);
  }

  /** FailedTagPush, for the plan of `c` run from `w` through `p`. */
  lemma PlanFailedTagPush(c: Config, p: Port, w: World)
    requires var o := Interp(p, Plan(c), Run(w, []));
      o.err.Some? && o.run.calls != [] && o.run.calls[|o.run.calls| - 1] == PushTag(c.remote, c.tag)
    ensures var o, push := Interp(p, Plan(c), Run(w, [])), PushTag(c.remote, c.tag);
      && push in p.failures
      && (c.actions.tag ==> CreateTag(c.tag, c.entry.summary, c.entry.description) in o.run.calls)
      && o.err.value == if c.actions.tag then Wrapped(p.failures[push], CreatedLocally(c.tag)) else p.failures[push]
  {
    ReachesTagPush(c, p, w);
    var o := Interp(p, BeforeTagPush(c), Run(w, []));
    TagPushFails(p, c, o.run);
    if c.actions.tag {
      TaggingIndex(c);
      InterpCompletes(p, BeforeTagPush(c), Run(w, []), |Preparation(c) + TagChecks(c) + Committing(c)|);
    }
  }

  /** A release whose last call is the push of the tag got through every step before it. */
  lemma ReachesTagPush(c: Config, p: Port, w: World)
    requires var o := Interp(p, Plan(c), Run(w, []));
      o.run.calls != [] && o.run.calls[|o.run.calls| - 1] == PushTag(c.remote, c.tag)
    ensures var o := Interp(p, BeforeTagPush(c), Run(w, []));
      && o.err.None? && c.actions.pushTag
      && Interp(p, Plan(c), Run(w, [])) == Perform(p, PushTagStep(c)[0], o.run)
  {
    var run0, before := Run(w, []), BeforeTagPush(c);
    var o := Interp(p, before, run0);
    PlanEndsWithTagPush(c);
    BeforeTagPushCalls(c, p, run0);
    EndsInLastPart(p, before, PushTagStep(c), run0, PushTag(c.remote, c.tag));
    assert PushTagStep(c) == [PushTagStep(c)[0]];
    InterpOne(p, PushTagStep(c)[0], o.run);
  }

  /** The push of the tag fails only with the client's failure for it, wrapped when the tag was created. */
  lemma TagPushFails(p: Port, c: Config, run: Run)
    requires c.actions.pushTag && Perform(p, PushTagStep(c)[0], run).err.Some?
    ensures var push := PushTag(c.remote, c.tag);
      && push in p.failures
      && Perform(p, PushTagStep(c)[0], run).err.value
           == if c.actions.tag then Wrapped(p.failures[push], CreatedLocally(c.tag)) else p.failures[push]
  {
  }

  lemma PlanEndsWithTagPush(c: Config)
    ensures Plan(c) == BeforeTagPush(c) + PushTagStep(c)
  {
    Regroup(Preparation(c) + TagChecks(c) + Committing(c), Tagging(c), PushHeadStep(c), PushTagStep(c));
  }

  /** Where the tag creation sits in the plan before the push of the tag. */
  lemma TaggingIndex(c: Config)
    requires c.actions.tag
    ensures var k := |Preparation(c) + TagChecks(c) + Committing(c)|;
      k < |BeforeTagPush(c)| && BeforeTagPush(c)[k] == Plain(CreateTag(c.tag, c.entry.summary, c.entry.description))
  {
  }

  /**
   * A plan whose first part never makes call `x` but whose last call is `x`
   * got through the first part and made `x` in the second.
   */
  lemma EndsInLastPart(p: Port, xs: seq<Step>, ys: seq<Step>, run: Run, x: Call)
    requires x !in Interp(p, xs, run).run.calls[|run.calls|..]
    requires var o := Interp(p, xs + ys, run);
      |run.calls| < |o.run.calls| && o.run.calls[|o.run.calls| - 1] == x
    ensures var first := Interp(p, xs, run);
      first.err.None? && ys != [] && Interp(p, xs + ys, run) == Interp(p, ys, first.run)
  {
    InterpAppend(p, xs, ys, run);
    assert xs + [] == xs;
    var first := Interp(p, xs, run);
    if |run.calls| < |first.run.calls| {
      assert first.run.calls[|run.calls|..][|first.run.calls| - 1 - |run.calls|] == first.run.calls[|first.run.calls| - 1];
    }
  }

  // ---------------------------------------------------------------------
  // What a successful release leaves in the repository.
  // ---------------------------------------------------------------------

  /** The commit step, when it succeeds outside dry-run mode, appends the release commit. */
  lemma CommitStepCommits(p: Port, summary: string, description: string, run: Run)
    requires !p.dryRun && Interp(p, [Plain(Commit(summary, description))], run).err.None?
    ensures Interp(p, [Plain(Commit(summary, description))], run).run.world.commits == run.world.commits + [CommitInfo(summary, description)]
  {
    InterpOne(p, Plain(Commit(summary, description)), run);
  }

  /** After a successful commit block, the release commit is the newest commit. */
  lemma CommittingCommits(p: Port, c: Config, run: Run)
    requires !p.dryRun && c.actions.commit && Interp(p, Committing(c), run).err.None?
    ensures var w := Interp(p, Committing(c), run).run.world;
      w.commits != [] && w.commits[|w.commits| - 1] == CommitInfo(c.entry.summary, c.entry.description)
  {
    var commit := [Plain(Commit(c.entry.summary, c.entry.description))];
    var pre := Stage(c) + (if c.dryRun && c.actions.stageAll then [] else [Require(HasStagedChanges, NothingToCommit(c))]);
    assert Committing(c) == pre + commit;
    InterpAppend(p, pre, commit, run);
    var o := Interp(p, pre, run);
    CommitStepCommits(p, c.entry.summary, c.entry.description, o.run);
  }

  /** Neither tagging nor pushing changes the commits. */
  predicate KeepsCommits(before: World, after: World) {
    after.commits == before.commits
  }

  /** Tagging, when it succeeds outside dry-run mode, adds the tag locally and changes nothing else. */
  lemma TaggingTags(p: Port, c: Config, run: Run)
    requires !p.dryRun && Interp(p, Tagging(c), run).err.None?
    ensures Interp(p, Tagging(c), run).run.world
      == if c.actions.tag then run.world.(localTags := run.world.localTags + {c.tag}) else run.world
  {
    if c.actions.tag {
      InterpOne(p, Tagging(c)[0], run);
    }
  }

  /** Pushing HEAD, when it succeeds outside dry-run mode, puts every commit on the remote and changes nothing else. */
  lemma PushHeadPushes(p: Port, c: Config, run: Run)
    requires !p.dryRun && Interp(p, PushHeadStep(c), run).err.None?
    ensures Interp(p, PushHeadStep(c), run).run.world
      == if c.actions.pushCommit then run.world.(pushed := |run.world.commits|) else run.world
  {
    if c.actions.pushCommit {
      InterpOne(p, PushHeadStep(c)[0], run);
    }
  }

  /** Pushing the tag, when it succeeds outside dry-run mode, adds it on the remote and changes nothing else. */
  lemma PushTagPushes(p: Port, c: Config, run: Run)
    requires !p.dryRun && Interp(p, PushTagStep(c), run).err.None?
    ensures Interp(p, PushTagStep(c), run).run.world
      == if c.actions.pushTag then run.world.(remoteTags := run.world.remoteTags + {c.tag}) else run.world
  {
    if c.actions.pushTag {
      InterpOne(p, PushTagStep(c)[0], run);
    }
  }

  /**
   * After a successful publishing block, outside dry-run mode: the commits
   * are unchanged, the tag exists locally when it was created, on the remote
   * when it was pushed, and HEAD is on the remote when it was pushed.
   */
  lemma PublishingPublishes(p: Port, c: Config, run: Run)
    requires !p.dryRun && Interp(p, Publishing(c), run).err.None?
    ensures var w := Interp(p, Publishing(c), run).run.world;
      && KeepsCommits(run.world, w)
      && (c.actions.tag ==> c.tag in w.localTags)
      && (c.actions.pushCommit ==> w.pushed == |w.commits|)
      && (c.actions.pushTag ==> c.tag in w.remoteTags)
  {
    InterpAppend(p, Tagging(c) + PushHeadStep(c), PushTagStep(c), run);
    InterpAppend(p, Tagging(c), PushHeadStep(c), run);
    var o1 := Interp(p, Tagging(c), run);
    var o2 := Interp(p, PushHeadStep(c), o1.run);
    TaggingTags(p, c, run);
    PushHeadPushes(p, c, o1.run);
    PushTagPushes(p, c, o2.run);
  }

  /**
   * A successful release outside dry-run mode leaves the repository as its
   * actions promise: the release commit, with the changelog entry's summary
   * and description, is the newest commit; the tag (the prefix followed by
   * the changelog version) exists locally when created and on the remote
   * when pushed; the remote has every commit when HEAD was pushed.
   */
  lemma ReleaseOutcome(f: ReleaseFlags, env: Env)
    requires !f.dryRun && Prepare(f, env).Success? && ReleaseResult(f, env).err.None?
    ensures var c, w := Prepare(f, env).value, ReleaseResult(f, env).world;
      && (c.actions.commit ==> w.commits != [] && w.commits[|w.commits| - 1] == CommitInfo(c.entry.summary, c.entry.description))
      && (c.actions.tag ==> c.tag in w.localTags)
      && (c.actions.pushTag ==> c.tag in w.remoteTags)
      && (c.actions.pushCommit ==> w.pushed == |w.commits|)
  {
    var c, p, run0 := Prepare(f, env).value, PortOf(f.dryRun, env), Run(env.world, []);
    var before := Preparation(c) + TagChecks(c);
    InterpAppend(p, before + Committing(c), Publishing(c), run0);
    InterpAppend(p, before, Committing(c), run0);
    var mid := Interp(p, before, run0).run;
    if c.actions.commit {
      CommittingCommits(p, c, mid);
    }
    PublishingPublishes(p, c, Interp(p, Committing(c), mid).run);
  }

  // ---------------------------------------------------------------------
  // runCheck.
  // ---------------------------------------------------------------------

  /** The tag a check looks for, when the changelog has an entry. */
  function CheckedTag(f: CheckFlags, env: Env): Option<string> {
    var path := ResolveChangelogPath(f.changelog, env.getenv);
    match Changelog.LatestEntry(path, env.files(path))
    case Failure(_) => None
    case Success(entry) => Some(f.tagPrefix + entry.version)
  }

  /** The check's first two steps only ask. */
  lemma CheckQueriesKeepWorld(p: Port, remote: string, run: Run)
    ensures Interp(p, [Plain(EnsureRepo)] + [Plain(EnsureRemote(remote))], run).run.world == run.world
  {
    InterpAppend(p, [Plain(EnsureRepo)], [Plain(EnsureRemote(remote))], run);
    InterpOne(p, Plain(EnsureRepo), run);
    InterpOne(p, Plain(EnsureRemote(remote)), Interp(p, [Plain(EnsureRepo)], run).run);
  }

  /**
   * Fetching the tags changes no remote tag and, when it succeeds, brings
   * every remote tag home (the tags of git's default remote, which the model
   * does not tell apart from --remote).
   */
  lemma FetchStepFetches(p: Port, run: Run)
    ensures var o := Interp(p, FetchStep(p.dryRun), run);
      && o.run.world.remoteTags == run.world.remoteTags
      && (p.dryRun ==> o.run.world == run.world)
      && (!p.dryRun && o.err.None? ==> run.world.remoteTags <= o.run.world.localTags)
  {
    if !p.dryRun {
      InterpOne(p, Plain(FetchTags), run);
    }
  }

  /** The tag check changes nothing and passes only for a tag that is not there locally. */
  lemma TagAbsentChecks(p: Port, path: string, tag: string, run: Run)
    ensures var o := Interp(p, [TagAbsent(path, tag)], run);
      o.run.world == run.world && (o.err.None? ==> tag !in run.world.localTags)
  {
    InterpOne(p, TagAbsent(path, tag), run);
  }

  /** What the check plan establishes, whatever the repository. */
  lemma CheckPlanOutcome(p: Port, path: string, remote: string, tag: string, run: Run)
    ensures var o := Interp(p, CheckPlan(path, remote, tag, p.dryRun), run);
      && o.run.world.remoteTags == run.world.remoteTags
      && (p.dryRun ==> o.run.world == run.world)
      && (o.err.None? ==> tag !in o.run.world.localTags && (!p.dryRun ==> tag !in o.run.world.remoteTags))
  {
    var first := [Plain(EnsureRepo)] + [Plain(EnsureRemote(remote))];
    InterpAppend(p, first + FetchStep(p.dryRun), [TagAbsent(path, tag)], run);
    InterpAppend(p, first, FetchStep(p.dryRun), run);
    CheckQueriesKeepWorld(p, remote, run);
    var o1 := Interp(p, first, run);
    FetchStepFetches(p, o1.run);
    var o2 := Interp(p, FetchStep(p.dryRun), o1.run);
    TagAbsentChecks(p, path, tag, o2.run);
  }

  /**
   * A check that passed found the tag absent locally, after fetching the
   * remote's tags unless in dry-run mode: the version is new, locally and
   * (outside dry-run mode) on the remote. A check changes no remote tag, and
   * in dry-run mode nothing at all. The model has one remote: the remote
   * clause holds for the source when --remote names the remote a bare
   * `git fetch --tags` fetches from.
   */
  lemma CheckPassedMeansUnreleased(f: CheckFlags, env: Env)
    ensures var r := CheckResult(f, env);
      && r.world.remoteTags == env.world.remoteTags
      && (f.dryRun ==> r.world == env.world)
      && (r.err.None? ==> f.positional == [] && CheckedTag(f, env).Some?
                          && CheckedTag(f, env).value !in r.world.localTags
                          && (!f.dryRun ==> CheckedTag(f, env).value !in r.world.remoteTags))
  {
    var path := ResolveChangelogPath(f.changelog, env.getenv);
    if f.positional == [] && Changelog.LatestEntry(path, env.files(path)).Success? {
      CheckPlanOutcome(PortOf(f.dryRun, env), path, f.remote, CheckedTag(f, env).value, Run(env.world, []));
    }
  }

  // ---------------------------------------------------------------------
  // The printed version.
  // ---------------------------------------------------------------------

  /**
   * `mdrelease version` prints the version of the entry a release with the
   * same changelog flag reads: it succeeds exactly when that release gets
   * past its preparation, and the release tag is the prefix followed by the
   * printed version.
   */
  lemma VersionNamesReleaseTag(vf: VersionFlagValues, f: ReleaseFlags, env: Env)
    requires vf.positional == [] && vf.changelog == f.changelog
    requires f.positional == [] && !(f.all && ExplicitActions(f))
    ensures RepoVersionOf(vf, env.getenv, env.files).Success? <==> Prepare(f, env).Success?
    ensures Prepare(f, env).Success? ==>
      && RepoVersionOf(vf, env.getenv, env.files) == Success(Prepare(f, env).value.entry.version)
      && Prepare(f, env).value.tag == f.tagPrefix + RepoVersionOf(vf, env.getenv, env.files).value
  {
  }

  /**
   * The version printed is the one `mdrelease check` with the same changelog
   * flag looks for: the checked tag is the prefix followed by it, and there
   * is one exactly when a version is printed.
   */
  lemma VersionNamesCheckedTag(vf: VersionFlagValues, f: CheckFlags, env: Env)
    requires vf.positional == [] && vf.changelog == f.changelog
    ensures RepoVersionOf(vf, env.getenv, env.files).Success? <==> CheckedTag(f, env).Some?
    ensures RepoVersionOf(vf, env.getenv, env.files).Success? ==>
      CheckedTag(f, env) == Some(f.tagPrefix + RepoVersionOf(vf, env.getenv, env.files).value)
  {
  }

  /**
   * For a changelog written in the expected format, `mdrelease version`
   * prints the version of its newest heading.
   */
  lemma VersionOfWrittenChangelog(vf: VersionFlagValues, env: Env, version: string, summary: string, items: seq<string>)
    requires vf.positional == []
    requires Heading.IsVersion(version) && ChangelogFacts.IsOneLineText(summary)
    requires forall k :: 0 <= k < |items| ==> ChangelogFacts.IsOneLineText(items[k])
    requires var path := ResolveChangelogPath(vf.changelog, env.getenv);
      env.files(path) == Changelog.Readable(Changelog.Unlines(ChangelogFacts.Release(version, summary, items)), None)
    ensures RepoVersionOf(vf, env.getenv, env.files) == Success(version)
  {
    ChangelogFacts.ReleaseRoundTrip(ResolveChangelogPath(vf.changelog, env.getenv), version, summary, items);
  }
}
