/**
 * The shape of runRelease and runCheck: a fixed list of guarded port calls,
 * each of which returns early on the first error. A plan is a sequence of
 * steps; Interp runs it against a port. The kinds of step are the five
 * patterns those functions use:
 *
 *   Plain(c)              `if err := git.C(); err != nil { return err }`
 *   Replace(c, e)         the same, returning `e` instead of the port's error
 *   Require(q, e)         a query whose error is returned and whose "no" is the error `e`
 *   DeleteIfPresent(q, d) a query whose error is returned; on "yes", call `d`
 *   WrapFailure(c, note)  a call whose error is returned wrapped, with `note` appended
 */
module Steps {
  import opened Wrappers
  import opened Errors
  import opened Git

  datatype Step =
    | Plain(call: Call)
    | Replace(call: Call, err: Error)
    | Require(query: Call, err: Error)
    | DeleteIfPresent(query: Call, delete: Call)
    | WrapFailure(call: Call, note: string)

  /** The repository and the calls made so far. */
  datatype Run = Run(world: World, calls: seq<Call>)

  /** How a plan, or a part of it, ended: the error it returned, if any, and the run so far. */
  datatype Outcome = Outcome(err: Option<Error>, run: Run)

  /** One call, recorded. */
  function Call1(p: Port, run: Run, c: Call): (Result<bool, Error>, Run)
  {
    var reply := Exec(p, run.world, c);
    (reply.result, Run(reply.world, run.calls + [c]))
  }

  /** The calls a step may make. */
  function StepCalls(s: Step): set<Call>
  {
    match s
    case Plain(c) => {c}
    case Replace(c, _) => {c}
    case Require(q, _) => {q}
    case DeleteIfPresent(q, d) => {q, d}
    case WrapFailure(c, _) => {c}
  }

  /** The call a step always makes when it is reached. */
  function FirstCall(s: Step): Call
  {
    match s
    case Plain(c) => c
    case Replace(c, _) => c
    case Require(q, _) => q
    case DeleteIfPresent(q, _) => q
    case WrapFailure(c, _) => c
  }

  /**
   * One step. It makes its first call and, for a deletion whose query said
   * yes, the deletion; it makes no call outside StepCalls.
   */
  function Perform(p: Port, s: Step, run: Run): (o: Outcome)
    ensures |run.calls| < |o.run.calls| <= |run.calls| + 2 && o.run.calls[..|run.calls|] == run.calls
    ensures o.run.calls[|run.calls|] == FirstCall(s)
    ensures forall i :: |run.calls| <= i < |o.run.calls| ==> o.run.calls[i] in StepCalls(s)
  {
    match s
    case Plain(c) =>
      var (r, next) := Call1(p, run, c);
      Outcome(if r.Failure? then Some(r.error) else None, next)
    case Replace(c, e) =>
      var (r, next) := Call1(p, run, c);
      Outcome(if r.Failure? then Some(e) else None, next)
    case Require(q, e) =>
      var (r, next) := Call1(p, run, q);
      Outcome(if r.Failure? then Some(r.error) else if !r.value then Some(e) else None, next)
    case DeleteIfPresent(q, d) =>
      var (r, next) := Call1(p, run, q);
      if r.Failure? then Outcome(Some(r.error), next)
      else if !r.value then Outcome(None, next)
      else
        var (r', last) := Call1(p, next, d);
        Outcome(if r'.Failure? then Some(r'.error) else None, last)
    case WrapFailure(c, note) =>
      var (r, next) := Call1(p, run, c);
      Outcome(if r.Failure? then Some(Wrapped(r.error, note)) else None, next)
  }

  /** Runs the steps in order and stops at the first one that returns an error. */
  function Interp(p: Port, steps: seq<Step>, run: Run): (o: Outcome)
    ensures |run.calls| <= |o.run.calls| && o.run.calls[..|run.calls|] == run.calls
    decreases |steps|
  {
    if steps == [] then Outcome(None, run)
    else
      var o := Perform(p, steps[0], run);
      if o.err.Some? then o else Interp(p, steps[1..], o.run)
  }

  /** A plan of one step is that step. */
  lemma InterpOne(p: Port, s: Step, run: Run)
    ensures Interp(p, [s], run) == Perform(p, s, run)
  {
    assert [s][1..] == [];
  }

  /** A step other than a deletion that succeeded made its call successfully and left the repository as that call did. */
  lemma PerformSucceeded(p: Port, s: Step, run: Run)
    requires !s.DeleteIfPresent? && Perform(p, s, run).err.None?
    ensures Exec(p, run.world, FirstCall(s)).result.Success?
    ensures Perform(p, s, run).run.world == Exec(p, run.world, FirstCall(s)).world
  {
  }

  /** An error the port can return: an injected failure or a GitError of the client. */
  predicate PortError(p: Port, e: Error) {
    e.Git? || e in p.failures.Values
  }

  /** The errors a step can return. */
  predicate StepError(p: Port, s: Step, e: Error) {
    match s
    case Plain(_) => PortError(p, e)
    case Replace(_, err) => e == err
    case Require(_, err) => e == err || PortError(p, e)
    case DeleteIfPresent(_, _) => PortError(p, e)
    case WrapFailure(_, note) => e.Wrapped? && e.note == note && PortError(p, e.inner)
  }

  lemma PerformErrors(p: Port, s: Step, run: Run)
    ensures var o := Perform(p, s, run); o.err.Some? ==> StepError(p, s, o.err.value)
  {
    var o := Perform(p, s, run);
    var c := FirstCall(s);
    if Exec(p, run.world, c).result.Failure? {
      ExecErrors(p, run.world, c);
    } else if s.DeleteIfPresent? && Exec(p, run.world, c).result.value {
      var next := Exec(p, run.world, c).world;
      if Exec(p, next, s.delete).result.Failure? {
        ExecErrors(p, next, s.delete);
      }
    }
  }

  /** The error of a plan is the error of one of its steps. */
  lemma {:induction false} InterpErrors(p: Port, steps: seq<Step>, run: Run)
    ensures var o := Interp(p, steps, run); o.err.Some? ==> exists s :: s in steps && StepError(p, s, o.err.value)
    decreases |steps|
  {
    if steps != [] {
      var o := Perform(p, steps[0], run);
      PerformErrors(p, steps[0], run);
      if o.err.None? {
        InterpErrors(p, steps[1..], o.run);
        var last := Interp(p, steps[1..], o.run);
        if last.err.Some? {
          var s :| s in steps[1..] && StepError(p, s, last.err.value);
          assert s in steps;
        }
      }
    }
  }

  /** The calls a plan may make. */
  function PlanCalls(steps: seq<Step>): set<Call>
    decreases |steps|
  {
    if steps == [] then {} else StepCalls(steps[0]) + PlanCalls(steps[1..])
  }

  /** Running two plans one after the other is running their concatenation. */
  lemma {:induction false} InterpAppend(p: Port, xs: seq<Step>, ys: seq<Step>, run: Run)
    ensures Interp(p, xs + ys, run) == (var o := Interp(p, xs, run); if o.err.Some? then o else Interp(p, ys, o.run))
    decreases |xs|
  {
    if xs == [] {
      assert xs + ys == ys;
    } else {
      assert (xs + ys)[1..] == xs[1..] + ys;
      var o := Perform(p, xs[0], run);
      if o.err.None? {
        InterpAppend(p, xs[1..], ys, o.run);
      }
    }
  }

  /** A plan makes no call outside PlanCalls. */
  lemma {:induction false} InterpCallsFromPlan(p: Port, steps: seq<Step>, run: Run)
    ensures forall i :: |run.calls| <= i < |Interp(p, steps, run).run.calls| ==> Interp(p, steps, run).run.calls[i] in PlanCalls(steps)
    decreases |steps|
  {
    if steps != [] {
      var o := Perform(p, steps[0], run);
      if o.err.None? {
        var last := Interp(p, steps[1..], o.run);
        InterpCallsFromPlan(p, steps[1..], o.run);
        forall i | |run.calls| <= i < |last.run.calls| ensures last.run.calls[i] in PlanCalls(steps) {
          if i < |o.run.calls| {
            assert last.run.calls[i] == o.run.calls[i];
          }
        }
      }
    }
  }

  lemma {:induction false} PlanCallsAppend(xs: seq<Step>, ys: seq<Step>)
    ensures PlanCalls(xs + ys) == PlanCalls(xs) + PlanCalls(ys)
    decreases |xs|
  {
    if xs == [] {
      assert xs + ys == ys;
    } else {
      assert (xs + ys)[1..] == xs[1..] + ys;
      PlanCallsAppend(xs[1..], ys);
    }
  }

  /** A plan that ran to the end made the first call of every step. */
  lemma {:induction false} InterpCompletes(p: Port, steps: seq<Step>, run: Run, k: nat)
    requires k < |steps| && Interp(p, steps, run).err.None?
    ensures FirstCall(steps[k]) in Interp(p, steps, run).run.calls[|run.calls|..]
    decreases |steps|
  {
    var o := Perform(p, steps[0], run);
    var rest := Interp(p, steps[1..], o.run);
    assert o.run.calls[|run.calls|] == FirstCall(steps[0]);
    if k == 0 {
      assert rest.run.calls[|run.calls|] == FirstCall(steps[0]);
    } else {
      InterpCompletes(p, steps[1..], o.run, k - 1);
      var j :| |o.run.calls| <= j < |rest.run.calls| && rest.run.calls[j] == FirstCall(steps[k]);
      assert rest.run.calls[|run.calls|..][j - |run.calls|] == FirstCall(steps[k]);
    }
  }

  /** A plan that makes the given calls one after the other, each an error when it fails. */
  function Plains(cs: seq<Call>): seq<Step>
  {
    seq(|cs|, i requires 0 <= i < |cs| => Plain(cs[i]))
  }

  /**
   * A plan of plain calls makes a prefix of them, in order, at least the
   * first; when it makes fewer than all, the last one it made failed.
   */
  lemma {:induction false} InterpPlains(p: Port, cs: seq<Call>, run: Run)
    ensures var o, n := Interp(p, Plains(cs), run), |run.calls|;
      && |o.run.calls| <= n + |cs|
      && o.run.calls[n..] == cs[..|o.run.calls| - n]
      && (cs != [] ==> n < |o.run.calls|)
      && (|o.run.calls| < n + |cs| ==> o.err.Some?)
    decreases |cs|
  {
    var n := |run.calls|;
    if cs == [] {
      assert Plains(cs) == [];
    } else {
      var ps := Plains(cs);
      assert ps[0] == Plain(cs[0]) && ps[1..] == Plains(cs[1..]);
      var first := Perform(p, ps[0], run);
      assert first.run.calls == run.calls + [cs[0]];
      if first.err.Some? {
        assert Interp(p, ps, run) == first;
        assert first.run.calls[n..] == [cs[0]] == cs[..1];
      } else {
        InterpPlains(p, cs[1..], first.run);
        var o := Interp(p, ps[1..], first.run);
        assert Interp(p, ps, run) == o;
        var m := |o.run.calls| - (n + 1);
        assert o.run.calls[n..] == cs[..m + 1] by {
          assert o.run.calls[..n + 1] == first.run.calls;
          assert o.run.calls[n..] == [cs[0]] + o.run.calls[n + 1..];
          TakeAfterHead(cs, m);
        }
      }
    }
  }

  /** Taking m + 1 elements is taking the head, then m elements of the tail. */
  lemma TakeAfterHead<T>(xs: seq<T>, m: nat)
    requires m < |xs|
    ensures xs[..m + 1] == [xs[0]] + xs[1..][..m]
  {
  }

  // ---------------------------------------------------------------------
  // Stopping at the first failure.
  // ---------------------------------------------------------------------

  /**
   * Replays calls one after the other from `w`: the repository after them
   * when every one succeeded, None as soon as one failed.
   */
  function Replay(p: Port, w: World, calls: seq<Call>): Option<World>
    decreases |calls|
  {
    if calls == [] then Some(w)
    else
      var r := Exec(p, w, calls[0]);
      if r.result.Failure? then None else Replay(p, r.world, calls[1..])
  }

  lemma {:induction false} ReplayAppend(p: Port, w: World, a: seq<Call>, b: seq<Call>)
    ensures Replay(p, w, a + b) == if Replay(p, w, a).None? then None else Replay(p, Replay(p, w, a).value, b)
    decreases |a|
  {
    if a == [] {
      assert a + b == b;
    } else {
      assert (a + b)[1..] == a[1..] + b;
      var r := Exec(p, w, a[0]);
      if r.result.Success? {
        ReplayAppend(p, r.world, a[1..], b);
      }
    }
  }

  /** A single call replayed. */
  lemma ReplayOne(p: Port, w: World, c: Call)
    ensures Replay(p, w, [c]) == if Exec(p, w, c).result.Failure? then None else Some(Exec(p, w, c).world)
  {
    assert [c][1..] == [];
  }

  /**
   * From `run` to `o`, every call succeeded; or, when `o` is an error, every
   * call but the last succeeded, and the last one led to the repository of `o`.
   */
  predicate StoppedAtFirstFailure(p: Port, run: Run, o: Outcome)
  {
    && |run.calls| <= |o.run.calls|
    && var made := o.run.calls[|run.calls|..];
       if o.err.None? then Replay(p, run.world, made) == Some(o.run.world)
       else
         && made != []
         && Replay(p, run.world, made[..|made| - 1]).Some?
         && Exec(p, Replay(p, run.world, made[..|made| - 1]).value, made[|made| - 1]).world == o.run.world
  }

  lemma PerformStops(p: Port, s: Step, run: Run)
    ensures StoppedAtFirstFailure(p, run, Perform(p, s, run))
  {
    var o := Perform(p, s, run);
    var made := o.run.calls[|run.calls|..];
    var c := FirstCall(s);
    var r := Exec(p, run.world, c);
    ReplayOne(p, run.world, c);
    if |made| == 1 {
      assert made == [c];
      assert made[..0] == [];
    } else {
      assert s.DeleteIfPresent? && r.result.Success?;
      var d := s.delete;
      assert made == [c] + [d];
      assert made[..1] == [c];
      ReplayOne(p, r.world, d);
      ReplayAppend(p, run.world, [c], [d]);
    }
  }

  /** Stopping at the first failure: the port is never called after a call that failed. */
  lemma {:induction false} InterpStops(p: Port, steps: seq<Step>, run: Run)
    ensures StoppedAtFirstFailure(p, run, Interp(p, steps, run))
    decreases |steps|
  {
    if steps == [] {
      assert Interp(p, steps, run).run.calls[|run.calls|..] == [];
    } else {
      var first := Perform(p, steps[0], run);
      PerformStops(p, steps[0], run);
      if first.err.None? {
        InterpStops(p, steps[1..], first.run);
        StopsStep(p, run, first, Interp(p, steps[1..], first.run));
      }
    }
  }

  /** A run that stops at its first failure, after a prefix that had none, stopped at its first failure. */
  lemma StopsStep(p: Port, run: Run, first: Outcome, o: Outcome)
    requires first.err.None? && StoppedAtFirstFailure(p, run, first) && StoppedAtFirstFailure(p, first.run, o)
    requires |first.run.calls| <= |o.run.calls| && o.run.calls[..|first.run.calls|] == first.run.calls
    ensures StoppedAtFirstFailure(p, run, o)
  {
    var a := first.run.calls[|run.calls|..];
    var b := o.run.calls[|first.run.calls|..];
    SliceJoin(o.run.calls, |run.calls|, |first.run.calls|);
    if o.err.None? {
      ReplayAppend(p, run.world, a, b);
    } else {
      var made := o.run.calls[|run.calls|..];
      assert made[..|made| - 1] == a + b[..|b| - 1];
      ReplayAppend(p, run.world, a, b[..|b| - 1]);
    }
  }

  /** In dry-run mode a plan leaves the repository as it was. */
  lemma {:induction false} InterpDryRun(p: Port, steps: seq<Step>, run: Run)
    requires p.dryRun
    ensures Interp(p, steps, run).run.world == run.world
    decreases |steps|
  {
    if steps != [] {
      var first := Perform(p, steps[0], run);
      if first.err.None? {
        InterpDryRun(p, steps[1..], first.run);
      }
    }
  }

  // ---------------------------------------------------------------------
  // The order of the release actions.
  // ---------------------------------------------------------------------

  /** The calls that carry out a release action: staging, committing, tagging and pushing. */
  predicate IsAction(c: Call) {
    c.StageAll? || c.Commit? || c.CreateTag? || c.PushHead? || c.PushTag?
  }

  /** The release actions among `calls`, in order. */
  function Actions(calls: seq<Call>): (r: seq<Call>)
    ensures forall i :: 0 <= i < |r| ==> IsAction(r[i])
    decreases |calls|
  {
    if calls == [] then [] else (if IsAction(calls[0]) then [calls[0]] else []) + Actions(calls[1..])
  }

  lemma {:induction false} ActionsAppend(a: seq<Call>, b: seq<Call>)
    ensures Actions(a + b) == Actions(a) + Actions(b)
    decreases |a|
  {
    if a == [] {
      assert a + b == b;
    } else {
      assert (a + b)[1..] == a[1..] + b;
      ActionsAppend(a[1..], b);
    }
  }

  lemma ActionsJoined(a: seq<Call>, b: seq<Call>, mine: seq<Call>, later: seq<Call>)
    requires Actions(a) == mine && Actions(b) <= later
    ensures Actions(a + b) <= mine + later
    ensures Actions(b) == later ==> Actions(a + b) == mine + later
  {
    ActionsAppend(a, b);
  }

  /** A step whose release action, if any, is its first call: only deletions are conditional, and they are not release actions. */
  predicate ActionIsFirst(s: Step) {
    !s.DeleteIfPresent? || (!IsAction(s.query) && !IsAction(s.delete))
  }

  /** The release actions a plan makes when it runs to the end. */
  function PlanActions(steps: seq<Step>): seq<Call>
    decreases |steps|
  {
    if steps == [] then []
    else (if IsAction(FirstCall(steps[0])) then [FirstCall(steps[0])] else []) + PlanActions(steps[1..])
  }

  lemma {:induction false} PlanActionsAppend(xs: seq<Step>, ys: seq<Step>)
    ensures PlanActions(xs + ys) == PlanActions(xs) + PlanActions(ys)
    decreases |xs|
  {
    if xs == [] {
      assert xs + ys == ys;
    } else {
      assert (xs + ys)[1..] == xs[1..] + ys;
      PlanActionsAppend(xs[1..], ys);
      var head := if IsAction(FirstCall(xs[0])) then [FirstCall(xs[0])] else [];
      assert PlanActions(xs + ys) == head + PlanActions(xs[1..] + ys);
      assert head + (PlanActions(xs[1..]) + PlanActions(ys)) == (head + PlanActions(xs[1..])) + PlanActions(ys);
    }
  }

  /** A plan of one step makes the action of its first call, if that is one. */
  lemma PlanActionsOne(s: Step)
    ensures PlanActions([s]) == if IsAction(FirstCall(s)) then [FirstCall(s)] else []
  {
    assert [s][1..] == [];
  }

  /** A plan none of whose steps begins with an action makes none. */
  lemma {:induction false} PlanActionsNone(steps: seq<Step>)
    requires forall i :: 0 <= i < |steps| ==> !IsAction(FirstCall(steps[i]))
    ensures PlanActions(steps) == []
    decreases |steps|
  {
    if steps != [] {
      PlanActionsNone(steps[1..]);
    }
  }

  lemma PerformActions(p: Port, s: Step, run: Run)
    requires ActionIsFirst(s)
    ensures var o := Perform(p, s, run);
      Actions(o.run.calls[|run.calls|..]) == if IsAction(FirstCall(s)) then [FirstCall(s)] else []
  {
    var o := Perform(p, s, run);
    var made := o.run.calls[|run.calls|..];
    if |made| == 1 {
      assert made == [FirstCall(s)];
    } else {
      assert s.DeleteIfPresent?;
      assert made == [s.query, s.delete];
      assert made[1..] == [s.delete];
      assert Actions(made[1..][1..]) == [] by { assert made[1..][1..] == []; }
    }
  }

  /**
   * The release actions are made in the order of the plan, each only when
   * its step is reached: the ones made are a prefix of the plan's, and all
   * of them when the plan runs to the end.
   */
  lemma {:induction false} InterpActions(p: Port, steps: seq<Step>, run: Run)
    requires forall k :: 0 <= k < |steps| ==> ActionIsFirst(steps[k])
    ensures ActionsFollowPlan(steps, run, Interp(p, steps, run))
    decreases |steps|
  {
    if steps == [] {
      assert Interp(p, steps, run).run.calls[|run.calls|..] == [];
    } else {
      var first := Perform(p, steps[0], run);
      PerformActions(p, steps[0], run);
      if first.err.None? {
        InterpActions(p, steps[1..], first.run);
        ActionsStep(steps, run, first, Interp(p, steps[1..], first.run));
      }
    }
  }

  /**
   * The release actions made from `run` to `o` are a prefix of those of the
   * plan, and all of them when `o` is not an error.
   */
  predicate ActionsFollowPlan(steps: seq<Step>, run: Run, o: Outcome)
  {
    && |run.calls| <= |o.run.calls|
    && Actions(o.run.calls[|run.calls|..]) <= PlanActions(steps)
    && (o.err.None? ==> Actions(o.run.calls[|run.calls|..]) == PlanActions(steps))
  }

  lemma ActionsStep(steps: seq<Step>, run: Run, first: Outcome, o: Outcome)
    requires steps != [] && |run.calls| <= |first.run.calls|
    requires Actions(first.run.calls[|run.calls|..]) == if IsAction(FirstCall(steps[0])) then [FirstCall(steps[0])] else []
    requires ActionsFollowPlan(steps[1..], first.run, o)
    requires first.run.calls == o.run.calls[..|first.run.calls|]
    ensures ActionsFollowPlan(steps, run, o)
  {
    SliceJoin(o.run.calls, |run.calls|, |first.run.calls|);
    ActionsJoined(first.run.calls[|run.calls|..], o.run.calls[|first.run.calls|..],
                  Actions(first.run.calls[|run.calls|..]), PlanActions(steps[1..]));
  }

  lemma SliceJoin(s: seq<Call>, i: nat, j: nat)
    requires i <= j <= |s|
    ensures s[i..] == s[i..j] + s[j..]
  {
  }
}
