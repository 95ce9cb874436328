/**
 * runRelease and runCheck of internal/app: after the flags, the changelog
 * path, the actions and the newest changelog entry are settled, a fixed list
 * of guarded port calls, each returning early on the first error.
 *
 * ReleaseResult and CheckResult are the specifications: the plan of the
 * run, as a sequence of Steps, interpreted against the port. RunRelease and RunCheck
 * are the functions themselves, written as the source writes them, one block
 * of guarded calls at a time against a GitPort, and proved to do what the
 * specifications say.
 */
module Release {
  import opened Wrappers
  import Changelog
  import opened Errors
  import opened Git
  import opened Steps
  import opened App

  /**
   * What a run depends on besides its flags: the process environment (None
   * when the command has no way to read it), the files that can be read, the
   * repository and the failures the port will meet.
   */
  datatype Env = Env(getenv: Option<string -> string>, files: string -> Changelog.Source, world: World,
                     failures: map<Call, Error>)

  /** How a run ended: the error it returned, if any, the port calls it made and the repository after it. */
  datatype RunResult = RunResult(err: Option<Error>, calls: seq<Call>, world: World)

  const PositionalRelease := "mdrelease does not accept positional arguments (use subcommands: check, version)"
  const PositionalCheck := "check does not accept positional arguments"
  const NothingStaged := "no staged changes to commit"

  function TagExists(tag: string, path: string): string {
    "no new changelog version to release: " + tag + " already exists (update " + path + ")"
  }

  function CreateTagFirst(tag: string): string {
    "cannot push tag " + tag + ": create it first with --tag (or use default mdrelease/--all)"
  }

  function NoChanges(path: string): string {
    "no changes to release after staging (update " + path + " or make code changes)"
  }

  /** The text fmt.Errorf appends to a failed tag push once the tag was created. */
  function CreatedLocally(tag: string): string {
    " (tag " + tag + " was created locally and may need manual push/retry)"
  }

  /** A release once its flags and the changelog are settled. */
  datatype Config = Config(path: string, remote: string, tag: string, dryRun: bool, forceRetag: bool,
                           actions: ReleaseActions, entry: Changelog.Entry)

  // ---------------------------------------------------------------------
  // The plan of a release, block by block.
  // ---------------------------------------------------------------------

  /** The repository check (app.go:305-308). */
  function RepoCheck(): seq<Step> {
    [Plain(EnsureRepo)]
  }

  /** Whether the remote is needed: for either push. */
  predicate NeedsRemote(a: ReleaseActions) {
    a.pushCommit || a.pushTag
  }

  /** Bringing the branch and the tags up to date with the remote, when it is needed (app.go:309-320). */
  function Sync(c: Config): seq<Step> {
    if NeedsRemote(c.actions) then [Plain(EnsureRemote(c.remote)), Plain(FetchRemote(c.remote)), Plain(PullFFOnly(c.remote))]
    else []
  }

  /** Removing the tag from the remote when it is there. */
  function DropRemoteTag(c: Config): Step {
    DeleteIfPresent(HasRemoteTag(c.remote, c.tag), DeleteRemoteTag(c.remote, c.tag))
  }

  /** Removing the local tag when it is there. */
  function DropLocalTag(c: Config): Step {
    DeleteIfPresent(HasLocalTag(c.tag), DeleteLocalTag(c.tag))
  }

  /**
   * Before creating the tag (app.go:322-351): with --force-retag, the remote
   * tag (when it will be pushed) and then the local tag are deleted if they
   * exist; without it, the tag must not exist yet.
   */
  function TagGuard(c: Config): seq<Step> {
    if !c.actions.tag then []
    else if c.forceRetag then
      (if c.actions.pushTag then [DropRemoteTag(c)] else []) + [DropLocalTag(c)]
    else [Replace(EnsureTagAbsent(c.tag), Preflight(TagExists(c.tag, c.path)))]
  }

  /** Pushing a tag that is not created by this run: with --force-retag, the remote one goes first (app.go:353-364). */
  function RetagRemote(c: Config): seq<Step> {
    if c.forceRetag && c.actions.pushTag && !c.actions.tag then [DropRemoteTag(c)] else []
  }

  /** Pushing a tag that is not created by this run: it must exist locally (app.go:366-370). */
  function PushTagGuard(c: Config): seq<Step> {
    if c.actions.pushTag && !c.actions.tag then [Replace(EnsureTagPresent(c.tag), Preflight(CreateTagFirst(c.tag)))]
    else []
  }

  /** app.go:372-377 */
  function Stage(c: Config): seq<Step> {
    if c.actions.stageAll then [Plain(StageAll)] else []
  }

  /** The error of a commit with nothing staged. */
  function NothingToCommit(c: Config): Error {
    Preflight(if c.actions.stageAll then NoChanges(c.path) else NothingStaged)
  }

  /**
   * The commit, with the summary as its title and the description as its
   * body; unless a dry run has just staged everything, something must be
   * staged first (app.go:379-400).
   */
  function CommitSteps(c: Config): seq<Step> {
    if !c.actions.commit then []
    else
      (if c.dryRun && c.actions.stageAll then [] else [Require(HasStagedChanges, NothingToCommit(c))])
      + [Plain(Commit(c.entry.summary, c.entry.description))]
  }

  /** app.go:402-409 */
  function Tagging(c: Config): seq<Step> {
    if c.actions.tag then [Plain(CreateTag(c.tag, c.entry.summary, c.entry.description))] else []
  }

  /** app.go:411-416 */
  function PushHeadStep(c: Config): seq<Step> {
    if c.actions.pushCommit then [Plain(PushHead(c.remote))] else []
  }

  /** The tag push, whose failure is reported as wrapped when this run created the tag (app.go:418-426). */
  function PushTagStep(c: Config): seq<Step> {
    if !c.actions.pushTag then []
    else if c.actions.tag then [WrapFailure(PushTag(c.remote, c.tag), CreatedLocally(c.tag))]
    else [Plain(PushTag(c.remote, c.tag))]
  }

  /** Checking the repository and bringing it up to date with the remote (app.go:305-320). */
  function Preparation(c: Config): seq<Step> {
    RepoCheck() + Sync(c)
  }

  /** Making sure the tag can be created or pushed (app.go:322-370). */
  function TagChecks(c: Config): seq<Step> {
    TagGuard(c) + RetagRemote(c) + PushTagGuard(c)
  }

  /** Making the release commit (app.go:372-400). */
  function Committing(c: Config): seq<Step> {
    Stage(c) + CommitSteps(c)
  }

  /** Tagging the release and pushing it (app.go:402-426). */
  function Publishing(c: Config): seq<Step> {
    Tagging(c) + PushHeadStep(c) + PushTagStep(c)
  }

  /** The plan of a release. */
  function Plan(c: Config): seq<Step> {
    Preparation(c) + TagChecks(c) + Committing(c) + Publishing(c)
  }

  // ---------------------------------------------------------------------
  // The specification of a release.
  // ---------------------------------------------------------------------

  /**
   * What runRelease settles before it touches the repository (app.go:262-292):
   * no positional argument, the changelog path, the actions and the newest
   * changelog entry, whose version after the tag prefix is the tag.
   */
  function Prepare(f: ReleaseFlags, env: Env): (r: Result<Config, Error>)
    ensures r.Failure? ==> r.error.Usage? || r.error.Parse?
    ensures f.positional != [] ==> r == Failure(Usage(PositionalRelease))
    ensures f.positional == [] && ResolveActions(f).Failure? ==> r == Failure(Usage(AllWithActions))
    ensures r.Failure? && r.error.Parse? ==> f.positional == [] && ResolveActions(f).Success?
    ensures r.Success? ==> r.value.tag == f.tagPrefix + r.value.entry.version
  {
    if f.positional != [] then Failure(Usage(PositionalRelease))
    else
      var path := ResolveChangelogPath(f.changelog, env.getenv);
      match ResolveActions(f)
      case Failure(e) => Failure(e)
      case Success(a) =>
        match Changelog.LatestEntry(path, env.files(path))
        case Failure(pe) => Failure(Parse(pe))
        case Success(entry) => Success(Config(path, f.remote, f.tagPrefix + entry.version, f.dryRun, f.forceRetag, a, entry))
  }

  /** The port of a run. */
  function PortOf(dryRun: bool, env: Env): Port {
    Port(dryRun, env.failures)
  }

  /** What runRelease does: nothing to the repository when the preparation fails, else its plan. */
  function ReleaseResult(f: ReleaseFlags, env: Env): RunResult {
    match Prepare(f, env)
    case Failure(e) => RunResult(Some(e), [], env.world)
    case Success(c) =>
      var o := Interp(PortOf(f.dryRun, env), Plan(c), Run(env.world, []));
      RunResult(o.err, o.run.calls, o.run.world)
  }

  // ---------------------------------------------------------------------
  // runRelease.
  // ---------------------------------------------------------------------

  /** runRelease (app.go:231-435) once its flags are parsed. */
  method RunRelease(f: ReleaseFlags, env: Env) returns (err: Option<Error>, calls: seq<Call>, world: World)
    ensures RunResult(err, calls, world) == ReleaseResult(f, env)
  {
    var prepared := Configure(f, env);
    if prepared.Failure? {
      return Some(prepared.error), [], env.world;
    }
    var git := new GitPort(PortOf(f.dryRun, env), env.world);
    err := Execute(git, prepared.value);
    calls, world := git.calls, git.world;
  }

  /** The part of runRelease before the first port call (app.go:262-292). */
  method Configure(f: ReleaseFlags, env: Env) returns (r: Result<Config, Error>)
    ensures r == Prepare(f, env)
  {
    if f.positional != [] {
      return Failure(Usage(PositionalRelease));
    }
    var path := ResolveChangelogPath(f.changelog, env.getenv);
    var actions := SelectActions(f);
    if actions.Failure? {
      return Failure(actions.error);
    }
    var parsed := Changelog.ParseLatest(path, env.files(path));
    if parsed.Failure? {
      return Failure(Parse(parsed.error));
    }
    var entry := parsed.value;
    r := Success(Config(path, f.remote, f.tagPrefix + entry.version, f.dryRun, f.forceRetag, actions.value, entry));
  }

  /** The port calls of runRelease (app.go:305-434), made on a fresh port. */
  method Execute(git: GitPort, c: Config) returns (err: Option<Error>)
    requires git.calls == [] && git.port.dryRun == c.dryRun
    modifies git
    ensures Outcome(err, Run(git.world, git.calls)) == Interp(git.port, Plan(c), Run(old(git.world), []))
  {
    ghost var p, run0 := git.port, Run(git.world, []);
    InterpAppend(p, Preparation(c) + TagChecks(c) + Committing(c), Publishing(c), run0);
    InterpAppend(p, Preparation(c) + TagChecks(c), Committing(c), run0);
    InterpAppend(p, Preparation(c), TagChecks(c), run0);
    err := SyncRepository(git, c);
    if err.Some? { return; }
    err := GuardTags(git, c);
    if err.Some? { return; }
    err := CommitRelease(git, c);
    if err.Some? { return; }
    err := PublishRelease(git, c);
  }

  method SyncRepository(git: GitPort, c: Config) returns (err: Option<Error>)
    modifies git
    ensures Outcome(err, Run(git.world, git.calls)) == Interp(git.port, Preparation(c), Run(old(git.world), old(git.calls)))
  {
    InterpAppend(git.port, RepoCheck(), Sync(c), Run(git.world, git.calls));
    err := CheckRepo(git);
    if err.Some? { return; }
    err := SyncRemote(git, c);
  }

  method GuardTags(git: GitPort, c: Config) returns (err: Option<Error>)
    modifies git
    ensures Outcome(err, Run(git.world, git.calls)) == Interp(git.port, TagChecks(c), Run(old(git.world), old(git.calls)))
  {
    ghost var p, run0 := git.port, Run(git.world, git.calls);
    InterpAppend(p, TagGuard(c) + RetagRemote(c), PushTagGuard(c), run0);
    InterpAppend(p, TagGuard(c), RetagRemote(c), run0);
    err := GuardTag(git, c);
    if err.Some? { return; }
    err := RetagRemoteOnly(git, c);
    if err.Some? { return; }
    err := GuardPushedTag(git, c);
  }

  method CommitRelease(git: GitPort, c: Config) returns (err: Option<Error>)
    modifies git
    ensures Outcome(err, Run(git.world, git.calls)) == Interp(git.port, Committing(c), Run(old(git.world), old(git.calls)))
  {
    InterpAppend(git.port, Stage(c), CommitSteps(c), Run(git.world, git.calls));
    err := StageChanges(git, c);
    if err.Some? { return; }
    err := CommitChanges(git, c);
  }

  method PublishRelease(git: GitPort, c: Config) returns (err: Option<Error>)
    modifies git
    ensures Outcome(err, Run(git.world, git.calls)) == Interp(git.port, Publishing(c), Run(old(git.world), old(git.calls)))
  {
    ghost var p, run0 := git.port, Run(git.world, git.calls);
    InterpAppend(p, Tagging(c) + PushHeadStep(c), PushTagStep(c), run0);
    InterpAppend(p, Tagging(c), PushHeadStep(c), run0);
    var createdTag;
    err, createdTag := CreateReleaseTag(git, c);
    if err.Some? { return; }
    err := PushCommit(git, c);
    if err.Some? { return; }
    err := PushReleaseTag(git, c, createdTag);
  }

  method CheckRepo(git: GitPort) returns (err: Option<Error>)
    modifies git
    ensures Outcome(err, Run(git.world, git.calls)) == Interp(git.port, RepoCheck(), Run(old(git.world), old(git.calls)))
  {
    var r := git.Perform(EnsureRepo);
    err := if r.Failure? then Some(r.error) else None;
    assert RepoCheck()[1..] == [];
  }

  method SyncRemote(git: GitPort, c: Config) returns (err: Option<Error>)
    modifies git
    ensures Outcome(err, Run(git.world, git.calls)) == Interp(git.port, Sync(c), Run(old(git.world), old(git.calls)))
  {
    err := None;
    if NeedsRemote(c.actions) {
      ghost var p, todo := git.port, Sync(c);
      var r := git.Perform(EnsureRemote(c.remote));
      if r.Failure? { return Some(r.error); }
      assert Interp(p, todo, Run(old(git.world), old(git.calls))) == Interp(p, todo[1..], Run(git.world, git.calls));
      todo := todo[1..];
      ghost var cur := Run(git.world, git.calls);
      r := git.Perform(FetchRemote(c.remote));
      if r.Failure? { return Some(r.error); }
      assert Interp(p, todo, cur) == Interp(p, todo[1..], Run(git.world, git.calls));
      todo := todo[1..];
      r := git.Perform(PullFFOnly(c.remote));
      if r.Failure? { return Some(r.error); }
      assert todo[1..] == [];
    }
  }

  method GuardTag(git: GitPort, c: Config) returns (err: Option<Error>)
    modifies git
    ensures Outcome(err, Run(git.world, git.calls)) == Interp(git.port, TagGuard(c), Run(old(git.world), old(git.calls)))
  {
    err := None;
    if c.actions.tag {
      if c.forceRetag {
        ghost var p, run0 := git.port, Run(git.world, git.calls);
        if c.actions.pushTag {
          InterpAppend(p, [DropRemoteTag(c)], [DropLocalTag(c)], run0);
          InterpOne(p, DropRemoteTag(c), run0);
          err := DropIfPresent(git, HasRemoteTag(c.remote, c.tag), DeleteRemoteTag(c.remote, c.tag));
          if err.Some? { return; }
        } else {
          assert TagGuard(c) == [DropLocalTag(c)];
        }
        InterpOne(p, DropLocalTag(c), Run(git.world, git.calls));
        err := DropIfPresent(git, HasLocalTag(c.tag), DeleteLocalTag(c.tag));
      } else {
        var r := git.Perform(EnsureTagAbsent(c.tag));
        if r.Failure? { return Some(Preflight(TagExists(c.tag, c.path))); }
      }
    }
  }

  method RetagRemoteOnly(git: GitPort, c: Config) returns (err: Option<Error>)
    modifies git
    ensures Outcome(err, Run(git.world, git.calls)) == Interp(git.port, RetagRemote(c), Run(old(git.world), old(git.calls)))
  {
    err := None;
    if c.forceRetag && c.actions.pushTag && !c.actions.tag {
      InterpOne(git.port, DropRemoteTag(c), Run(git.world, git.calls));
      err := DropIfPresent(git, HasRemoteTag(c.remote, c.tag), DeleteRemoteTag(c.remote, c.tag));
    }
  }

  /** Asks whether a tag exists and, if it does, deletes it (app.go:325-333, 336-343, 354-363). */
  method DropIfPresent(git: GitPort, query: Call, delete: Call) returns (err: Option<Error>)
    modifies git
    ensures Outcome(err, Run(git.world, git.calls)) == Perform(git.port, DeleteIfPresent(query, delete), Run(old(git.world), old(git.calls)))
  {
    err := None;
    var present := git.Perform(query);
    if present.Failure? { return Some(present.error); }
    if present.value {
      var r := git.Perform(delete);
      if r.Failure? { return Some(r.error); }
    }
  }

  method GuardPushedTag(git: GitPort, c: Config) returns (err: Option<Error>)
    modifies git
    ensures Outcome(err, Run(git.world, git.calls)) == Interp(git.port, PushTagGuard(c), Run(old(git.world), old(git.calls)))
  {
    err := None;
    if c.actions.pushTag && !c.actions.tag {
      var r := git.Perform(EnsureTagPresent(c.tag));
      if r.Failure? { return Some(Preflight(CreateTagFirst(c.tag))); }
    }
  }

  method StageChanges(git: GitPort, c: Config) returns (err: Option<Error>)
    modifies git
    ensures Outcome(err, Run(git.world, git.calls)) == Interp(git.port, Stage(c), Run(old(git.world), old(git.calls)))
  {
    err := None;
    if c.actions.stageAll {
      var r := git.Perform(StageAll);
      if r.Failure? { return Some(r.error); }
    }
  }

  method CommitChanges(git: GitPort, c: Config) returns (err: Option<Error>)
    modifies git
    ensures Outcome(err, Run(git.world, git.calls)) == Interp(git.port, CommitSteps(c), Run(old(git.world), old(git.calls)))
  {
    err := None;
    if c.actions.commit {
      ghost var p, run0 := git.port, Run(git.world, git.calls);
      ghost var commit := Plain(Commit(c.entry.summary, c.entry.description));
      if !(c.dryRun && c.actions.stageAll) {
        InterpAppend(p, [Require(HasStagedChanges, NothingToCommit(c))], [commit], run0);
        InterpOne(p, Require(HasStagedChanges, NothingToCommit(c)), run0);
        var hasStaged := git.Perform(HasStagedChanges);
        if hasStaged.Failure? { return Some(hasStaged.error); }
        if !hasStaged.value {
          var msg := NothingStaged;
          if c.actions.stageAll {
            msg := NoChanges(c.path);
          }
          return Some(Preflight(msg));
        }
      } else {
        assert CommitSteps(c) == [commit];
      }
      InterpOne(p, commit, Run(git.world, git.calls));
      var r := git.Perform(Commit(c.entry.summary, c.entry.description));
      if r.Failure? { return Some(r.error); }
    }
  }

  method CreateReleaseTag(git: GitPort, c: Config) returns (err: Option<Error>, createdTag: bool)
    modifies git
    ensures Outcome(err, Run(git.world, git.calls)) == Interp(git.port, Tagging(c), Run(old(git.world), old(git.calls)))
    ensures err.None? ==> createdTag == c.actions.tag
  {
    err, createdTag := None, false;
    if c.actions.tag {
      var r := git.Perform(CreateTag(c.tag, c.entry.summary, c.entry.description));
      if r.Failure? { return Some(r.error), false; }
      createdTag := true;
    }
  }

  method PushCommit(git: GitPort, c: Config) returns (err: Option<Error>)
    modifies git
    ensures Outcome(err, Run(git.world, git.calls)) == Interp(git.port, PushHeadStep(c), Run(old(git.world), old(git.calls)))
  {
    err := None;
    if c.actions.pushCommit {
      var r := git.Perform(PushHead(c.remote));
      if r.Failure? { return Some(r.error); }
    }
  }

  method PushReleaseTag(git: GitPort, c: Config, createdTag: bool) returns (err: Option<Error>)
    requires createdTag == c.actions.tag
    modifies git
    ensures Outcome(err, Run(git.world, git.calls)) == Interp(git.port, PushTagStep(c), Run(old(git.world), old(git.calls)))
  {
    err := None;
    if c.actions.pushTag {
      var r := git.Perform(PushTag(c.remote, c.tag));
      if r.Failure? {
        if createdTag {
          return Some(Wrapped(r.error, CreatedLocally(c.tag)));
        }
        return Some(r.error);
      }
    }
  }

  // ---------------------------------------------------------------------
  // runCheck.
  // ---------------------------------------------------------------------

  /** The flags of `mdrelease check` once parsed, and its positional arguments. */
  datatype CheckFlags = CheckFlags(changelog: string, remote: string, tagPrefix: string, dryRun: bool,
                                   positional: seq<string>)

  /**
   * The port calls of a check (app.go:209-225): the repository, the remote,
   * the remote's tags unless in dry-run mode, and the tag must not exist yet.
   */
  function CheckPlan(path: string, remote: string, tag: string, dryRun: bool): seq<Step> {
    [Plain(EnsureRepo)] + [Plain(EnsureRemote(remote))] + FetchStep(dryRun) + [TagAbsent(path, tag)]
  }

  /** Fetching the remote's tags, skipped in dry-run mode. */
  function FetchStep(dryRun: bool): seq<Step> {
    if dryRun then [] else [Plain(FetchTags)]
  }

  /** The tag must not exist yet, or the release was already made. */
  function TagAbsent(path: string, tag: string): Step {
    Replace(EnsureTagAbsent(tag), Preflight(TagExists(tag, path)))
  }

  /** What runCheck does: no positional argument, the newest changelog entry, then its plan. */
  function CheckResult(f: CheckFlags, env: Env): RunResult {
    if f.positional != [] then RunResult(Some(Usage(PositionalCheck)), [], env.world)
    else
      var path := ResolveChangelogPath(f.changelog, env.getenv);
      match Changelog.LatestEntry(path, env.files(path))
      case Failure(pe) => RunResult(Some(Parse(pe)), [], env.world)
      case Success(entry) =>
        var o := Interp(PortOf(f.dryRun, env), CheckPlan(path, f.remote, f.tagPrefix + entry.version, f.dryRun), Run(env.world, []));
        RunResult(o.err, o.run.calls, o.run.world)
  }

  /** runCheck (app.go:174-228) once its flags are parsed. */
  method RunCheck(f: CheckFlags, env: Env) returns (err: Option<Error>, calls: seq<Call>, world: World)
    ensures RunResult(err, calls, world) == CheckResult(f, env)
  {
    if f.positional != [] {
      return Some(Usage(PositionalCheck)), [], env.world;
    }
    var path := ResolveChangelogPath(f.changelog, env.getenv);
    var parsed := Changelog.ParseLatest(path, env.files(path));
    if parsed.Failure? {
      return Some(Parse(parsed.error)), [], env.world;
    }
    var tag := f.tagPrefix + parsed.value.version;
    var git := new GitPort(PortOf(f.dryRun, env), env.world);
    err := CheckRepository(git, path, f.remote, tag);
    calls, world := git.calls, git.world;
  }

  /** The port calls of runCheck (app.go:209-225). */
  method CheckRepository(git: GitPort, path: string, remote: string, tag: string) returns (err: Option<Error>)
    modifies git
    ensures Outcome(err, Run(git.world, git.calls))
         == Interp(git.port, CheckPlan(path, remote, tag, git.port.dryRun), Run(old(git.world), old(git.calls)))
  {
    ghost var p, run0 := git.port, Run(git.world, git.calls);
    ghost var remoteChecked := [Plain(EnsureRepo)] + [Plain(EnsureRemote(remote))];
    InterpAppend(p, remoteChecked + FetchStep(p.dryRun), [TagAbsent(path, tag)], run0);
    InterpAppend(p, remoteChecked, FetchStep(p.dryRun), run0);
    InterpAppend(p, [Plain(EnsureRepo)], [Plain(EnsureRemote(remote))], run0);

    InterpOne(p, Plain(EnsureRepo), run0);
    var r := git.Perform(EnsureRepo);
    if r.Failure? { return Some(r.error); }
    InterpOne(p, Plain(EnsureRemote(remote)), Run(git.world, git.calls));
    r := git.Perform(EnsureRemote(remote));
    if r.Failure? { return Some(r.error); }
    if !git.port.dryRun {
      InterpOne(p, Plain(FetchTags), Run(git.world, git.calls));
      r := git.Perform(FetchTags);
      if r.Failure? { return Some(r.error); }
    } else {
      assert Interp(p, FetchStep(p.dryRun), Run(git.world, git.calls)) == Outcome(None, Run(git.world, git.calls));
    }
    InterpOne(p, TagAbsent(path, tag), Run(git.world, git.calls));
    r := git.Perform(EnsureTagAbsent(tag));
    if r.Failure? { return Some(Preflight(TagExists(tag, path))); }
    err := None;
  }
}
