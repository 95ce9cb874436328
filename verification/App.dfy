/**
 * The pure parts of internal/app: how the command line picks a command, how
 * the changelog path and the release actions are resolved, how the actions
 * are shown, and how the error of a run becomes the process exit code.
 * Flag parsing itself (the flag package) is not modelled: a command's flags
 * arrive already parsed, with the set of flags given on the command line.
 */
module App {
  import opened Wrappers
  import Text
  import Heading
  import Changelog
  import opened Errors

  const ExitOK: nat := 0
  const ExitGeneral: nat := 1
  const ExitUsage: nat := 2
  const ExitParse: nat := 3
  const ExitPreflight: nat := 4
  const ExitGit: nat := 5

  // ---------------------------------------------------------------------
  // Exit codes.
  // ---------------------------------------------------------------------

  /**
   * Run's exit code for the error `run` returned: 0 for none, 2 for a usage
   * error returned as it is (a type assertion, so a wrapped one is not
   * recognised), and otherwise 3, 4 or 5 when errors.As finds a ParseError,
   * a preflightError or a GitError, and 1 for anything else.
   */
  function ExitCode(err: Option<Error>): (code: nat)
    ensures code <= 5
    ensures code == ExitOK <==> err.None?
    ensures code == ExitUsage <==> err.Some? && err.value.Usage?
  {
    match err
    case None => ExitOK
    case Some(Usage(_)) => ExitUsage
    case Some(e) =>
      match Root(e)
      case Parse(_) => ExitParse
      case Preflight(_) => ExitPreflight
      case Git(_, _) => ExitGit
      case _ => ExitGeneral
  }

  /**
   * Wrapping an error (as a failed tag push after a created tag is) keeps its
   * exit code, except that a wrapped usage error is no longer recognised as
   * one and exits with the general code.
   */
  lemma {:induction false} WrappedExitCode(e: Error, note: string)
    ensures ExitCode(Some(Wrapped(e, note))) == if e.Usage? then ExitGeneral else ExitCode(Some(e))
  {
  }

  /** The codes 3, 4 and 5 are given exactly for a ParseError, a preflightError and a GitError at the root. */
  lemma ExitCodeClasses(e: Error)
    ensures ExitCode(Some(e)) == ExitParse <==> Root(e).Parse?
    ensures ExitCode(Some(e)) == ExitPreflight <==> Root(e).Preflight? && !e.Usage?
    ensures ExitCode(Some(e)) == ExitGit <==> Root(e).Git?
    ensures ExitCode(Some(e)) == ExitGeneral <==> Root(e).Other? || (e.Wrapped? && Root(e).Usage?)
  {
  }

  // ---------------------------------------------------------------------
  // The changelog path.
  // ---------------------------------------------------------------------

  const ChangelogEnv := "MDRELEASE_CHANGELOG"

  /**
   * resolveChangelogPath: the --changelog value as it was given when it is
   * not blank, else the trimmed value of MDRELEASE_CHANGELOG when the
   * environment can be read and the value is not blank, else changelog.md.
   * The path is never blank.
   */
  function ResolveChangelogPath(flagValue: string, getenv: Option<string -> string>): (path: string)
    ensures !Text.AllSpace(path)
    ensures !Text.AllSpace(flagValue) ==> path == flagValue
    ensures Text.AllSpace(flagValue) && getenv.Some? && !Text.AllSpace(getenv.value(ChangelogEnv))
      ==> path == Text.Trim(getenv.value(ChangelogEnv))
    ensures Text.AllSpace(flagValue) && (getenv.None? || Text.AllSpace(getenv.value(ChangelogEnv)))
      ==> path == Changelog.DefaultPath
  {
    if Text.Trim(flagValue) != [] then flagValue
    else if getenv.Some? && Text.Trim(getenv.value(ChangelogEnv)) != [] then
      var v := Text.Trim(getenv.value(ChangelogEnv));
      assert !Text.AllSpace(v) by { Text.TrimOfTrimmed(v); }
      v
    else
      assert Changelog.DefaultPath[0] == 'c';
      Changelog.DefaultPath
  }

  /** A resolved path resolves to itself: given back as --changelog, it is used as it is. */
  lemma ResolvedPathIsFixed(flagValue: string, getenv: Option<string -> string>, other: Option<string -> string>)
    ensures ResolveChangelogPath(ResolveChangelogPath(flagValue, getenv), other) == ResolveChangelogPath(flagValue, getenv)
  {
  }

  // ---------------------------------------------------------------------
  // Release actions.
  // ---------------------------------------------------------------------

  datatype ReleaseActions = ReleaseActions(stageAll: bool, commit: bool, tag: bool, pushCommit: bool, pushTag: bool)

  const Everything := ReleaseActions(true, true, true, true, true)
  const Nothing := ReleaseActions(false, false, false, false, false)

  /** The flags of the release command, as the flag package leaves them. */
  datatype ReleaseFlags = ReleaseFlags(
    changelog: string, remote: string, tagPrefix: string, dryRun: bool,
    all: bool, push: bool, forceRetag: bool,
    requested: ReleaseActions,   // --stage-all, --commit, --tag, --push-commit, --push-tag
    visited: set<string>,        // the flags given on the command line
    positional: seq<string>)     // the arguments left after the flags

  /** The flags that name individual release actions. */
  const ActionFlags := {"stage-all", "commit", "tag", "push", "push-commit", "push-tag"}

  /** Whether an individual action flag was given, whatever its value. */
  predicate ExplicitActions(f: ReleaseFlags) {
    f.visited * ActionFlags != {}
  }

  const AllWithActions := "--all cannot be combined with individual release action flags"

  /**
   * The actions of a release: --all with an individual action flag is a
   * usage error; --all, or no individual action flag at all, is the full
   * release; otherwise the flags given, with --push standing for both
   * --push-commit and --push-tag.
   */
  function ResolveActions(f: ReleaseFlags): (r: Result<ReleaseActions, Error>)
    ensures r.Failure? <==> f.all && ExplicitActions(f)
    ensures r.Failure? ==> r.error == Usage(AllWithActions)
    ensures r.Success? && !ExplicitActions(f) ==> r.value == Everything
    ensures r.Success? && ExplicitActions(f) ==>
      && r.value.stageAll == f.requested.stageAll && r.value.commit == f.requested.commit
      && r.value.tag == f.requested.tag
      && r.value.pushCommit == (f.requested.pushCommit || f.push)
      && r.value.pushTag == (f.requested.pushTag || f.push)
  {
    var explicit := ExplicitActions(f);
    if f.all && explicit then Failure(Usage(AllWithActions))
    else if f.all || !explicit then Success(Everything)
    else Success(f.requested.(pushCommit := f.requested.pushCommit || f.push, pushTag := f.requested.pushTag || f.push))
  }

  /** The action selection of runRelease (app.go:267-286), updating the requested actions in place. */
  method SelectActions(f: ReleaseFlags) returns (r: Result<ReleaseActions, Error>)
    ensures r == ResolveActions(f)
  {
    var explicit := f.visited * ActionFlags != {};
    if f.all && explicit {
      return Failure(Usage(AllWithActions));
    }
    var actions := f.requested;
    if f.push {
      actions := actions.(pushCommit := true, pushTag := true);
    }
    if f.all || !explicit {
      actions := Everything;
    }
    r := Success(actions);
  }

  /**
   * Every set of actions can be asked for: with the action flags given
   * explicitly and --all absent, the resolved actions are the requested ones.
   * A flag given with the value false still counts as given, so `--tag=false`
   * alone asks for no action at all.
   */
  lemma ActionsSelectable(f: ReleaseFlags)
    requires !f.all && !f.push && "tag" in f.visited
    ensures ResolveActions(f) == Success(f.requested)
  {
    assert "tag" in f.visited * ActionFlags;
  }

  /** The names of the actions, in the order they are carried out. */
  function Names(a: ReleaseActions): (r: seq<string>)
    ensures forall n :: n in r <==>
      || (n == "stage-all" && a.stageAll) || (n == "commit" && a.commit) || (n == "tag" && a.tag)
      || (n == "push-commit" && a.pushCommit) || (n == "push-tag" && a.pushTag)
    ensures r == [] <==> a == Nothing
  {
    OneIf(a.stageAll, "stage-all") + OneIf(a.commit, "commit") + OneIf(a.tag, "tag")
    + OneIf(a.pushCommit, "push-commit") + OneIf(a.pushTag, "push-tag")
  }

  /** The place of an action name in the order the actions are carried out. */
  function Rank(name: string): nat
  {
    if name == "stage-all" then 0
    else if name == "commit" then 1
    else if name == "tag" then 2
    else if name == "push-commit" then 3
    else 4
  }

  /** The names are listed in strictly increasing Rank. */
  predicate InOrder(names: seq<string>)
  {
    forall i, j :: 0 <= i < j < |names| ==> Rank(names[i]) < Rank(names[j])
  }

  /** Names lists the actions in the order they are carried out, each at most once. */
  lemma NamesInOrder(a: ReleaseActions)
    ensures InOrder(Names(a))
  {
    var r := OneIf(a.stageAll, "stage-all");
    Extend(r, a.commit, "commit");
    r := r + OneIf(a.commit, "commit");
    Extend(r, a.tag, "tag");
    r := r + OneIf(a.tag, "tag");
    Extend(r, a.pushCommit, "push-commit");
    r := r + OneIf(a.pushCommit, "push-commit");
    Extend(r, a.pushTag, "push-tag");
  }

  function OneIf(b: bool, name: string): seq<string>
  {
    if b then [name] else []
  }

  /** Appending a name of higher rank than all before it keeps the list in order. */
  lemma Extend(names: seq<string>, b: bool, name: string)
    requires InOrder(names)
    requires forall i :: 0 <= i < |names| ==> Rank(names[i]) < Rank(name)
    ensures InOrder(names + OneIf(b, name))
    ensures forall i :: 0 <= i < |names + OneIf(b, name)| ==> Rank((names + OneIf(b, name))[i]) <= Rank(name)
  {
  }

  /** releaseActions.String: the names joined with ", ", or "(none)". */
  function ActionsString(a: ReleaseActions): (r: string)
    ensures r == "(none)" <==> a == Nothing
  {
    var parts := Names(a);
    if parts == [] then "(none)"
    else
      assert Text.Join(parts, ", ")[0] == parts[0][0] by { JoinStartsWithFirst(parts, ", "); }
      Text.Join(parts, ", ")
  }

  lemma JoinStartsWithFirst(parts: seq<string>, sep: string)
    requires parts != [] && parts[0] != []
    ensures Text.Join(parts, sep) != [] && Text.Join(parts, sep)[0] == parts[0][0]
  {
  }

  /** The names tell the actions apart: different actions are shown differently. */
  lemma NamesInjective(a: ReleaseActions, b: ReleaseActions)
    requires Names(a) == Names(b)
    ensures a == b
  {
    assert a.stageAll == ("stage-all" in Names(a)) == b.stageAll;
    assert a.commit == ("commit" in Names(a)) == b.commit;
    assert a.tag == ("tag" in Names(a)) == b.tag;
    assert a.pushCommit == ("push-commit" in Names(a)) == b.pushCommit;
    assert a.pushTag == ("push-tag" in Names(a)) == b.pushTag;
  }

  /**
   * The summary line tells the actions apart: no action name holds a comma,
   * so the joined names can be split back, and "(none)" is no join of names.
   */
  lemma ActionsStringInjective(a: ReleaseActions, b: ReleaseActions)
    requires ActionsString(a) == ActionsString(b)
    ensures a == b
  {
    if a != Nothing && b != Nothing {
      NoCommaInNames(a);
      NoCommaInNames(b);
      Text.JoinInjective(Names(a), Names(b), ", ");
      NamesInjective(a, b);
    }
  }

  /** No action name holds a comma. */
  lemma NoCommaInNames(a: ReleaseActions)
    ensures forall i :: 0 <= i < |Names(a)| ==> ',' !in Names(a)[i]
  {
    forall i | 0 <= i < |Names(a)| ensures ',' !in Names(a)[i] {
      assert Names(a)[i] in Names(a);
    }
  }

  // ---------------------------------------------------------------------
  // Commands.
  // ---------------------------------------------------------------------

  /** What `run` does with the command line. */
  datatype Command =
    | ShowUsage                      // -h, -help, --help
    | ShowToolVersion                // -version, --version
    | RepoVersion(args: seq<string>) // version
    | Check(args: seq<string>)       // check
    | Release(args: seq<string>)     // no command: the release itself
    | Reject(err: Error)             // a usage error

  const HelpFlags := {"-h", "-help", "--help"}
  const VersionFlags := {"-version", "--version"}
  const VersionExtraArgs := "--version does not accept additional arguments"

  /**
   * run: the help and version flags first; then a first argument that does
   * not start with "-" names a command; anything else is the release, with
   * all the arguments as its flags.
   */
  function Dispatch(args: seq<string>): (c: Command)
    ensures c.Reject? ==> c.err.Usage?
    ensures c.Release? ==> c.args == args
    ensures c.RepoVersion? || c.Check? ==> |args| > 0 && c.args == args[1..]
  {
    if |args| > 0 && args[0] in HelpFlags then ShowUsage
    else if |args| > 0 && args[0] in VersionFlags then
      if |args| > 1 then Reject(Usage(VersionExtraArgs)) else ShowToolVersion
    else if |args| > 0 && !Text.HasPrefix(args[0], "-") then
      if args[0] == "version" then RepoVersion(args[1..])
      else if args[0] == "check" then Check(args[1..])
      else Reject(Usage("unknown command: " + args[0]))
    else Release(args)
  }

  /**
   * The release runs exactly when there are no arguments, or the first one is
   * a flag other than the help and version flags.
   */
  lemma ReleaseIsDefault(args: seq<string>)
    ensures Dispatch(args).Release? <==>
      args == [] || (Text.HasPrefix(args[0], "-") && args[0] !in HelpFlags && args[0] !in VersionFlags)
  {
  }

  /**
   * `--version` takes no further argument: `--version --changelog x` is a
   * usage error, exit code 2, and does not print the changelog version.
   */
  lemma VersionFlagTakesNothing(args: seq<string>)
    requires |args| > 1 && args[0] == "--version"
    ensures Dispatch(args) == Reject(Usage(VersionExtraArgs))
    ensures ExitCode(Some(Dispatch(args).err)) == ExitUsage
  {
    assert args[0] in VersionFlags;
  }

  /** An argument that is neither a flag nor a command is a usage error; an empty one too. */
  lemma UnknownCommand(args: seq<string>)
    requires |args| > 0 && args[0] !in {"version", "check"} && (args[0] == [] || args[0][0] != '-')
    ensures Dispatch(args) == Reject(Usage("unknown command: " + args[0]))
  {
    assert args[0] !in HelpFlags && args[0] !in VersionFlags;
  }

  // ---------------------------------------------------------------------
  // The version command.
  // ---------------------------------------------------------------------

  datatype VersionFlagValues = VersionFlagValues(changelog: string, positional: seq<string>)

  const VersionPositional := "version does not accept positional arguments"

  /**
   * runRepoVersion: the version of the newest release of the changelog, which
   * is a version the heading grammar accepts.
   */
  function RepoVersionOf(f: VersionFlagValues, getenv: Option<string -> string>, files: string -> Changelog.Source)
    : (r: Result<string, Error>)
    ensures f.positional != [] ==> r == Failure(Usage(VersionPositional))
    ensures r.Success? ==> Heading.IsVersion(r.value)
    ensures r.Failure? && f.positional == [] ==> r.error.Parse?
  {
    if f.positional != [] then Failure(Usage(VersionPositional))
    else
      var path := ResolveChangelogPath(f.changelog, getenv);
      match Changelog.LatestEntry(path, files(path))
      case Failure(e) => Failure(Parse(e))
      case Success(entry) => Success(entry.version)
  }
}
