/**
 * The gitOps port of internal/app and the behaviour of its real implementation,
 * gitutil.Client, on an abstract repository: the local and remote tag sets,
 * whether there are unstaged and staged changes, the commits made and how many
 * of them the remote has. A port is created for one run with the dry-run flag
 * and a set of injected failures (the stand-in for every way a git process can
 * fail); it records every call, as the test double of the repository does.
 */
module Git {
  import opened Wrappers
  import opened Errors

  /** One call of the port: one method of gitOps with its arguments. */
  datatype Call =
    | EnsureRepo
    | EnsureRemote(remote: string)
    | FetchTags
    | FetchRemote(remote: string)
    | PullFFOnly(remote: string)
    | EnsureTagAbsent(tag: string)
    | EnsureTagPresent(tag: string)
    | HasLocalTag(tag: string)
    | HasRemoteTag(remote: string, tag: string)
    | DeleteLocalTag(tag: string)
    | DeleteRemoteTag(remote: string, tag: string)
    | StageAll
    | HasStagedChanges
    | Commit(summary: string, description: string)
    | CreateTag(tag: string, summary: string, description: string)
    | PushHead(remote: string)
    | PushTag(remote: string, tag: string)

  datatype CommitInfo = CommitInfo(summary: string, description: string)

  /** The repository as the port sees it. There is one remote: remote names are recorded in the calls only. */
  datatype World = World(localTags: set<string>, remoteTags: set<string>, changes: bool, staged: bool,
                         commits: seq<CommitInfo>, pushed: nat)

  /** The settings the port was created with. */
  datatype Port = Port(dryRun: bool, failures: map<Call, Error>)

  /** What a call answers (the boolean of the Has* queries; false for the others) and the repository after it. */
  datatype Reply = Reply(result: Result<bool, Error>, world: World)

  /** The calls the real client turns into a no-op in dry-run mode (gitutil.go:62-93, 155-179, 215-224, 234-294). */
  predicate IsMutation(c: Call) {
    || c.FetchTags? || c.FetchRemote? || c.PullFFOnly? || c.DeleteLocalTag? || c.DeleteRemoteTag?
    || c.StageAll? || c.Commit? || c.CreateTag? || c.PushHead? || c.PushTag?
  }

  /**
   * Whether the call starts a git process, so that an injected failure can
   * happen: always, except for a mutation in dry-run mode. DeleteRemoteTag
   * validates the ref name before it looks at the dry-run flag.
   */
  predicate RunsGit(p: Port, c: Call) {
    !p.dryRun || !IsMutation(c) || c.DeleteRemoteTag?
  }

  function Ok(w: World): Reply {
    Reply(Success(false), w)
  }

  /**
   * One call against the repository. An injected failure is returned as it
   * is, with no effect; a mutation in dry-run mode succeeds with no effect;
   * otherwise the call does what the real client's git command does. Only a
   * successful mutation outside dry-run mode changes the repository.
   */
  function Exec(p: Port, w: World, c: Call): (r: Reply)
    ensures r.world != w ==> !p.dryRun && IsMutation(c) && r.result.Success?
    ensures r.result.Failure? && RunsGit(p, c) && c in p.failures ==> r.result.error == p.failures[c]
    ensures r.result.Failure? ==> RunsGit(p, c)
  {
    if RunsGit(p, c) && c in p.failures then Reply(Failure(p.failures[c]), w)
    else if p.dryRun && IsMutation(c) then Ok(w)
    else
      match c
      case EnsureRepo => Ok(w)
      case EnsureRemote(_) => Ok(w)
      case FetchTags => Ok(w.(localTags := w.localTags + w.remoteTags))
      case FetchRemote(_) => Ok(w.(localTags := w.localTags + w.remoteTags))
      case PullFFOnly(_) => Ok(w)
      case EnsureTagAbsent(t) =>
        if t in w.localTags then Reply(Failure(Git("validate tag absence", Some("tag " + t + " already exists"))), w)
        else Ok(w)
      case EnsureTagPresent(t) =>
        if t in w.localTags then Ok(w)
        else Reply(Failure(Git("validate local tag", Some("tag " + t + " does not exist locally"))), w)
      case HasLocalTag(t) => Reply(Success(t in w.localTags), w)
      case HasRemoteTag(_, t) => Reply(Success(t in w.remoteTags), w)
      case DeleteLocalTag(t) => Ok(w.(localTags := w.localTags - {t}))
      case DeleteRemoteTag(_, t) => Ok(w.(remoteTags := w.remoteTags - {t}))
      case StageAll => Ok(w.(staged := w.staged || w.changes, changes := false))
      case HasStagedChanges => Reply(Success(w.staged), w)
      case Commit(s, d) => Ok(w.(commits := w.commits + [CommitInfo(s, d)], staged := false))
      case CreateTag(t, _, _) => Ok(w.(localTags := w.localTags + {t}))
      case PushHead(_) => Ok(w.(pushed := |w.commits|))
      case PushTag(_, t) => Ok(w.(remoteTags := w.remoteTags + {t}))
  }

  /** The tag queries answer from the local tag set, when no failure is injected for them. */
  lemma TagQueries(p: Port, w: World, t: string)
    requires EnsureTagAbsent(t) !in p.failures && EnsureTagPresent(t) !in p.failures
    ensures Exec(p, w, EnsureTagAbsent(t)).result.Success? <==> t !in w.localTags
    ensures Exec(p, w, EnsureTagPresent(t)).result.Success? <==> t in w.localTags
  {
  }

  /** A failing call returns its injected failure or, from the tag checks, a GitError of the client. */
  lemma ExecErrors(p: Port, w: World, c: Call)
    requires Exec(p, w, c).result.Failure?
    ensures var e := Exec(p, w, c).result.error; (c in p.failures && e == p.failures[c]) || e.Git?
  {
  }

  /** A port created for one run: its settings, the repository it works on and the calls made so far. */
  class GitPort {
    const port: Port
    var world: World
    var calls: seq<Call>

    constructor (port: Port, world: World)
      ensures this.port == port && this.world == world && calls == []
    {
      this.port := port;
      this.world := world;
      calls := [];
    }

    /** Makes one call: it is recorded, and it answers and changes the repository as Exec says. */
    method Perform(c: Call) returns (r: Result<bool, Error>)
      modifies this
      ensures calls == old(calls) + [c]
      ensures Reply(r, world) == Exec(port, old(world), c)
    {
      var reply := Exec(port, world, c);
      r := reply.result;
      world := reply.world;
      calls := calls + [c];
    }
  }
}
