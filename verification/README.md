# mdrelease, modelled in Dafny

mdrelease cuts a release from a Markdown changelog. It reads the newest release entry (`# <version> - <summary>` followed by `- item` bullets), then drives a fixed sequence of git operations:

- check the repository
- sync with the remote
- guard the tag
- stage
- commit
- tag
- push HEAD
- push the tag

Each operation is taken only when the matching release action was asked for, and the run stops at the first error. `mdrelease check` only verifies that the newest version has not been released yet. The exit code tells usage, changelog, precondition and git errors apart.

The model covers the following parts of the code.

- **Changelog parser** (`Changelog`, `Heading`, `Text`, `ChangelogFacts`). `ParseLatest` is an imperative method with the scanning loop of the source. It is proved equal to a functional specification (`LatestEntry`), and the format's promises are proved about that specification.
  - The scan is written over a `Reader` (the heading matcher, the bullet reader and the trim), so that its proofs do not depend on the regular expression. `ParseLatest` is the instance with the Markdown reader.
  - The release-heading regular expression is a hand-written matcher. It follows Go's leftmost-first submatch semantics and is proved sound, complete and maximal with respect to a declarative grammar.
- **git port** (`Git`). The repository is abstracted to:
  - the local and remote tag sets
  - unstaged and staged changes
  - the commits
  - how many commits the remote has

  `Exec` gives each `gitutil.Client` operation's effect on this abstract repository, including the dry-run no-ops. Every way a git process can fail is represented by a failure injected for a call. `GitPort` is the port object that records its calls.
- **Release orchestration** (`Steps`, `Release`, `ReleaseFacts`).
  - `RunRelease` and `RunCheck` follow runRelease and runCheck: a block of guarded port calls at a time, each returning on the first error.
  - They are proved to compute `ReleaseResult` and `CheckResult`. These are specifications that interpret the run's plan, a sequence of `Step`s, against the port.
  - The properties proved about those specifications include: which calls a release may make, the release actions in their fixed order, stopping at the first failure, dry-run safety, which errors a run ends with and their exit codes, what a successful release leaves in the repository, and what a passed check means.
- **Command plumbing** (`App`): command dispatch, action resolution, the changelog path, the rendering of the action set, and the exit-code mapping.

Where the code and the repository's tests disagree, the model follows the code:

- A release syncs with `FetchRemote` and `PullFFOnly` when it pushes. The app test double still records a `FetchTags` call for this step.
- `--version` followed by further arguments is a usage error.

## Model

| member | source | states |
|---|---|---|
| Changelog.ErrorText | internal/changelog/changelog.go:28-33 | the message is `path: msg`, followed by `: cause` exactly when there is an underlying error |
| Changelog.DropCR | internal/changelog/changelog.go:55-56 | a line loses at most one trailing carriage return, and keeps any other ending |
| Changelog.ScanLines | internal/changelog/changelog.go:50-56 | the scanned lines contain no newline, and there are none only for empty input |
| Changelog.ScanUnlines | internal/changelog/changelog.go:50-56 | scanning the text of plain lines, each ended by a newline, gives back exactly those lines |
| Changelog.HeadingIffMatch | internal/changelog/changelog.go:58-62 | with the real pattern, a line is a release heading exactly when the regular expression matches it: the `#` test is implied |
| Changelog.FirstHeading | internal/changelog/changelog.go:55-69 | the first release heading at or after a line, with no release heading before it; none exactly when the rest holds none |
| Changelog.NextHeading | internal/changelog/changelog.go:64-70 | where the newest section ends: at the next release heading, or at the end of the file |
| Changelog.BulletOf | internal/changelog/changelog.go:73-80 | a kept description line is `- ` followed by a non-empty trimmed text |
| Changelog.BlankNoBullet | internal/changelog/changelog.go:74-77 | a blank line, or one of white space only, is not a bullet |
| Changelog.ProseNoBullet | internal/changelog/changelog.go:74-75 | a line whose first non-space character is not `-` is not a bullet |
| Changelog.DashLine | internal/changelog/changelog.go:74-79 | a line whose first non-space character is `-` is kept exactly when the rest after the dash is not blank, and is then kept as `- ` followed by that rest trimmed |
| Changelog.BulletIdempotent | internal/changelog/changelog.go:74-79 | a kept description line is kept unchanged when read again |
| Changelog.BulletOfItem | internal/changelog/changelog.go:74-79 | `- item` with a trimmed item is kept exactly as written |
| Changelog.HashLineNoBullet | internal/changelog/changelog.go:58-80 | a line starting with `#` never contributes a bullet, so non-release headings inside a section are passed over |
| Changelog.KeptMarkdown | internal/changelog/changelog.go:58-80 | for collected lines, the `#` branch changes nothing beyond the bullet test |
| Changelog.Latest | internal/changelog/changelog.go:55-82 | the newest section starts at the first release heading and ends at the next one or at the end; none exactly when the file has no release heading |
| Changelog.Outcome | internal/changelog/changelog.go:84-103 | a read failure is reported when the loop ran out of lines, or when a Scan call the loop made recorded it; it comes first, then the unparsable case; the error carries a cause exactly when it is not the unparsable case; a returned summary is never empty |
| Changelog.LatestEntry | internal/changelog/changelog.go:37-104 | errors name the path and one of the three messages, with a cause exactly when they are not the unparsable error; on success the version fits the version grammar and holds no white space, and the summary is non-empty, trimmed and on one line |
| Changelog.EntryFacts | internal/changelog/changelog.go:58-97 | the version returned is the first release heading's captured version as it stands and the summary its captured summary trimmed; the version fits the grammar and holds no white space, and the summary is non-empty, trimmed and on one line |
| Changelog.ScanLatest | internal/changelog/changelog.go:55-82 | the scanning loop ends in the state the newest section determines: its trimmed submatches, its bullets in order, and the index where it stopped |
| Changelog.ParseLatestWith | internal/changelog/changelog.go:37-104 | the parser with any line reader returns what the specification LatestEntryWith says |
| Changelog.ParseLatest | internal/changelog/changelog.go:37-104 | the parser returns what LatestEntry says, so it inherits every property proved about it |
| Heading.Match | internal/changelog/changelog.go:48 | any result is a reading of the whole line by the pattern |
| Heading.MatchIffMatches | internal/changelog/changelog.go:48 | the matcher succeeds exactly when the line fits the pattern |
| Heading.MatchIsLongest | internal/changelog/changelog.go:48 | when the line fits the pattern in any way, the matcher succeeds with the longest version (pre-release and build taken greedily) and then the greediest white space before the summary, as Go's leftmost-first semantics does |
| Heading.CoreIsForced | internal/changelog/changelog.go:48 | every reading of a line agrees on the `#`, the white space and the numeric core of the version |
| Heading.MatchHeading | internal/changelog/changelog.go:48-59 | a match happens only on a line starting with `#`, and gives a non-empty version and a non-empty summary without newline |
| Heading.CapturedVersion | internal/changelog/changelog.go:48 | the captured version has a numeric head, one or two `.digits`, an optional pre-release and build, and no white space, so trimming leaves it as it is |
| Heading.HeadingRoundTrip | internal/changelog/changelog.go:48 | a heading written as `# <version> - <summary>` with a trimmed one-line summary is matched back into that version and summary |
| Heading.HeadingNeedsDigit | internal/changelog/changelog.go:48 | a line whose first character after `#` and white space is not a digit (a title such as `# Changelog`) is not a release heading |
| Heading.DeeperHeadingIgnored | internal/changelog/changelog.go:48 | `## 1.2.3 - x` is not a release heading |
| Heading.SampleVersions | internal/changelog/changelog.go:48 | the versions `1.2.3` and `1.2.3-beta.1+exp.sha` fit the version grammar |
| Text.Trim | internal/changelog/changelog.go:65-76 | strings.TrimSpace: the result starts and ends with a non-space, and is empty exactly when the input is all white space |
| Text.TrimSurrounds | internal/changelog/changelog.go:65-76 | the result is a stretch of the input with only white space before and after it |
| Text.TrimUnique | internal/changelog/changelog.go:65-76 | white space, then a trimmed text, then white space is trimmed to that text; with TrimSurrounds, the trimming is the one trimmed stretch with only white space around it |
| Text.TrimSplit | internal/changelog/changelog.go:65-76 | the input is the white space before the result, the result and the white space after it |
| Text.TrimIdempotent | internal/changelog/changelog.go:65-76 | trimming twice is trimming once |
| Text.SplitJoin | internal/changelog/changelog.go:99-101 | newline-free lines joined by newlines split back into the same lines |
| Text.JoinInjective | internal/app/app.go:477 | strings.Join of non-empty parts, none holding the separator's first character, is one-to-one |
| Text.JoinEmptyIff | internal/changelog/changelog.go:99-101 | lines of non-empty text join into an empty string exactly when there are none |
| ChangelogFacts.StopsAtNextHeading | internal/changelog/changelog.go:64-70 | once a second release heading closes the newest section, nothing after it is read: the section is the same in any longer file |
| ChangelogFacts.NoteInserted | internal/changelog/changelog.go:58-82 | a line that is neither a release heading nor a bullet, put in anywhere, leaves the newest section's heading and bullets as they were, and only moves its end |
| ChangelogFacts.NoteLineIgnored | internal/changelog/changelog.go:37-104 | adding a blank line, a prose line or any other line that is neither a release heading nor a bullet, anywhere in a changelog read without failure, leaves the entry or error returned unchanged |
| ChangelogFacts.PreambleIgnored | internal/changelog/changelog.go:58-69 | text before the first release heading (a title, an introduction, other headings) does not change the entry |
| ChangelogFacts.NoReleaseUnparsable | internal/changelog/changelog.go:92-97 | a file without a release heading, read without failure, is rejected as unparsable |
| ChangelogFacts.DeeperHeadingsUnparsable | internal/changelog/changelog.go:58-97 | a file whose headings are all deeper than level one is rejected as unparsable |
| ChangelogFacts.FailureAtEndReported | internal/changelog/changelog.go:84-90 | a read failure is reported when the loop ran out of lines, whatever it had found |
| ChangelogFacts.LateFailureIgnored | internal/changelog/changelog.go:55-90 | a read failure recorded only after the scanner handed out the second release heading, where the loop stops, is not reported |
| ChangelogFacts.EarlyFailureReported | internal/changelog/changelog.go:55-90 | a read failure recorded by a Scan call the loop made, up to the one that handed out the stopping heading, is reported |
| ChangelogFacts.DescriptionIsBulletList | internal/changelog/changelog.go:73-101 | the description is empty exactly when the section has no bullets, and otherwise splits back line by line into its bullets |
| ChangelogFacts.ReleaseRoundTrip | internal/changelog/changelog.go:37-104 | a changelog written in the expected format is parsed back into the written version, summary and items |
| ChangelogFacts.VersionTrimmed | internal/changelog/changelog.go:65 | trimming the captured version changes nothing |
| Errors.Root | internal/app/app.go:79-95 | the error errors.As finds is never a wrapper, and an unwrapped error is its own root |
| App.ExitCode | internal/app/app.go:71-97 | the code is 0 exactly without an error, 2 exactly for a usage error returned as it is, and never above 5 |
| App.ExitCodeClasses | internal/app/app.go:79-95 | 3, 4 and 5 are given exactly for a ParseError, a preflightError and a GitError at the root of the chain; 1 for anything else, including a wrapped usage error |
| App.WrappedExitCode | internal/app/app.go:71-97 | wrapping keeps the exit code, except that a wrapped usage error exits with the general code |
| App.ResolveChangelogPath | internal/app/app.go:437-447 | the path is never blank: a non-blank flag as given, else a non-blank environment value trimmed, else changelog.md |
| App.ResolvedPathIsFixed | internal/app/app.go:437-447 | a resolved path given back as the flag resolves to itself, whatever the environment |
| App.ResolveActions | internal/app/app.go:267-286 | --all with an individual action flag is a usage error; --all or no action flag is the full release; otherwise the flags given, with --push standing for both pushes |
| App.SelectActions | internal/app/app.go:267-286 | the in-place flag updates compute ResolveActions |
| App.ActionsSelectable | internal/app/app.go:267-286 | every action set can be asked for with explicit flags, even the empty one |
| App.Names | internal/app/app.go:457-473 | the names list exactly the actions set, and is empty exactly for no action |
| App.NamesInOrder | internal/app/app.go:458-473 | the names come in the order stage-all, commit, tag, push-commit, push-tag, each at most once |
| App.ActionsString | internal/app/app.go:457-478 | the text is `(none)` exactly when no action is set |
| App.NamesInjective | internal/app/app.go:457-473 | different action sets give different name lists |
| App.ActionsStringInjective | internal/app/app.go:457-478 | different action sets are shown as different text: the joined names split back, and `(none)` is no join of names |
| App.Dispatch | internal/app/app.go:100-122 | rejections are usage errors; the release gets all arguments, a named command the arguments after its name |
| App.ReleaseIsDefault | internal/app/app.go:100-122 | the release runs exactly without arguments or when the first one is a flag other than help and version |
| App.VersionFlagTakesNothing | internal/app/app.go:139-146 | `--version` with further arguments is a usage error with exit code 2 |
| App.UnknownCommand | internal/app/app.go:111-119 | an argument that is neither a flag nor a command is a usage error naming it |
| App.RepoVersionOf | internal/app/app.go:148-172 | positional arguments are a usage error; a printed version fits the version grammar; other failures are changelog errors |
| Git.Exec | internal/gitutil/gitutil.go:40-294 | only a successful mutation outside dry-run mode changes the repository; a failing call is one that runs git, and an injected failure is returned as it is |
| Git.TagQueries | internal/gitutil/gitutil.go:95-125 | the tag-absence check passes exactly when the tag is not local, and the tag-presence check exactly when it is |
| Git.ExecErrors | internal/gitutil/gitutil.go:95-125 | a failing call returns its injected failure or, from the tag checks, a GitError |
| Git.GitPort.constructor | internal/gitutil/gitutil.go:32-38 | a new port has the run's settings and repository and no calls |
| Git.GitPort.Perform | internal/app/app.go:28-46 | each call is recorded and answers and changes the repository as Exec says |
| Steps.InterpAppend | internal/app/app.go:305-426 | running two parts of a plan in sequence is running the joined plan |
| Steps.InterpErrors | internal/app/app.go:305-426 | the error a plan ends with is the error of one of its steps |
| Steps.InterpCallsFromPlan | internal/app/app.go:305-426 | a plan makes no call outside the calls of its steps |
| Steps.InterpCompletes | internal/app/app.go:305-426 | a plan run to the end made the first call of every step |
| Steps.InterpStops | internal/app/app.go:305-426 | the port is never called after a failing call, and the repository is what the successful calls made of it |
| Steps.InterpDryRun | internal/app/app.go:305-426 | with a dry-run port a plan leaves the repository as it was |
| Steps.InterpPlains | internal/app/app.go:305-320 | a plan of plain calls makes a prefix of them in order, at least the first, and all of them unless one failed |
| Steps.InterpActions | internal/app/app.go:372-426 | the release actions a plan makes are a prefix of the plan's actions, and all of them when it succeeds |
| Release.Prepare | internal/app/app.go:262-292 | the preparation fails only with a usage or changelog error: a positional argument first, then --all with an action flag, and the changelog is parsed only when neither applies; the tag is the prefix followed by the changelog version |
| Release.Configure | internal/app/app.go:262-292 | the positional check, path, actions and changelog parse compute Prepare |
| Release.RunRelease | internal/app/app.go:231-435 | runRelease returns the error, calls and repository ReleaseResult says |
| Release.Execute | internal/app/app.go:305-434 | the port calls of a release on a fresh port do what its plan says |
| Release.SyncRepository | internal/app/app.go:305-320 | the repository check and the sync do what their plan says |
| Release.GuardTags | internal/app/app.go:322-370 | the tag deletions or checks do what their plan says |
| Release.CommitRelease | internal/app/app.go:372-400 | staging and committing do what their plan says |
| Release.PublishRelease | internal/app/app.go:402-426 | tagging and both pushes do what their plan says |
| Release.CheckRepo | internal/app/app.go:305-308 | the repository check does what its step says |
| Release.SyncRemote | internal/app/app.go:309-320 | the remote check, fetch and fast-forward pull, made only when pushing, do what their plan says |
| Release.GuardTag | internal/app/app.go:322-351 | with --force-retag the tag is deleted remotely, then locally, if present; without it, an existing tag fails the run |
| Release.DropIfPresent | internal/app/app.go:325-363 | a tag is asked for, then deleted only if it exists |
| Release.RetagRemoteOnly | internal/app/app.go:353-364 | pushing a tag this run does not create, --force-retag first deletes the remote tag |
| Release.GuardPushedTag | internal/app/app.go:366-370 | a pushed tag that this run does not create must exist locally |
| Release.StageChanges | internal/app/app.go:372-377 | staging does what its step says |
| Release.CommitChanges | internal/app/app.go:379-400 | the commit needs staged changes, except in a dry run that has just staged everything |
| Release.CreateReleaseTag | internal/app/app.go:402-409 | tagging does what its step says and reports whether the tag was created |
| Release.PushCommit | internal/app/app.go:411-416 | the HEAD push does what its step says |
| Release.PushReleaseTag | internal/app/app.go:418-426 | the tag push does what its step says, wrapping its failure when the tag was created by this run |
| Release.RunCheck | internal/app/app.go:174-228 | runCheck returns the error, calls and repository CheckResult says |
| Release.CheckRepository | internal/app/app.go:208-225 | the port calls of a check do what the check plan says |
| ReleaseFacts.PlanInventory | internal/app/app.go:305-426 | the plan holds exactly the steps the actions and flags bring in |
| ReleaseFacts.PlannedCalls | internal/app/app.go:305-426 | every planned call is allowed: no remote call without a push; the staged query only for a commit; only the actions asked for; tag deletions only with --force-retag, the remote one only for a pushed tag |
| ReleaseFacts.ReleaseCalls | internal/app/app.go:231-435 | every call a release makes is an allowed one |
| ReleaseFacts.PlannedActions | internal/app/app.go:372-426 | run to the end, the plan makes exactly the actions asked for in the order stage, commit, tag, push HEAD, push tag |
| ReleaseFacts.ReleaseActionsInOrder | internal/app/app.go:372-426 | the actions a release makes are a prefix of the expected ones, and all of them when it succeeds |
| ReleaseFacts.ReleaseStartsWithSync | internal/app/app.go:305-320 | a release calls EnsureRepo first, then EnsureRemote, FetchRemote and PullFFOnly in that order exactly when it pushes; it stops among them only on a failure, and makes none of them later, before or after any tag, stage or commit call |
| ReleaseFacts.UsageErrorsFirst | internal/app/app.go:262-269 | a positional argument, or --all with an action flag, ends the release with that usage error, with no call and the repository unchanged, whatever the changelog holds |
| ReleaseFacts.FailedTagPush | internal/app/app.go:402-426 | a release whose last call is the failing push of the tag ends with the client's failure, wrapped with the created-locally note exactly when the tag was created by this run, and bare otherwise |
| ReleaseFacts.ReleaseStopsAtFirstFailure | internal/app/app.go:231-435 | a release stops at its first failing call, and one that fails before its first call makes none and changes nothing |
| ReleaseFacts.DryRunKeepsRepository | internal/app/app.go:305-426 | a dry-run release leaves the repository as it was, whatever happens |
| ReleaseFacts.PlannedStepErrors | internal/app/app.go:322-426 | each planned step fails only with a GitError, the preflight error of its own check, or the wrapped failure of pushing a tag this run created |
| ReleaseFacts.ReleaseErrorExitCode | internal/app/app.go:71-97 | such an error never exits with the general code; 4 exactly for the preflight errors and 5 for git errors |
| ReleaseFacts.ReleaseFailures | internal/app/app.go:231-435 | with the client's failures, a release ends with a usage, changelog, preflight or git error |
| ReleaseFacts.ReleaseExitCode | internal/app/app.go:71-97 | the exit code of a prepared release is never 1; 4 exactly for preflight errors and 5 for git errors, wrapped or not |
| ReleaseFacts.CommittingCommits | internal/app/app.go:379-400 | after a successful commit outside dry-run mode, the release commit with the entry's summary and description is the newest commit |
| ReleaseFacts.TaggingTags | internal/app/app.go:402-409 | successful tagging adds the tag locally and changes nothing else |
| ReleaseFacts.PushHeadPushes | internal/app/app.go:411-416 | a successful HEAD push puts every commit on the remote and changes nothing else |
| ReleaseFacts.PushTagPushes | internal/app/app.go:418-426 | a successful tag push adds the tag on the remote and changes nothing else |
| ReleaseFacts.PublishingPublishes | internal/app/app.go:402-426 | after publishing, the commits are unchanged, the tag is local if created and remote if pushed, and HEAD is remote if pushed |
| ReleaseFacts.ReleaseOutcome | internal/app/app.go:231-435 | a successful release outside dry-run mode leaves the release commit newest, the tag local when created and on the remote when pushed, and every commit on the remote when HEAD was pushed |
| ReleaseFacts.FetchStepFetches | internal/app/app.go:215-222 | fetching tags changes no remote tag and, when it succeeds outside dry-run mode, brings every tag of the modelled remote home (the source fetches from git's default remote, taken to be --remote) |
| ReleaseFacts.TagAbsentChecks | internal/app/app.go:223-225 | the tag check changes nothing and passes only for a tag that is not local |
| ReleaseFacts.CheckPlanOutcome | internal/app/app.go:208-225 | what the check plan establishes, whatever the repository |
| ReleaseFacts.CheckPassedMeansUnreleased | internal/app/app.go:174-228 | a passed check found the tag absent locally, after fetching the remote's tags unless in dry-run mode; a check never changes a remote tag, and in dry-run mode nothing at all; the remote clause assumes --remote is the remote a bare `git fetch --tags` uses |
| ReleaseFacts.VersionNamesReleaseTag | internal/app/app.go:165-171 | `mdrelease version` prints a version exactly when a release with the same changelog gets past its preparation, and then prints that release's entry version, whose prefixed form is the release tag |
| ReleaseFacts.VersionNamesCheckedTag | internal/app/app.go:165-171 | the version printed is the one `mdrelease check` with the same changelog looks for: its tag is the prefix followed by it, and there is one exactly when a version is printed |
| ReleaseFacts.VersionOfWrittenChangelog | internal/app/app.go:165-171 | for a changelog written in the expected format, the version of its newest heading is printed |

## Left out

- Files, processes and the environment are not executed.
  - Opening and reading the changelog is a `Source` value: either the reason opening failed, or the text read and the read failure that stopped the reading.
  - bufio.Scanner's 64 KiB token limit is one such read failure. Its size is not modelled.
  - The environment is an optional `string -> string` function.
- git is not executed. The repository is abstracted as described above, and every process failure is a failure injected for a call.
  - There is one remote; remote names are only recorded in the calls.
  - `PullFFOnly` has no effect on the abstract repository. The fetch's `--prune` is not modelled: fetching only adds remote tags.
  - Ref-name validation of tags is represented by the injected failures.
- ReleaseFacts.CheckPassedMeansUnreleased: `check` fetches tags with a bare `git fetch --tags`, from git's default remote, while it checks `--remote` with EnsureRemote. The model gives the fetch the tags of its one remote, so the "not on the remote" clause holds only when `--remote` is that default remote. With another `--remote`, a tag that exists only there is not fetched, and the check passes.
- Flag parsing (the flag package), help and usage texts, and the messages printed to stdout and stderr are not modelled. Commands receive their flags already parsed, together with the set of flags given.
- The help flag of `check` and `version`, which returns with no error, is not modelled.
- runToolVersion's output and main.go are not part of this model. The build-time version string is not modelled.
- The `getwd` dependency is not used by the modelled commands and is not modelled.
- Strings are sequences of characters. The UTF-8 byte encoding is not modelled, and neither is the behaviour on invalid UTF-8.
- Concurrency: none. The tool runs one sequential process.
