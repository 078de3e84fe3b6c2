# OnePloy: verified models of the deployment control plane

OnePloy deploys applications to servers over SSH and Docker. This project holds Dafny
models of the parts whose correctness is hard to see from the code, and proofs about
them. `dafny verify dfyconfig.toml` checks everything.

| module | what it models |
|---|---|
| `Text` | the PHP and framework string primitives the other modules need |
| `StageSplicing` | splicing ARG lines into the stages of a Dockerfile: the forward splice with a running offset, the reverse splice, and what both mean, for any line syntax |
| `ArgInjection` | the same for Dockerfile lines as the two deployment paths recognise them |
| `DockerfileText` | the compose path's Dockerfile as text: trimmed, split, injected, written, and read again by the next run |
| `ShellQuoting` | single-quote encoding, a reader for sections 2.2.1 and 2.2.2 of the POSIX.1-2017 Shell Command Language, and the job's own decoder |
| `PreviewTag` | bounded image tags of pull-request previews |
| `RailpackMerge` | the recursive merge of ordered configuration trees |
| `DeploymentLifecycle` | one deployment's control flow, interleaved with everything else that writes its status |
| `RollingUpdate` | the health check and the replacement of old containers |
| `MuxEstablish` | double-checked locking around the shared SSH master |
| `MuxReaper` | retiring a master while reapers look for orphans |
| `CronMarker` | the deduplication marker of a cron schedule |
| `KeysetPaging` | the scheduler's two-cursor walk and its fair merge |
| `SnapshotReconcile` | what a push of container states makes of the known resources |
| `RestartLimit` | the compare-and-set claim of the restart-limit flag |
| `BridgeCache`, `RateLimiter` | the WordPress bridge's two-level cache and its rate limiter, under explicit time |

Loops that change variables are methods with loops; objects whose fields change are
classes; protocols between processes are transition systems whose runs are all
interleavings. Each method is tied to a function of its inputs or of the old state, and
the lemmas are about those functions.

## Properties that do not hold as promised

Each has a counterexample and the exact condition under which the code does meet it.

- **Terminal statuses are absorbing**, says the comment above `isInTerminalState`. The job's
  own transitions respect it; other writers do not. The Cancel and Force start buttons
  write without looking; the deletion of a preview, the queue check and the admission of
  queued deployments read first and write later without looking again (the deletion's
  comment claims the logic of the API's cancel, which is a conditional update); and a job
  that begins checks for CANCELLED only. `AbsorbingIffNoLateWrite` says exactly which
  writes break it, `CancelledIsFinalIff` which ones undo a cancellation and
  `TerminalIsFinalIffNotReopened` which ones reopen the row; `FinishedCanBecomeCancelled`
  and `CancelledCanRun` are runs.
- **Success effects and queueing happen at most once.** Once more for each time the row was
  reopened (`AtMostOnce`), for instance when two jobs were dispatched for one row
  (`EffectsCanHappenTwice`, `AtMostOnceIffGuarded`). The same holds of the outer completion
  of a restart (`OuterCompletionChangesNothing`, `OuterCompletionCanCount`).
- **No master is killed.** Besides the order of mark and stop and of the reaper's two
  tests, five things about the surroundings are needed, each of them necessary
  (`SafeIffAllGuards`). The code does not provide them everywhere: `removeMultiplexFile`
  deletes the socket file after a failed stop too, and `ServerCleanupMux` and
  `refresh_server_connection` remove masters without taking the lock.
- **Yes means a reusable master.** Exactly if an establish that exits with 0 has made a new
  master: attached to a sick one that could not be removed, it answers yes as well, and more
  than one worker may succeed (`SoundIffRenews`, `BothAttach`).
- **An orphan has no socket**, says the reaper's comment. The test is by path, so an
  orphan that lost the race is spared while the winner's socket file is there
  (`OrphansAreSparedWhileServed`).
- **A due schedule stays due until it is dispatched.** Only once a marker exists. A first due
  minute that is skipped is made up for exactly if the prechecks keep falling in due
  minutes until a tick is not skipped, or another minute falls due after the first precheck
  that did not (`UnseededYesIsServedIff`, `UnseededYesIsLost`).
- **Between two stop dispatches there is a reset.** There is one between the two claims; a
  reset can overtake a winner that has not dispatched yet (`LateStopHappens`,
  `StopsAreApartIffPatient`).
- **With at most 100 keys since the last clear, a clear leaves nothing.** What an earlier
  period pushed out of the index survives (`OverflowOutlivesClears`). For every history,
  exactly those entries survive that are kept, alive, and followed into the index by a
  hundred others (`SurvivesClearIff`, `ClearIsCompleteForEveryRun`).
- **After 60 seconds a blocked client is let in.** After strictly more than 60
  (`LetInAgainIff`, `StillBlockedAfterAMinute`). The limit is not a rate either: one
  attempt a minute is turned away at the 121st (`SlowClientIsBlocked`).

## Properties whose limits lie outside what the code accepts

- **ARG injection is idempotent** on every Dockerfile and on all keys that the setter of an
  environment variable accepts (`SecondRunAddsNothing`, `AcceptedKeysAreAddedOnce`). Over
  arbitrary strings, a key is added only once exactly when it has no line break, no `=`, is
  not blank, and loses no more to the framework's trim than blanks at its end
  (`AddedOnceIff`); others are added again by every run (`UnrecognisedIsAddedByEveryRun`,
  `BrokenKeyIsNeverFound`).
- **The job reads back the variables it quoted**, exactly when no value has a space: it splits
  the quoted text at every space (`DecodeRecoversIffNoSpaces`). Commits, branches and domains
  are validated before they get there, and those validations admit no space.

## Assumptions

- Strings are sequences of characters. The framework's `trim` is assumed to remove PHP's own
  trim characters, Unicode white space and three invisible marks; the framework itself is
  not part of the repository. Array keys and label values are compared as they are, without
  PHP's numeric-string juggling; labels hold ids as the database prints them.
- A refresh, check and update of a deployment row is one atomic step. A dispatched job is
  handled once, but several may be dispatched for one row. Conditional updates are atomic, as the database makes them. A job that
  wins the restart-limit claim goes on to dispatch.
- The SSH lock does not expire while it is held; once an establish
  has succeeded the master changes no more by itself; a process has one identity for life. One check of a master, with its health probe, is one
  step.
- A transient is visible while `now <= set time + lifetime`, as in WordPress core;
  requests to the bridge are handled one at a time; a cache key stands for its URL.
- A cron expression is its set of due minutes; one that has never been due makes the cron
  library throw, which leaves the marker alone.
- Outside answers (remote commands, HTTP responses, clocks, listings, the status that the
  aggregation service computes, the status that an inspection of several servers finds) are
  inputs of the models.

## Model

| member | source | states |
|---|---|---|
| `StageSplicing.InjectArgs` | app/Jobs/ApplicationDeploymentJob.php:4781-4814 | The forward splice with running offset yields the per-stage meaning `Inject`, computed from the original lines alone, and the number of added lines is the growth in length |
| `StageSplicing.ScanStage` | app/Jobs/ApplicationDeploymentJob.php:4789-4803 | Scanning between shifted indices finds exactly the keys of the ARG block that directly follows the stage line |
| `StageSplicing.LeadingKeysIff` | app/Jobs/ApplicationDeploymentJob.php:4789-4803 | The keys found are exactly those declared by the unbroken ARG lines after the stage line |
| `StageSplicing.MissingKeyByKey` | app/Jobs/ApplicationDeploymentJob.php:4803-4807 | The added lines are one for each key that is not declared, in the order of the keys |
| `StageSplicing.InsertAfterFroms` | app/Jobs/ApplicationDeploymentJob.php:4537-4544 | Nested reverse splicing yields every stage line followed by all new lines in order |
| `StageSplicing.FindLines` | app/Jobs/ApplicationDeploymentJob.php:4431-4443 | The found positions are increasing and are exactly the lines that pass the test |
| `StageSplicing.OriginalLinesKeepTheirOrder` | app/Jobs/ApplicationDeploymentJob.php:4781-4814 | The original lines are a subsequence of the result |
| `StageSplicing.UnchangedIffAllDeclared` | app/Jobs/ApplicationDeploymentJob.php:4781-4814 | The file stays as it is if and only if every stage already declares every key |
| `StageSplicing.InjectIsIdempotent` | app/Jobs/ApplicationDeploymentJob.php:4781-4814 | When each added line declares its key, a second injection adds nothing |
| `StageSplicing.IdempotentOnlyIfSelfDeclaring` | app/Jobs/ApplicationDeploymentJob.php:4781-4814 | That condition is also necessary |
| `StageSplicing.SplicesAgree` | app/Jobs/ApplicationDeploymentJob.php:4537-4544 | The two splices give the same lines when they see the same stages and no key is declared yet |
| `ArgInjection.InjectComposeArgs` | app/Jobs/ApplicationDeploymentJob.php:4738-4814 | The compose path: per-stage meaning, order kept, `totalAdded` is the growth and is zero exactly when everything is declared |
| `ArgInjection.InjectDockerfileArgs` | app/Jobs/ApplicationDeploymentJob.php:4537-4544 | The Dockerfile path: each FROM instruction followed by all ARGs |
| `ArgInjection.IsFromIff` | app/Jobs/ApplicationDeploymentJob.php:4742 | A line is a stage exactly when FROM stands at the first character that the trim keeps |
| `ArgInjection.IsArgIff` | app/Jobs/ApplicationDeploymentJob.php:4792 | The same for ARG lines |
| `ArgInjection.IsFromInstructionIff` | app/Jobs/ApplicationDeploymentJob.php:4434-4439 | The other path's stages: FROM in any case at the first character, white space after it, and something more |
| `ArgInjection.DeclaredWithDefault` | app/Jobs/ApplicationDeploymentJob.php:4795-4800 | A line with a default value declares what stands between the first space and the equals sign |
| `ArgInjection.DeclaredWithoutDefault` | app/Jobs/ApplicationDeploymentJob.php:4795-4800 | One without declares everything after the first space, trailing blanks aside |
| `ArgInjection.DeclaredByOneWord` | app/Jobs/ApplicationDeploymentJob.php:4795-4800 | A line of one word declares nothing |
| `ArgInjection.UserArgDeclares` | app/Jobs/ApplicationDeploymentJob.php:4789-4803 | An ARG line the user wrote, with or without default, keeps its key from being added |
| `ArgInjection.ComposeInjectionIsIdempotent` | app/Jobs/ApplicationDeploymentJob.php:4755-4814 | For all Dockerfiles and all keys that are non-empty and free of white space and `=`, the second run finds every key and adds nothing |
| `ArgInjection.SelfDeclaringIff` | app/Jobs/ApplicationDeploymentJob.php:4789-4803 | The line written for a key is read back as declaring it exactly when the key has no `=`, is not blank and its framework trim equals what is left without trailing blanks |
| `StageSplicing.EveryRunAdds` | app/Jobs/ApplicationDeploymentJob.php:4781-4814 | On line lists, for any syntax in which a key is not read back: n injections add n lines for each stage that lacks the key |
| `DockerfileText.InjectFile` | app/Jobs/ApplicationDeploymentJob.php:4738-4817 | One run from file to file: trim, split, inject, and write only if something was added |
| `DockerfileText.FirstStageGetsArg` | app/Jobs/ApplicationDeploymentJob.php:4738-4817 | In every file that begins with FROM, a clean key which the first stage does not declare stands directly after that line |
| `DockerfileText.SmallFile` | app/Jobs/ApplicationDeploymentJob.php:4738-4817 | A file of one FROM line becomes that line and the ARG line |
| `DockerfileText.WhatIsRead` | app/Jobs/ApplicationDeploymentJob.php:4738-4817 | The next run reads the injected lines back, with blanks cut off the last one only |
| `DockerfileText.SecondRunAddsNothing` | app/Jobs/ApplicationDeploymentJob.php:4738-4817 | For every file and all clean keys the second run reads exactly the lines the first one made, adds nothing and leaves the file alone |
| `DockerfileText.AcceptedKeysAreAddedOnce` | app/Support/ValidationPatterns.php:105-109 | That covers every key the setter accepts |
| `DockerfileText.AcceptedIsClean` | app/Support/ValidationPatterns.php:105-109 | The setter's pattern admits only keys without white space and `=` |
| `DockerfileText.AddedOnceIff` | app/Jobs/ApplicationDeploymentJob.php:4738-4817 | Over all files, a key is added only once if and only if it has no line break and is recognisable in the line written for it |
| `DockerfileText.UnrecognisedIsAddedByEveryRun` | app/Jobs/ApplicationDeploymentJob.php:4738-4817 | n runs over any other one-line key add at least n lines for each stage that lacks it and is not the last |
| `DockerfileText.BrokenKeyIsNeverFound` | app/Jobs/ApplicationDeploymentJob.php:4789-4803 | A key with a line break inside is missing in every file with a stage, so each run adds it |
| `ArgInjection.PathsAgree` | app/Jobs/ApplicationDeploymentJob.php:4431-4443 | Given the same ARG lines, the two paths' splices give the same file when they recognise the same FROM lines and no stage declares a key |
| `ShellQuoting.QuotedIsOneWord` | bootstrap/helpers/docker.php:298-301 | Every string, quoted and read by the POSIX rules, is one word equal to the string |
| `ShellQuoting.CommandLineWords` | bootstrap/helpers/docker.php:298-301 | As the last argument of a command line it is still exactly one word and disturbs no other |
| `ShellQuoting.ExecCommandWords` | app/Jobs/ApplicationDeploymentJob.php:4995-4997 | The container exec command reads as `docker exec <container> sh -c <command>`, with the command in one piece and without line breaks |
| `ShellQuoting.OneLineIsFlat` | app/Jobs/ApplicationDeploymentJob.php:4995 | Each line break of any kind becomes one space, and nothing else changes |
| `ShellQuoting.DecoderInvertsQuoting` | app/Jobs/ApplicationDeploymentJob.php:2405-2419 | Stripping and replacing recovers the value for every key without `=` |
| `ShellQuoting.UnquotedStays` | app/Jobs/ApplicationDeploymentJob.php:2409-2419 | What has no equals sign, or no quotes around its value, stays as it is |
| `ShellQuoting.DecodeRecoversIffNoSpaces` | app/Jobs/ApplicationDeploymentJob.php:4493-4497 | The whole list of variables is recovered if and only if no value contains a space |
| `PreviewTag.TagIsLegal` | app/Jobs/ApplicationDeploymentJob.php:1231-1250 | For every 64-bit id and every commit string the tag has at most 128 characters, all allowed, and a legal first one |
| `PreviewTag.TagSpellsSource` | app/Jobs/ApplicationDeploymentJob.php:1231-1250 | Between prefix and suffix stand the first characters of the commit, or of the deployment's id if the commit is HEAD or blank, as many as fit, with dashes for what a tag may not hold |
| `PreviewTag.PrefixNamesPullRequest` | app/Jobs/ApplicationDeploymentJob.php:1233 | The prefix holds the decimal digits of the pull request, which read back as its number |
| `PreviewTag.TagsAreDistinct` | app/Jobs/ApplicationDeploymentJob.php:1231-1250 | Different pull request, 40-hex commit or build flag give different tags |
| `RailpackMerge.MergeRailpackConfig` | app/Jobs/ApplicationDeploymentJob.php:2941-2958 | The loop that updates the base computes the recursive merge |
| `RailpackMerge.MergeAt` | app/Jobs/ApplicationDeploymentJob.php:2941-2958 | At each key: a one-sided value is kept, two associative arrays are merged, and in every other case the override stands whole |
| `RailpackMerge.MergeAlongPath` | app/Jobs/ApplicationDeploymentJob.php:2944-2951 | The same along every path on which both sides hold associative arrays, with the keys there in order |
| `RailpackMerge.MergeKeys` | app/Jobs/ApplicationDeploymentJob.php:2941-2958 | The keys are the base's in their order, then the new ones in theirs |
| `RailpackMerge.MergeIsUnion` | app/Jobs/ApplicationDeploymentJob.php:2941-2958 | The key set is the union, and keys of one side only keep their value |
| `RailpackMerge.AssocStaysAssoc` | app/Jobs/ApplicationDeploymentJob.php:2932-2939 | Merging two associative arrays never yields a list |
| `RailpackMerge.MergeTwice` | app/Jobs/ApplicationDeploymentJob.php:2941-2958 | Merging the same overrides twice equals merging once, at every depth |
| `DeploymentLifecycle.JobIsBounded` | app/Jobs/ApplicationDeploymentJob.php:509-541 | Under any interleaving the job takes at most 19 of its own steps, restart and failure handling included |
| `DeploymentLifecycle.AtMostOnce` | app/Jobs/ApplicationDeploymentJob.php:5069-5124 | In every run the effects of all jobs of the row happen at most once, and once more per reopening, so does queueing the next deployment; a job enters the dispatcher at most twice, at most once unless it is a restart |
| `DeploymentLifecycle.FailureFailsTheRow` | app/Jobs/ApplicationDeploymentJob.php:4171-4173 | After a failed deployment or rolling update, or an exception at work, the job's next own step makes the row FAILED, or finds it over and leaves it alone |
| `DeploymentLifecycle.FailureHasItsEffects` | app/Jobs/ApplicationDeploymentJob.php:5114-5124 | If the row was still active, the failure's effects follow, unless they throw |
| `DeploymentLifecycle.FailureIsNoSuccess` | app/Jobs/ApplicationDeploymentJob.php:5069-5124 | In every run, a job that failed has no success effect but for later reopenings; so a success means that nothing failed before |
| `DeploymentLifecycle.SuccessMeansWentThrough` | app/Jobs/ApplicationDeploymentJob.php:509-541 | In every run, a success effect means that a deployment went through before it, but for reopenings |
| `DeploymentLifecycle.CancelledStopsTheJob` | app/Jobs/ApplicationDeploymentJob.php:5096-5099 | A cancelled row stops the job at its next transition or rolling update, without effects; a job that has not begun does nothing |
| `DeploymentLifecycle.DispatchBound` | app/Jobs/ApplicationDeploymentJob.php:1252-1315 | Entries of the dispatcher, past and still possible, never exceed one plus one for a restart |
| `DeploymentLifecycle.OuterCompletionChangesNothing` | app/Jobs/ApplicationDeploymentJob.php:1252-1272 | After a nested full build the restart's own completion changes neither the status nor any effect exactly when the row is terminal, which it is unless it was reopened |
| `DeploymentLifecycle.OuterCompletionCanCount` | bootstrap/helpers/applications.php:123-142 | A run in which a forced start makes the outer completion count too |
| `DeploymentLifecycle.AtMostOnceIffGuarded` | bootstrap/helpers/applications.php:143-163 | Effects happen at most once in every run, if and only if nothing may set a terminal row to in progress again |
| `DeploymentLifecycle.EffectsCanHappenTwice` | bootstrap/helpers/applications.php:123-163 | A run in which two jobs for one row both complete |
| `DeploymentLifecycle.AbsorbingIffNoLateWrite` | app/Jobs/DeleteResourceJob.php:186-202 | FINISHED, FAILED and CANCELLED are absorbing in a run exactly when no unconditional or stale write of any process meets a terminal row |
| `DeploymentLifecycle.StaysIffNoLateWrite` | app/Jobs/ApplicationDeploymentJob.php:5080-5103 | The same for each terminal status by itself |
| `DeploymentLifecycle.CancelledIsFinalIff` | bootstrap/helpers/applications.php:143-163 | A cancellation is final in a run exactly when no admission, forced start or forced failure writes to the cancelled row |
| `DeploymentLifecycle.TerminalIsFinalIffNotReopened` | app/Jobs/ApplicationDeploymentJob.php:300-313 | A terminal row stays terminal exactly when no admission, forced start or beginning job sets it to in progress |
| `DeploymentLifecycle.CancelledCanRun` | bootstrap/helpers/applications.php:143-163 | A run from cancelled to in progress: an admission that read the row before it was cancelled |
| `DeploymentLifecycle.FinishedCanBecomeCancelled` | app/Livewire/Project/Application/DeploymentNavbar.php:91-106 | A run in which the Cancel button overwrites a finished deployment |
| `DeploymentLifecycle.DeletionOverwritesFinished` | app/Jobs/DeleteResourceJob.php:186-202 | A run in which the deletion of a preview overwrites a finished deployment |
| `DeploymentLifecycle.QueueCheckOverwritesFinished` | app/Console/Commands/CheckApplicationDeploymentQueue.php:17-45 | A run in which the queue check does |
| `DeploymentLifecycle.BeginningOverwritesFailed` | app/Jobs/ApplicationDeploymentJob.php:300-313 | A run in which a job that begins overwrites a failed row |
| `RollingUpdate.FirstDecisive` | app/Jobs/ApplicationDeploymentJob.php:2100-2178 | The first reading within the allowed attempts that decides |
| `RollingUpdate.VerdictIsFirstHealthy` | app/Jobs/ApplicationDeploymentJob.php:2100-2178 | The verdict is healthy exactly when some allowed attempt reads healthy and all before it were undecided |
| `RollingUpdate.SleepBound` | app/Jobs/ApplicationDeploymentJob.php:2100-2178 | Sleeping never exceeds the start period plus retries times interval |
| `RollingUpdate.Deployment.HealthCheck` | app/Jobs/ApplicationDeploymentJob.php:2100-2178 | Verdict, exception and time slept, as the first decisive reading determines them |
| `RollingUpdate.Deployment.StopRunningContainer` | app/Jobs/ApplicationDeploymentJob.php:4144-4190 | Healthy: every other listed container goes; otherwise the status becomes failed and only the new container goes |
| `RollingUpdate.Deployment.Update` | app/Jobs/ApplicationDeploymentJob.php:2073-2079 | At every moment the old containers were complete or the new one ran and was judged healthy; without a healthy verdict the old set is intact, and the status is failed unless an exception left the method (a cancellation or a failing command, where the status is as it was or cancelled); total sleep is bounded |
| `MuxEstablish.AtMostOneEstablished` | app/Helpers/SshMultiplexingHelper.php:26-65 | For any number of racing workers at most one is in the locked section, and if an exit status of 0 means a new master, at most one establish succeeds and its master stays well |
| `MuxEstablish.SoundIffRenews` | app/Helpers/SshMultiplexingHelper.php:67-91 | In every run at most one establish succeeds and then a reusable master is there, if and only if an exit status of 0 means a new master |
| `MuxEstablish.BothAttach` | app/Helpers/SshMultiplexingHelper.php:278-283 | Otherwise: a run in which two workers attach to a sick master that could not be removed and both answer yes |
| `MuxEstablish.YesMeansReusable` | app/Helpers/SshMultiplexingHelper.php:317-328 | At the moment of a yes a reusable master exists, exactly unless the worker attached to one that is not |
| `MuxEstablish.YesMeansExactlyOne` | app/Helpers/SshMultiplexingHelper.php:26-65 | If there was no usable master to begin with, a yes means that an establish succeeded, and exactly one with a well master if an exit status of 0 means a new one |
| `MuxEstablish.YesIff` | app/Helpers/SshMultiplexingHelper.php:26-65 | A worker answers yes exactly when a check finds a master, healthy if that is checked, or the establish command exits with 0 |
| `MuxEstablish.NoIff` | app/Helpers/SshMultiplexingHelper.php:52-65 | It answers no exactly on a lock timeout, an exception or a failed establish |
| `MuxEstablish.OnTheWay` | app/Helpers/SshMultiplexingHelper.php:45-49 | What a worker under the lock does between its second check and its answer |
| `MuxEstablish.EstablishesFromNothing` | app/Helpers/SshMultiplexingHelper.php:67-91 | A run in which a worker establishes the first master |
| `MuxReaper.SafeIffAllGuards` | app/Helpers/SshMultiplexingHelper.php:93-132 | No run of any number of removers, reapers and masters kills a master that is establishing, serving or retired, if and only if all seven guards hold |
| `MuxReaper.InvMeansJustified` | app/Jobs/CleanupStaleMultiplexedConnections.php:38-60 | With the guards, every kill in every run from every invariant state reaches an orphan |
| `MuxReaper.StopBeforeMark` | app/Helpers/SshMultiplexingHelper.php:100-108 | Stopping before marking lets a reaper kill a retired master |
| `MuxReaper.MarkReadFirst` | app/Jobs/CleanupStaleMultiplexedConnections.php:54-58 | So does testing the mark before the socket |
| `MuxReaper.RemoversOverlap` | app/Jobs/ServerCleanupMux.php:31-36 | So do two removers at a time: the failed stop of one takes away the mark of what the other retired |
| `MuxReaper.BindDuringRemoval` | app/Helpers/SshMultiplexingHelper.php:93-109 | So does a master that binds the socket during a removal |
| `MuxReaper.CheckMisses` | app/Helpers/SshMultiplexingHelper.php:95-98 | So does a check that does not print the pid of a serving master |
| `MuxReaper.SlowSocket` | app/Jobs/CleanupStaleMultiplexedConnections.php:34-36 | A master that binds later than the minimum age can be killed while establishing |
| `MuxReaper.FileDeletedAnyway` | app/Jobs/CleanupStaleMultiplexedConnections.php:222-227 | Deleting the socket file after a failed stop exposes a serving master |
| `MuxReaper.OrphansAreSparedWhileServed` | app/Jobs/CleanupStaleMultiplexedConnections.php:54-58 | While a socket file is at the path, no process of that path is killed |
| `MuxReaper.OrphanIsReaped` | app/Jobs/CleanupStaleMultiplexedConnections.php:43-59 | Once the path is free, an undisturbed reaper kills an old unmarked orphan |
| `MuxReaper.ProcessesMove` | app/Jobs/CleanupStaleMultiplexedConnections.php:28-37 | Processes start, lose the race, bind, age and exit, with or without their socket file, whatever the protocol does |
| `CronMarker.NoMeansNothingDue` | app/Jobs/ScheduledJobManager.php:631-655 | With a marker the answer is yes exactly when a due instant lies after the marker, up to now |
| `CronMarker.RewriteIsInvisibleIff` | app/Jobs/ScheduledJobManager.php:648-652 | The marker rewrite after a no changes no later answer, if and only if no due instant lies between now and a marker in the future |
| `CronMarker.SeededYesStays` | app/Jobs/ScheduledJobManager.php:648-654 | With a marker a yes stays until it is acted on |
| `CronMarker.UnseededYesIsServedIff` | app/Jobs/ScheduledJobManager.php:638-646 | Without a marker, after a due tick and any later ticks that are all skipped, the next tick dispatches exactly when all prechecks so far and this tick fell in due minutes, or a minute fell due after the first precheck that did not |
| `CronMarker.UnseededYesIsLost` | app/Jobs/ScheduledJobManager.php:638-646 | A schedule whose only due minute is skipped and never dispatched, whenever the next tick comes |
| `CronMarker.Schedule.Precheck` | app/Jobs/ScheduledJobManager.php:631-655 | Answer and new marker, the exception for a schedule never due included |
| `CronMarker.Schedule.ShouldRun` | bootstrap/helpers/shared.php:986-1007 | The same answer; a yes writes the time of the tick |
| `CronMarker.NoWritesLatestDue` | app/Jobs/ScheduledJobManager.php:650-652 | A no writes the latest due instant |
| `CronMarker.DispatchesIff` | bootstrap/helpers/shared.php:998-1006 | A tick dispatches exactly when nothing holds it up and something is due, in its own minute without a marker and since the marker with one |
| `CronMarker.Schedule.ProcessAll` | app/Jobs/ScheduledJobManager.php:286-355 | The dispatches and the marker after any list of ticks, with skips before and after the decision |
| `CronMarker.RunRefines` | bootstrap/helpers/shared.php:986-1007 | For every due set, every order of skips and every starting marker not in the future, the dispatches are those of a scheduler that only remembers up to when everything is settled |
| `CronMarker.NoDueInstantTwice` | bootstrap/helpers/shared.php:986-1007 | Between any two dispatches of a run something new became due |
| `CronMarker.MissedMinuteIsCaught` | app/Jobs/ScheduledJobManager.php:631-655 | Once settled, a due minute is served by the next tick that is not skipped, however late |
| `KeysetPaging.PageFacts` | app/Jobs/ScheduledJobManager.php:193-214 | A page holds exactly the rows between the old cursor and the new one; an empty page means no row above the cursor |
| `KeysetPaging.Manager.ProcessAll` | app/Jobs/ScheduledJobManager.php:150-172 | The loop ends at the first pair of queries that comes back empty, having processed exactly `History` of what its queries saw |
| `KeysetPaging.BoundedWalkEnds` | app/Jobs/ScheduledJobManager.php:150-172 | There is such a pair whenever the ids that turn up are bounded, however the tables change |
| `KeysetPaging.Manager.ProcessInterleaved` | app/Jobs/ScheduledJobManager.php:178-191 | The indexed loop appends the recursive interleaving of the two lists |
| `KeysetPaging.BackupPosition` | app/Jobs/ScheduledJobManager.php:178-191 | Where the i-th backup is processed |
| `KeysetPaging.TaskPosition` | app/Jobs/ScheduledJobManager.php:178-191 | Where the j-th task is processed |
| `KeysetPaging.CountPrefix` | app/Jobs/ScheduledJobManager.php:178-191 | In every prefix the two counts differ by at most one until the shorter list is exhausted |
| `KeysetPaging.ChunkInTurn` | app/Jobs/ScheduledJobManager.php:166-191 | The place of every due backup and task in the events of a chunk |
| `KeysetPaging.ChunkDetached` | app/Jobs/ScheduledJobManager.php:220-284 | Rows whose resource is gone come first, backups before tasks |
| `KeysetPaging.SelectInOrder` | app/Jobs/ScheduledJobManager.php:220-284 | Within a chunk the due rows keep the order of their ids |
| `KeysetPaging.PageSize` | app/Jobs/ScheduledJobManager.php:193-214 | A page has a hundred rows, or all that are left |
| `KeysetPaging.ExaminedInOrder` | app/Jobs/ScheduledJobManager.php:150-172 | Ids are examined in strictly increasing order, so none twice, however the table changes |
| `KeysetPaging.ExaminedIffSeen` | app/Jobs/ScheduledJobManager.php:150-172 | A row is examined exactly when it was enabled at the query that moved the cursor past its id |
| `KeysetPaging.StaysMeansExamined` | app/Jobs/ScheduledJobManager.php:150-172 | A row that stays enabled until the walk ends is examined |
| `KeysetPaging.ProcessedExactlyOnce` | app/Jobs/ScheduledJobManager.php:150-284 | Each schedule is processed once if the cursor met it due or detached from its resource, otherwise never |
| `KeysetPaging.RoundsAreFew` | app/Jobs/ScheduledJobManager.php:150-172 | When rows only disappear, every round but the last drains a full chunk of the longer table |
| `SnapshotReconcile.Job.Scan` | app/Jobs/PushServerUpdateJob.php:238-353 | The pass over the containers fills found-lists and status maps container by container |
| `SnapshotReconcile.Job.Aggregate` | app/Jobs/PushServerUpdateJob.php:553-640 | Every named application gets its restart count, limit flag and status; no other changes |
| `SnapshotReconcile.Job.Handle` | app/Jobs/PushServerUpdateJob.php:209-374 | The new record of every application, preview and database, in terms of which containers name it and what they report; an application with several servers takes its status from their inspection |
| `SnapshotReconcile.PresentIffReported` | app/Jobs/PushServerUpdateJob.php:742-756 | After a complete snapshot a single-server application is present exactly when a managed container, neither one-off nor preview, names it; otherwise exited with its limit flag cleared |
| `SnapshotReconcile.LimitIffRestartedOften` | app/Jobs/PushServerUpdateJob.php:564-590 | A complete snapshot that reports an application raises its limit flag exactly when there is a limit and some part has reached it, and never clears the flag or lowers the restart count |
| `SnapshotReconcile.StatusIsTheVerdict` | app/Jobs/PushServerUpdateJob.php:603-641 | The status a complete push writes for a reported application: exited if the limit is reached, it had exited and every part has; otherwise the verdict on the parts' last statuses and the highest count, unless that is empty; otherwise what it was |
| `SnapshotReconcile.ElsewhereIs` | app/Jobs/PushServerUpdateJob.php:927-932 | An application with several servers that is not reported only takes the inspected status |
| `SnapshotReconcile.PreviewIs` | app/Jobs/PushServerUpdateJob.php:758-788 | A preview takes the status of the last container that reports it; unreported, it has exited after a complete snapshot and is as it was after another |
| `SnapshotReconcile.DatabaseIs` | app/Jobs/PushServerUpdateJob.php:876-903 | The same for a database, which then also starts to count anew |
| `SnapshotReconcile.ReportsDatabaseIff` | app/Jobs/PushServerUpdateJob.php:331-349 | Which containers stand for a database, by labels, name and the words in their status |
| `SnapshotReconcile.StatusSpelled` | app/Jobs/PushServerUpdateJob.php:239-245 | The status of a container is its state with its health, and plain exited if it has exited |
| `SnapshotReconcile.IncompleteNeverMarksAbsent` | app/Jobs/PushServerUpdateJob.php:355-357 | An incomplete snapshot changes nothing in an application except that a named one becomes present |
| `SnapshotReconcile.IncompleteTakesReportedStatus` | app/Jobs/PushServerUpdateJob.php:355-357 | A preview or database changes only if a container in the report names it, and its new status is that of such a container |
| `SnapshotReconcile.DatabaseLimitIffReported` | app/Jobs/PushServerUpdateJob.php:814-829 | A named database has its limit flag raised exactly when there is a limit and a container reaches it, and its restart count becomes the highest seen |
| `RestartLimit.OneDispatchPerFlip` | app/Jobs/PushServerUpdateJob.php:584-601 | In every interleaving each job dispatches exactly once for each of its flips |
| `RestartLimit.FlipsIff` | app/Jobs/PushServerUpdateJob.php:566-590 | A job flips the flag exactly when it is down, there is a limit and the restarts it sees have reached it; the count is the highest seen |
| `RestartLimit.FlipMeansSeen` | app/Jobs/PushServerUpdateJob.php:584-590 | In every run a count that reached the limit lies behind each flip |
| `RestartLimit.FlipsAreStopsAndWinners` | app/Jobs/PushServerUpdateJob.php:584-601 | All flips are the dispatches plus the winners still on their way |
| `RestartLimit.FlipsAreApart` | app/Jobs/PushServerUpdateJob.php:584-590 | Between any two flips there is a reset |
| `RestartLimit.StopsAreBounded` | app/Jobs/ApplicationDeploymentJob.php:5134-5145 | There are never more stops than resets plus one, and none extra if the flag was set at the start |
| `RestartLimit.StopsAreApartIffPatient` | app/Jobs/PushServerUpdateJob.php:750-755 | In every run two stops have a reset between them, if and only if no reset may overtake a winner that has not dispatched |
| `RestartLimit.LateStopHappens` | app/Jobs/PushServerUpdateJob.php:590-601 | A run with two stops and no reset between them |
| `BridgeCache.Bridge.ApiGet` | wordpress-bridge/oneploy-bridge.php:414-451 | Answer and new cache for every response, error and time-to-live |
| `BridgeCache.AnswerIs` | wordpress-bridge/oneploy-bridge.php:414-458 | In every run, from the history alone: the response kept if the call may use it and it is fresh, otherwise its own if it fetched one, otherwise the one kept if at most a day old, and an error only then |
| `BridgeCache.StoreIsTrue` | wordpress-bridge/oneploy-bridge.php:414-476 | In every run both levels and the index hold exactly what the history of requests and clears says |
| `BridgeCache.Bridge.ClearCache` | wordpress-bridge/oneploy-bridge.php:468-476 | The loop removes exactly the indexed entries of both levels and empties the index |
| `BridgeCache.Unique` | wordpress-bridge/oneploy-bridge.php:460-466 | Same keys, none twice |
| `BridgeCache.RememberIs` | wordpress-bridge/oneploy-bridge.php:460-466 | A known key keeps its place; a new one goes last and pushes the oldest out of a full index |
| `BridgeCache.ReturnedDataIsGenuine` | wordpress-bridge/oneploy-bridge.php:414-458 | In every run a fresh hit is the latest response kept for the same URL, within its time-to-live; otherwise a successful request answers for itself, and for a failed one the latest response kept stands in, within a day |
| `BridgeCache.IndexIsBounded` | wordpress-bridge/oneploy-bridge.php:460-466 | The index is always duplicate-free with at most 100 keys |
| `BridgeCache.ClearLeavesNothing` | wordpress-bridge/oneploy-bridge.php:468-476 | If no period between clears stored more than 100 keys, a clear leaves nothing |
| `BridgeCache.ClearIsCompleteIff` | wordpress-bridge/oneploy-bridge.php:468-476 | In every run whose earlier periods between clears did not overflow, and within a day of its last period: the next clear leaves nothing visible if and only if at most 100 different keys were stored since the last one |
| `BridgeCache.ClearLeavesUnindexed` | wordpress-bridge/oneploy-bridge.php:468-476 | In every run at all, a clear leaves exactly the visible entries that have fallen out of the index |
| `BridgeCache.IndexIsLastEntered` | wordpress-bridge/oneploy-bridge.php:460-466 | The index is the last 100 keys that entered it since the last clear |
| `BridgeCache.SurvivesClearIff` | wordpress-bridge/oneploy-bridge.php:460-476 | For every history and time: an entry survives a clear exactly when it was kept, is alive, and 100 others entered the index after it |
| `BridgeCache.ClearIsCompleteForEveryRun` | wordpress-bridge/oneploy-bridge.php:468-476 | A clear leaves nothing visible if and only if the history has no such entry |
| `BridgeCache.OverflowOutlivesClears` | wordpress-bridge/oneploy-bridge.php:460-476 | After an overflow, an entry survives two clears with nothing stored in between |
| `RateLimiter.Limiter.CheckoutRateLimited` | wordpress-bridge/oneploy-bridge.php:518-530 | Verdict and counter of one attempt |
| `RateLimiter.CounterIsChain` | wordpress-bridge/oneploy-bridge.php:518-530 | In every run the counter is the length of the current chain of allowed attempts at most a minute apart |
| `RateLimiter.AllowedIff` | wordpress-bridge/oneploy-bridge.php:518-530 | Exactly when the next attempt is let through |
| `RateLimiter.AtMostLimitPerMinute` | wordpress-bridge/oneploy-bridge.php:518-530 | No 60-second window, ends included, holds more than 120 allowed attempts |
| `RateLimiter.LetInAgainIff` | wordpress-bridge/oneploy-bridge.php:518-530 | Whatever it tries while blocked, a client is let in exactly when more than 60 seconds have passed since its last allowed attempt |
| `RateLimiter.StillBlockedAfterAMinute` | wordpress-bridge/oneploy-bridge.php:518-530 | After exactly 60 seconds it is still blocked |
| `RateLimiter.SlowClientIsBlocked` | wordpress-bridge/oneploy-bridge.php:518-530 | One attempt a minute is turned away at the 121st |

## Left out

- KeysetPaging.Manager.ProcessAll: is about walks that end; rows added in front of the cursor for ever would keep the original going for ever too.
- DockerfileText.AddedOnceIff: leaves aside keys whose only line breaks are among blanks around them; no accepted key has blanks.
- RestartLimit.OneDispatchPerFlip: does not cover a job that dies between winning the claim and dispatching, which loses that stop.
- The FAILED write after the retry loop of remote commands (app/Traits/ExecuteRemoteCommand.php:140-150): the loop rethrows its last error, so nothing reaches it.
- MuxEstablish.AtMostOneEstablished: does not cover a lock that expires while held, or multiplexing switched off, where the answer is always no.
- Docker, SSH, git, registry and S3 command strings, and what remote commands print.
- `build_image`, the YAML of the generated compose file and the runtime `.env`: string building.
- The removal of containers by the `failed()` handler, notifications, and the swarm, non-rolling and forced forms of the container replacement.
- Service sub-resources, restart counts of previews, the stop of a database at its limit, the TCP proxies and the log drain in the push job; the statuses of an application's additional servers; excluded containers are part of the aggregated status, which is an input.
- Changes to the same rows by other processes while one push is handled; the restart-limit flag alone is modelled under interleaving.
- Cron parsing, time zones, the 30-day expiry of markers, and the expiry of the SSH lock.
- Concurrent access to WordPress transients and options; hash collisions between cache keys.
- Cloudflared proxy processes and the dry-run mode of the reaper.
- Routes, configuration, HTML, HMAC, certificates and encryption.
