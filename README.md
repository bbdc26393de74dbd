# vscode-gradle core, modelled in Dafny

This project models four parts of the vscode-gradle extension and its Java
task server, and proves properties about them:

- **The Gradle client** (`client.dfy`, module `Client`). This is the client
  side of `extension/src/client/GradleClient.ts`. `getBuild` and `runTask`
  consume a stream of tagged replies: PROGRESS, OUTPUT, CANCELLED,
  GET_BUILD_RESULT and ENVIRONMENT. Each stream ends in `end` or `error`,
  and a `finally` block runs on every exit. The model also covers:
  - the unary calls `cancelRunTask` and `getDaemonsStatus`;
  - `handleRunTaskCancelled`;
  - the connect gate: `handleServerStart`, `handleClientReady`,
    `handleConnectError` and `close`.

  The class `GradleClient` records what the client does: the progress
  messages reported, the logger calls, the output chunks written or passed
  to `onOutput`, the set of tasks being cancelled, the daemon-status refresh
  requests, the queued-task restarts, the gRPC client's lifecycle and the
  pending `handleServerStart` promises. Each stream handler is a method with
  a loop over the replies. It is proved against functions over the reply
  sequence: the last build, the last environment, and the collected
  progress, output and log lines.
- **The task provider** (`tasks.dfy`, module `Tasks`). This is
  `src/tasks.ts`. It covers:
  - how a task reported by the server becomes a task definition and an
    editor task: the script, the group, the name, the argument words and
    the Build/Test task group;
  - `isTaskOfType` and `cloneTask`;
  - the module-level `cachedTasks` memo with `invalidateTasksCache` and
    `enableTaskDetection`.

  `strings.dfy` (module `Strings`) holds the JavaScript string operations
  this relies on: `trim`, `split`, `lastIndexOf`, `slice`, `toLowerCase`
  and `filter(Boolean)`.
- **The tasks tree** (`tree.dfy`, module `TasksTree`). This is
  `extension/src/views/gradleTasks/GradleTasksTreeDataProvider.ts`.
  `buildItemsTreeFromTasks` groups tasks into root project (one per project
  folder), project (one per build file), task group (unless the view is
  collapsed) and task. It de-duplicates through five module-level maps.
  - The maps are fields of the class `GradleTasksTreeDataProvider`, and the
    method `AddTask` runs the body of the `forEach` in place.
  - The method is proved equal to a pure step function `StepTask` on a
    `Tree` value. The properties are lemmas about `StepTask` and its fold
    `BuildTasks`: well-formedness of the maps, which tasks are placed and
    where, when the build throws, and the root order.
  - `getChildren` and `getParent` are `Children` and `ParentOf`.
- **`StopGetTasksAction.run`** (`stop_get_tasks.dfy`, module
  `StopGetTasks`). The action cancels the token of the pending get-tasks
  request for one directory and removes it from the shared pool. It throws
  when the directory does not exist.

`results.dfy` (module `Results`) holds `Option`, `Result` and `Outcome`
(pass, or fail with an error).

## Model

| member | source | states |
|---|---|---|
| Client.ProgressReportsTrimmed | extension/src/client/GradleClient.ts:170-173 | there is one progress report per PROGRESS reply, in arrival order: the k-th report is the k-th PROGRESS reply's message with surrounding whitespace removed, so every report is trimmed (the same handler is at 273-276) |
| Client.OutputsAreOutputReplies | extension/src/client/GradleClient.ts:278-282 | there is one `onOutput` call per OUTPUT reply, in arrival order: the k-th output passed on is the payload of the k-th OUTPUT reply |
| Client.OutputsAreCarried | extension/src/client/GradleClient.ts:278-282 | an output is passed to `onOutput` exactly when an OUTPUT reply carried it |
| Client.LastBuildIsLastResult | extension/src/client/GradleClient.ts:192-194 | the build the stream delivers is the payload of a GET_BUILD_RESULT reply after which no other arrives; there is none exactly when no such reply arrived |
| Client.NoEnvironmentKeeps | extension/src/client/GradleClient.ts:195-201 | without an ENVIRONMENT reply the root project's environment stays as it was |
| Client.LastEnvironmentWins | extension/src/client/GradleClient.ts:195-201 | with an ENVIRONMENT reply, the environment is that of an ENVIRONMENT reply after which no other arrives |
| Client.OtherRepliesKeepEnvironment | extension/src/client/GradleClient.ts:168-202 | replies of any other kind arriving later leave the environment unchanged: only ENVIRONMENT replies touch the root project |
| Client.FireConnect | extension/src/client/GradleClient.ts:91-94 | when `onDidConnect` fires, every pending promise resolves and its connect handler disposes of itself; the fail handlers stay subscribed |
| Client.FireConnectFail | extension/src/client/GradleClient.ts:95-98 | the same for `onDidConnectFail` |
| Client.GradleClient.constructor | extension/src/client/GradleClient.ts:68-76 | no gRPC client yet, nothing logged, reported or pending |
| Client.GradleClient.HandleBuildReply | extension/src/client/GradleClient.ts:168-202 | each GetBuild reply kind has its own effect: a trimmed progress report; an output chunk to the INFO (stdout) or ERROR (stderr) logger stream; a "Get build cancelled" log line; the new build result; or the environment set and logged with a refresh requested. An unset kind has no effect |
| Client.GradleClient.ReadBuildStream | extension/src/client/GradleClient.ts:164-206 | after the replies, the result is `LastBuild`, the environment is `LastEnvironment`, reports, writes and log lines are those of the replies in order, and one refresh is requested per ENVIRONMENT reply |
| Client.GradleClient.GetBuild | extension/src/client/GradleClient.ts:132-224 | the status bar is hidden first. On `end` the result is the last build result. On `error` there is no result, the error (`details` or else `message`) is logged with the project folder, and the status bar shows the build-error text with the show-logs command; nothing is thrown. One more refresh follows on every exit |
| Client.GradleClient.HandleRunTaskCancelled | extension/src/client/GradleClient.ts:491-499 | logs "Task cancelled: script: message" and takes the task out of the cancelling set |
| Client.GradleClient.HandleRunTaskReply | extension/src/client/GradleClient.ts:271-290 | a progress reply is reported trimmed; an output reply is passed on only when `onOutput` is given; a CANCELLED reply takes the task out of the cancelling set and logs |
| Client.GradleClient.ReadRunTaskStream | extension/src/client/GradleClient.ts:268-293 | after the replies: the trimmed progress reports in order; every output in arrival order when `onOutput` is given and none otherwise; the task is out of the cancelling set exactly when a CANCELLED reply arrived |
| Client.GradleClient.RunTask | extension/src/client/GradleClient.ts:226-304 | a stream error is logged and returned as the failure (rethrown); a normal end logs "Completed task". On every exit exactly one refresh and one restart of the task happen |
| Client.GradleClient.CancelRunTask | extension/src/client/GradleClient.ts:306-341 | a reply is logged at debug level, and the task leaves the cancelling set exactly when the reply says it no longer runs. An error is logged at error level and the set is unchanged. One refresh follows either way |
| Client.GradleClient.GetDaemonsStatus | extension/src/client/GradleClient.ts:400-433 | returns the reply exactly when there is one. On error it returns nothing and logs at debug level if the token was cancelled, at error level otherwise |
| Client.GradleClient.Close | extension/src/client/GradleClient.ts:532-535 | hides the status bar and closes the gRPC client if there is one |
| Client.GradleClient.HandleServerStart | extension/src/client/GradleClient.ts:82-104 | reports "Connecting" and adds one pending promise with both handlers subscribed. With `connectToServer` (115-130), a client is created, or the construction error is logged and the status bar hidden |
| Client.GradleClient.HandleConnectError | extension/src/client/GradleClient.ts:505-519 | requires a gRPC client when the server is ready, since the source reads that client's connectivity state then. It logs, closes the client before `onDidConnectFail` fires, then resolves every pending promise. When the server is ready it logs the connectivity state and prompts for a client reconnect; otherwise the server prompts |
| Client.GradleClient.HandleClientReady | extension/src/client/GradleClient.ts:106-113 | runs as the readiness callback of an existing client. Without an error it logs the connection and fires `onDidConnect`, and nothing else changes. With an error it does what `handleConnectError` does: logs the error, closes the client, hides the status bar, fires `onDidConnectFail`, and logs the client's state and prompts a client restart when the server is ready, otherwise prompts a server restart. Either way every pending promise is resolved |
| Tasks.StripLeadingColon | src/tasks.ts:155 | the script is the task path with one leading ':' removed, if there is one, and otherwise the path itself |
| Tasks.DefinitionGroup | src/tasks.ts:160 | the group lowercased, or "other" when it is missing or empty; never empty |
| Tasks.CreateDefinition | src/tasks.ts:155-167 | the definition's type is "gradle", its script and group as above, and the other fields are copied from the task and the arguments |
| Tasks.ScriptTaskName | src/tasks.ts:226-229 | the last ':'-separated segment of the first space-separated word is what follows the last ':' of that word |
| Tasks.IsTaskOfTypeByPath | src/tasks.ts:223-231 | for a script whose first word is a task path ending in `name`, a task is of type `t` exactly when its lowercased group is `t` or `t` is `name`; the arguments after the first space play no part |
| Tasks.TaskGroupOf | src/tasks.ts:305-310 | Test exactly when the definition is a test task; Build exactly when it is a build task and not a test task; unset otherwise |
| Tasks.TaskName | src/tasks.ts:275-282 | the name equals the script exactly when the project folder is the workspace folder; otherwise it is the script, " - " and the relative path; it always starts with the script |
| Tasks.SplitArgs | src/tasks.ts:294 | the argument words are the words of the argument string: none is empty or holds a space, and the string is those words in order, separated by at least one space, with any number of spaces at either end |
| Tasks.SplitArgsAreTheWords | src/tasks.ts:294 | those words are unique: any space-free words the argument string is made of in that way are exactly the argument words, so each is a maximal run of characters other than ' ' |
| Tasks.SplitArgsExample | src/tasks.ts:294 | leading, trailing and doubled spaces give no empty word: `" --info  -x "` gives `--info` and `-x` |
| Tasks.CreateTaskFromDefinition | src/tasks.ts:269-312 | the task carries the definition, the workspace folder as its scope, the name, a terminal running the script with the argument words in the project folder, and the task group |
| Tasks.CreateVSCodeTaskFromGradleTask | src/tasks.ts:147-175 | the task's definition is the constructed definition; its terminal runs the stripped path; its name is that path when the project folder is the workspace folder |
| Tasks.CloneTask | src/tasks.ts:314-331 | fails exactly when no Gradle wrapper is found; otherwise the clone's definition is the original with only `args` replaced, in the same scope |
| Tasks.CloneKeepsAllButArgs | src/tasks.ts:324-330 | a clone keeps the original's name, task group and script, and only the argument words of its terminal change |
| Tasks.TaskDetectionCache.constructor | src/tasks.ts:20-21 | no tasks cached and auto-detection not overridden |
| Tasks.TaskDetectionCache.EnableTaskDetection | src/tasks.ts:23-25 | sets the auto-detection override |
| Tasks.TaskDetectionCache.ProvideGradleTasks | src/tasks.ts:86-91 | with a cached value, that value is returned and nothing is detected; otherwise detection runs once and its value is cached and returned |
| Tasks.TaskDetectionCache.ProvideTasks | src/tasks.ts:67-75 | a successful provision returns the tasks; a failed one returns nothing and appends "Error providing gradle tasks: " and the message to the output channel. The cache and detection count change as in `ProvideGradleTasks`: a cached value is kept with no detection, otherwise one detection is run and cached |
| Tasks.TaskDetectionCache.InvalidateTasksCache | src/tasks.ts:184-186 | clears the cache |
| Tasks.ProvideTwiceIsCached | src/tasks.ts:86-91 | two requests without an invalidation between them give the same tasks and detect at most once |
| Tasks.InvalidateThenProvideDetects | src/tasks.ts:184-186 | after an invalidation the next request detects again and returns the new value |
| TasksTree.TaskLabelOfPath | extension/src/views/gradleTasks/GradleTasksTreeDataProvider.ts:169-171 | a task's label is the segment after the last ':' of its script, and a script without ':' is its own label |
| TasksTree.AsWrittenGroupIdCollides | extension/src/views/gradleTasks/GradleTasksTreeDataProvider.ts:175 | two tasks of different projects can get the same group id as written (see Findings) |
| TasksTree.AsWrittenPlace | extension/src/views/gradleTasks/GradleTasksTreeDataProvider.ts:172-200 | placing a task with group items keyed as written: the task is added to the group item of its id, and that item belongs to the project that first used the id, not necessarily the task's own |
| TasksTree.AsWrittenMisplaces | extension/src/views/gradleTasks/GradleTasksTreeDataProvider.ts:172-200 | as written, the `build` task of `:b:core` hangs under the group item made under `:a:core`'s project, and `:b:core`'s project lists no group; the corrected placement puts it under its own project |
| TasksTree.GroupKeyOf | extension/src/views/gradleTasks/GradleTasksTreeDataProvider.ts:174-186 | the corrected group key holds the task's group and build file |
| TasksTree.GroupKeySharedIffSameGroupAndProject | extension/src/views/gradleTasks/GradleTasksTreeDataProvider.ts:174-186 | two tasks share a group item exactly when they have the same group and the same build file |
| TasksTree.ChildrenPointBack | extension/src/views/gradleTasks/GradleTasksTreeDataProvider.ts:83-117 | in a well-formed tree, every child `getChildren` returns has the element it was asked about as its `getParent` |
| TasksTree.TopLevelListsRoots | extension/src/views/gradleTasks/GradleTasksTreeDataProvider.ts:204-207 | the root order lists each root once, so the root map's size is the order's length. With one root the result is that root's projects; otherwise it is every root |
| TasksTree.WithRootKeepsTree | extension/src/views/gradleTasks/GradleTasksTreeDataProvider.ts:128-140 | registering a root item keeps the tree well formed and every root in the root order |
| TasksTree.WithProjectProjectsOk | extension/src/views/gradleTasks/GradleTasksTreeDataProvider.ts:158-167 | after a new project item is added, every project is listed by its own root and by no other, the new one included |
| TasksTree.WithProjectKeepsTree | extension/src/views/gradleTasks/GradleTasksTreeDataProvider.ts:158-167 | a new project item is added exactly once to its root, which keeps the tree well formed: every project is listed by its root, once |
| TasksTree.WithGroupGroupsOk | extension/src/views/gradleTasks/GradleTasksTreeDataProvider.ts:174-186 | after a new group item is added, every group is listed by the project of its build file, the new one included |
| TasksTree.WithGroupKeepsTree | extension/src/views/gradleTasks/GradleTasksTreeDataProvider.ts:174-186 | a new group item is added exactly once to its project, which keeps the tree well formed: every group is listed by its project, once |
| TasksTree.WithItemKeepsTree | extension/src/views/gradleTasks/GradleTasksTreeDataProvider.ts:189-200 | entering a well-formed task item and appending it under its parent keeps the tree well formed |
| TasksTree.PlaceKeepsTree | extension/src/views/gradleTasks/GradleTasksTreeDataProvider.ts:158-200 | placing a task keeps the tree well formed and leaves the roots and their order as they are |
| TasksTree.PlacePlaces | extension/src/views/gradleTasks/GradleTasksTreeDataProvider.ts:158-200 | a placed task's item, with its label, description and java-debug setting, hangs under its project when collapsed and under its group otherwise; nothing already in the tree is lost |
| TasksTree.StepTaskKeepsTree | extension/src/views/gradleTasks/GradleTasksTreeDataProvider.ts:126-201 | one task keeps the tree well formed: one root per project folder, each project listed exactly once, by its own root, each group listed exactly once, by its project, every task item under the parent it belongs to |
| TasksTree.StepTaskFailsIff | extension/src/views/gradleTasks/GradleTasksTreeDataProvider.ts:154-156 | a task throws exactly when it is eligible, gets past the workspace-folder lookup and has no build file, and it throws the build-file error |
| TasksTree.StepTaskGrows | extension/src/views/gradleTasks/GradleTasksTreeDataProvider.ts:126-201 | one task only adds to the tree |
| TasksTree.StepTaskJavaDebug | extension/src/views/gradleTasks/GradleTasksTreeDataProvider.ts:142-153 | a java-debug entry is added only for a project folder that lies in a workspace folder |
| TasksTree.StepTaskPlaces | extension/src/views/gradleTasks/GradleTasksTreeDataProvider.ts:126-201 | an eligible task that gets past the lookup and has a build file is placed |
| TasksTree.StepTaskOnlyReached | extension/src/views/gradleTasks/GradleTasksTreeDataProvider.ts:127 | a task item is added only for such a task |
| TasksTree.StepTaskRoots | extension/src/views/gradleTasks/GradleTasksTreeDataProvider.ts:128-140 | an eligible task's folder gets a root item, appended to the root order when first seen, before any other check |
| TasksTree.BuildTasksKeepsTree | extension/src/views/gradleTasks/GradleTasksTreeDataProvider.ts:125-202 | the whole `forEach` keeps the tree well formed |
| TasksTree.BuildTasksGrows | extension/src/views/gradleTasks/GradleTasksTreeDataProvider.ts:125-202 | the `forEach` only adds to the tree, and adds java-debug entries only for folders in a workspace folder |
| TasksTree.BuildTasksFailsIff | extension/src/views/gradleTasks/GradleTasksTreeDataProvider.ts:154-156 | the build throws exactly when some task gets past the lookup without a build file, and it throws the build-file error |
| TasksTree.BuildTasksPlacesAll | extension/src/views/gradleTasks/GradleTasksTreeDataProvider.ts:125-202 | when the build completes, every eligible task that got past the lookup is placed |
| TasksTree.BuildTasksOnlyReached | extension/src/views/gradleTasks/GradleTasksTreeDataProvider.ts:127 | every task item comes from a task that is eligible, got past the lookup and has a build file |
| TasksTree.BuildTasksRootOrder | extension/src/views/gradleTasks/GradleTasksTreeDataProvider.ts:128-140 | when the build completes, the root order is the project folders of the eligible tasks, each once, in the order first seen |
| TasksTree.BuildTasksRoots | extension/src/views/gradleTasks/GradleTasksTreeDataProvider.ts:128-140 | there is one root item per project folder of an eligible task, placed or not |
| TasksTree.RootWithoutProjects | extension/src/views/gradleTasks/GradleTasksTreeDataProvider.ts:128-148 | a task whose folder lies in no workspace folder still leaves a root item, with no projects and no task |
| TasksTree.BuildTasksStopsAtFailure | extension/src/views/gradleTasks/GradleTasksTreeDataProvider.ts:154-156 | once a task throws, the later tasks are not processed |
| TasksTree.GradleTasksTreeDataProvider.constructor | extension/src/views/gradleTasks/GradleTasksTreeDataProvider.ts:44-50 | `collapsed` is the stored value, false when none is stored; it is persisted, set as context key and the view refreshed once; the maps are empty |
| TasksTree.GradleTasksTreeDataProvider.SetCollapsed | extension/src/views/gradleTasks/GradleTasksTreeDataProvider.ts:52-61 | records the value, persists it, sets the context key and refreshes the view once |
| TasksTree.GradleTasksTreeDataProvider.ResetCachedTreeItems | extension/src/views/gradleTasks/GradleTasksTreeDataProvider.ts:28-34 | all five maps are empty |
| TasksTree.GradleTasksTreeDataProvider.AddRoot | extension/src/views/gradleTasks/GradleTasksTreeDataProvider.ts:128-140 | the maps become `WithRoot` of the old maps |
| TasksTree.GradleTasksTreeDataProvider.AddProject | extension/src/views/gradleTasks/GradleTasksTreeDataProvider.ts:158-167 | the maps become `WithProject` of the old maps |
| TasksTree.GradleTasksTreeDataProvider.AddGroup | extension/src/views/gradleTasks/GradleTasksTreeDataProvider.ts:174-186 | the maps become `WithGroup` of the old maps |
| TasksTree.GradleTasksTreeDataProvider.AddItem | extension/src/views/gradleTasks/GradleTasksTreeDataProvider.ts:189-200 | the maps become `WithItem` of the old maps |
| TasksTree.GradleTasksTreeDataProvider.PlaceTask | extension/src/views/gradleTasks/GradleTasksTreeDataProvider.ts:158-200 | the maps become `Place` of the old maps |
| TasksTree.GradleTasksTreeDataProvider.AddTask | extension/src/views/gradleTasks/GradleTasksTreeDataProvider.ts:125-201 | the maps and the outcome are those of `StepTask` on the old maps, whose properties are the lemmas above |
| TasksTree.GradleTasksTreeDataProvider.BuildItemsTreeFromTasks | extension/src/views/gradleTasks/GradleTasksTreeDataProvider.ts:120-208 | the loop leaves the maps as `BuildTasks` does and keeps them well formed. It returns the top-level items, or throws the first task's error and processes nothing after it |
| TasksTree.GradleTasksTreeDataProvider.BuildTreeItems | extension/src/views/gradleTasks/GradleTasksTreeDataProvider.ts:63-73 | the maps are cleared first, so nothing from an earlier build survives; no tasks give the single no-tasks item; otherwise the result is that of building from empty maps |
| TasksTree.GradleTasksTreeDataProvider.GetChildren | extension/src/views/gradleTasks/GradleTasksTreeDataProvider.ts:95-117 | with no element the maps are reset and rebuilt: empty with the no-tasks item for no tasks, otherwise the maps `BuildTasks` gives from empty maps, with its result. Given an element, its children are returned and the maps are unchanged |
| StopGetTasks.Stop | java-gradle-tasks/src/main/java/com/github/badsyntax/gradletasks/server/actions/StopGetTasksAction.java:18-28 | throws exactly when the directory does not exist. Otherwise the directory's key is gone, and its token is cancelled exactly when it was present; other keys keep their tokens and are not cancelled; an absent key changes nothing |
| StopGetTasks.StopIdempotent | java-gradle-tasks/src/main/java/com/github/badsyntax/gradletasks/server/actions/StopGetTasksAction.java:24-28 | a second stop of the same directory changes nothing |
| StopGetTasks.StopCommutes | java-gradle-tasks/src/main/java/com/github/badsyntax/gradletasks/server/actions/StopGetTasksAction.java:22-28 | stops of two directories give the same pool in either order |
| StopGetTasks.GetTasksPool.Get | java-gradle-tasks/src/main/java/com/github/badsyntax/gradletasks/server/actions/StopGetTasksAction.java:24 | the token under the key, or nothing |
| StopGetTasks.GetTasksPool.Cancel | java-gradle-tasks/src/main/java/com/github/badsyntax/gradletasks/server/actions/StopGetTasksAction.java:26 | records the key as cancelled |
| StopGetTasks.GetTasksPool.Remove | java-gradle-tasks/src/main/java/com/github/badsyntax/gradletasks/server/actions/StopGetTasksAction.java:27 | removes the key from the pool |
| StopGetTasks.StopGetTasksAction.Run | java-gradle-tasks/src/main/java/com/github/badsyntax/gradletasks/server/actions/StopGetTasksAction.java:18-28 | throws and leaves the pool unchanged when the directory does not exist; otherwise the pool becomes `Stop` of the old pool |
| StopGetTasks.RunTwice | java-gradle-tasks/src/main/java/com/github/badsyntax/gradletasks/server/actions/StopGetTasksAction.java:24-28 | running the action twice succeeds both times and leaves the pool as one run does |

## Left out

- The gRPC transport is not modelled: client construction, `waitForReady` with its 30-second deadline, stream wiring and `stream.cancel()`. A stream is given as its replies and the way it ended; a unary call is given its reply or its error.
- `waitForConnect`, the async suspensions and the interleaving of calls are not modelled; each call runs to completion in turn.
- Editor effects are recorded only as values, counters or log entries: `withProgress`, the status bar, `executeCommand` and `showErrorMessage`. `process.nextTick` is taken as immediate.
- Client.GradleClient.RunTask: the refresh requested by the progress handler when progress starts, and the cancel-task command bound to the cancellation token, are not modelled. `ProgressHandler` is not part of this model.
- Client.GradleClient.GetBuild: the `cancelGetBuilds` call bound to the cancellation token is not modelled.
- `cancelRunTasks`, `cancelGetBuilds`, `stopDaemons`, `stopDaemon`, `showRestartMessage` and `dispose` are not part of this model. `showRestartMessage` is counted as a prompt.
- A reply whose kind is not set falls through every branch of the source's `switch` and is ignored.
- Strings.ToLower lowercases ASCII letters only; JavaScript's `toLowerCase` also maps other scripts.
- `path.basename`, `path.relative`, `vscode.workspace.getWorkspaceFolder` and the Gradle wrapper lookup are parameters.
- Task detection (`detectGradleTasks`, `getGradleProjectFolders`, `provideGradleTasksForFolder`) reads the file system and the server. Its result is a parameter of `ProvideGradleTasks`. The cache stores that value instead of the pending promise.
- The java-debug configuration of a project folder is identified by the workspace folder it is read from. `getConfigJavaDebug` is not part of this model.
- TasksTree.GradleTasksTreeDataProvider.PlaceTask keys group items by group and build file, the corrected key of the finding below. `StepTask`, `BuildTasks`, the provider's methods and every tree lemma use that key. The key as written, `group + project`, is modelled only by `AsWrittenGroupId` and `AsWrittenPlace`.
- The tree item classes (`RootProjectTreeItem`, `ProjectTreeItem`, `GroupTreeItem`, `GradleTaskTreeItem`) are not part of this model. `addProject`, `addGroup` and `addTask` are taken as appends. An item refers to another by its map key, so a root lists its projects by build file and a project lists its groups by group key.
- The module-level maps become fields of the provider. Map insertion order, which decides the top-level order, is kept for the root map only, as `rootOrder`.
- The loading of tasks in `buildTreeItems` (`loadTasks`) is a parameter: the tasks it returns.
- StopGetTasks.StopGetTasksAction.Run: the branch for a null absolute path is not modelled, because `getAbsolutePath` never returns null. That branch is meant to cancel every token and empty the pool. As written, it would remove entries from the map while streaming over its key set.
- The Gradle `CancellationTokenSource` is not modelled; cancelling it is recorded as its key in a `cancelled` set.

## Findings

| source | as written | input that shows it | evidently intended | confidence | as-written member | corrected member |
|---|---|---|---|---|---|---|
| extension/src/views/gradleTasks/GradleTasksTreeDataProvider.ts:175 | group items are keyed by `definition.group + definition.project`, a string concatenation of the group and the project's name | two subprojects named `core` under different parents (`:a:core` and `:b:core`), each with a `build` task in group `build`. Both get the id `buildcore`, so the second project's task hangs under the group item of the first project. Group `ab` in project `c` and group `a` in project `bc` also collide | one group item per group within each project | not executed | TasksTree.AsWrittenMisplaces | TasksTree.GroupKeySharedIffSameGroupAndProject |
