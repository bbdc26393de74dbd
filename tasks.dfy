/** The task provider of src/tasks.ts: how a task reported by the Gradle
    server becomes a task definition and an editor task (script, group, name,
    argument list, Build/Test group), how a task is cloned with new
    arguments, and the module-level memo of detected tasks. */
module Tasks {
  import opened Results
  import opened Strings

  /** A task as the Gradle server reports it; `group` may be absent. */
  datatype GradleTask = GradleTask(
    path: string,
    description: string,
    group: Option<string>,
    project: string,
    rootProject: string,
    buildFile: string)

  /** The `GradleTaskDefinition` record; paths are the `fsPath` strings. */
  datatype GradleTaskDefinition = GradleTaskDefinition(
    taskType: string,
    script: string,
    description: string,
    group: string,
    project: string,
    rootProject: string,
    buildFile: string,
    projectFolder: string,
    workspaceFolder: string,
    args: string)

  datatype TaskGroup = Build | Test

  /** The custom execution: the terminal that runs `script` in `sourceDir`. */
  datatype Execution = CustomBuildTaskTerminal(sourceDir: string, script: string, args: seq<string>)

  /** An editor task: its definition, scope (a workspace folder), name,
      execution and optional task group. */
  datatype Task = Task(
    definition: GradleTaskDefinition,
    scope: string,
    name: string,
    source: string,
    execution: Execution,
    problemMatchers: seq<string>,
    group: Option<TaskGroup>)

  /** `path.replace(/^:/, '')`: one leading colon, if any, is dropped. */
  function StripLeadingColon(path: string): (r: string)
    ensures r == path || [':'] + r == path
    ensures path != [] && path[0] == ':' ==> r == path[1..]
    ensures (path == [] || path[0] != ':') ==> r == path
  {
    if path != [] && path[0] == ':' then path[1..] else path
  }

  /** `(group || 'other').toLowerCase()`: a missing or empty group is 'other'. */
  function DefinitionGroup(group: Option<string>): (r: string)
    ensures r != "" && IsLower(r)
    ensures group.None? || group.value == "" ==> r == "other"
    ensures group.Some? && group.value != "" ==> r == ToLower(group.value)
  {
    var g := if group.Some? && group.value != "" then group.value else "other";
    ToLower(g)
  }

  /** The definition `createVSCodeTaskFromGradleTask` builds. */
  function CreateDefinition(
    gradleTask: GradleTask, workspaceFolder: string, rootProject: string,
    buildFile: string, projectFolder: string, args: string): (d: GradleTaskDefinition)
    ensures d.taskType == "gradle"
    ensures d.script == StripLeadingColon(gradleTask.path)
    ensures d.group == DefinitionGroup(gradleTask.group) && IsLower(d.group)
    ensures d.description == gradleTask.description && d.project == gradleTask.project
    ensures d.rootProject == rootProject && d.buildFile == buildFile && d.args == args
    ensures d.projectFolder == projectFolder && d.workspaceFolder == workspaceFolder
  {
    GradleTaskDefinition(
      "gradle", StripLeadingColon(gradleTask.path), gradleTask.description,
      DefinitionGroup(gradleTask.group), gradleTask.project, rootProject,
      buildFile, projectFolder, workspaceFolder, args)
  }

  /** `script.split(' ')[0].split(':').pop()`: the task name in the first word
      of a script. It is what follows the last ':' of that word. */
  function ScriptTaskName(script: string): (r: string)
    ensures r == AfterLast(BeforeFirst(script, ' '), ':')
  {
    var segments := Split(BeforeFirst(script, ' '), ':');
    SplitLastIsAfterLast(BeforeFirst(script, ' '), ':');
    segments[|segments| - 1]
  }

  /** `isTaskOfType`: the lowercased group, or the script's task name, is `t`. */
  predicate IsTaskOfType(definition: GradleTaskDefinition, t: string) {
    ToLower(definition.group) == t || ScriptTaskName(definition.script) == t
  }

  /** For a script whose first word is a task path ending in `name` (any
      project prefix ends in ':'), a task is of type `t` exactly when its
      lowercased group is `t` or `t` is that name; the arguments after the
      first space do not matter. */
  lemma IsTaskOfTypeByPath(definition: GradleTaskDefinition, prefix: string, name: string, rest: string, t: string)
    requires ' ' !in prefix && (prefix == [] || prefix[|prefix| - 1] == ':')
    requires ' ' !in name && ':' !in name
    requires rest == [] || rest[0] == ' '
    requires definition.script == prefix + name + rest
    ensures IsTaskOfType(definition, t) <==> ToLower(definition.group) == t || t == name
  {
    var s := definition.script;
    var w := prefix + name;
    assert s == w + rest;
    assert ' ' !in w by {
      forall i | 0 <= i < |w| ensures w[i] != ' ' {
        if i < |prefix| {
          assert w[i] == prefix[i] && prefix[i] in prefix;
        } else {
          assert w[i] == name[i - |prefix|] && name[i - |prefix|] in name;
        }
      }
    }
    FirstWord(s, w, rest);
    assert w[|w| - |name|..] == name;
    if |name| < |w| {
      assert w[|w| - |name| - 1] == prefix[|prefix| - 1];
    }
    AfterLastUnique(w, ':', name);
  }

  /** A space-free start followed by a space or nothing is the first word. */
  lemma FirstWord(s: string, w: string, rest: string)
    requires ' ' !in w && (rest == [] || rest[0] == ' ') && s == w + rest
    ensures BeforeFirst(s, ' ') == w
  {
    var b := BeforeFirst(s, ' ');
    LeadingWord(w, rest, b, s[|b|..]);
    assert s == b + s[|b|..];
  }

  /** The task group set by `createTaskFromDefinition`: Build is assigned first
      and Test second, so a task of both types is a Test task. */
  function TaskGroupOf(definition: GradleTaskDefinition): (r: Option<TaskGroup>)
    ensures r == Some(Test) <==> IsTaskOfType(definition, "test")
    ensures r == Some(Build) <==> IsTaskOfType(definition, "build") && !IsTaskOfType(definition, "test")
    ensures r == None <==> !IsTaskOfType(definition, "build") && !IsTaskOfType(definition, "test")
  {
    var afterBuild := if IsTaskOfType(definition, "build") then Some(Build) else None;
    if IsTaskOfType(definition, "test") then Some(Test) else afterBuild
  }

  /** The task name: the script, followed by " - " and the project folder
      relative to the workspace folder when the two folders differ.
      `relative` stands for `path.relative`. */
  function TaskName(definition: GradleTaskDefinition, relative: (string, string) -> string): (r: string)
    ensures r == definition.script <==> definition.projectFolder == definition.workspaceFolder
    ensures definition.projectFolder != definition.workspaceFolder ==>
      r == definition.script + " - " + relative(definition.workspaceFolder, definition.projectFolder)
    ensures |definition.script| <= |r| && r[..|definition.script|] == definition.script
  {
    if definition.projectFolder != definition.workspaceFolder then
      definition.script + " - " + relative(definition.workspaceFolder, definition.projectFolder)
    else
      definition.script
  }

  /** `args.split(' ').filter(Boolean)`: the words of `args`, that is its
      maximal runs of characters other than ' ', in order. No word is empty
      or holds a space, and together they are `args` without its spaces. */
  function SplitArgs(args: string): (r: seq<string>)
    ensures "" !in r
    ensures forall a :: a in r ==> ' ' !in a
    ensures Concat(r) == Remove(args, ' ')
    ensures AreWords(r, args)
  {
    var words := Split(args, ' ');
    ConcatSplit(args, ' ');
    SplitNonEmptyAreWords(args);
    NonEmpty(words)
  }

  /** The argument words are the only words of `args`: any sequence of
      space-free words that `args` is made of, separated by spaces, is the
      one `SplitArgs` gives. */
  lemma SplitArgsAreTheWords(args: string, words: seq<string>)
    requires AreWords(words, args)
    ensures words == SplitArgs(args)
  {
    var g1: seq<nat> :| WordsWithGaps(words, args, g1);
    var g2: seq<nat> :| WordsWithGaps(SplitArgs(args), args, g2);
    WordsUnique(words, g1, SplitArgs(args), g2, args);
  }

  /** Leading, trailing and repeated spaces give no empty argument. */
  lemma SplitArgsExample()
    ensures SplitArgs(" --info  -x ") == ["--info", "-x"]
  {
    var words := ["--info", "-x"];
    var gaps: seq<nat> := [1, 2, 1];
    assert Spaces(1) == " " && Spaces(2) == "  " && Spaces(0) == "";
    assert Interleave(words[1..][1..], gaps[1..][1..]) == " ";
    assert Interleave(words[1..], gaps[1..]) == "  -x ";
    assert WordsWithGaps(words, " --info  -x ", gaps);
    SplitArgsAreTheWords(" --info  -x ", words);
  }

  /** `createTaskFromDefinition`. */
  function CreateTaskFromDefinition(
    definition: GradleTaskDefinition, workspaceFolder: string, projectFolder: string,
    relative: (string, string) -> string): (task: Task)
    ensures task.definition == definition && task.scope == workspaceFolder
    ensures task.name == TaskName(definition, relative)
    ensures task.execution == CustomBuildTaskTerminal(projectFolder, definition.script, SplitArgs(definition.args))
    ensures task.group == TaskGroupOf(definition)
  {
    Task(definition, workspaceFolder, TaskName(definition, relative), "gradle",
         CustomBuildTaskTerminal(projectFolder, definition.script, SplitArgs(definition.args)),
         ["$gradle"], TaskGroupOf(definition))
  }

  /** `createVSCodeTaskFromGradleTask`. */
  function CreateVSCodeTaskFromGradleTask(
    gradleTask: GradleTask, workspaceFolder: string, rootProject: string,
    buildFile: string, projectFolder: string, args: string,
    relative: (string, string) -> string): (task: Task)
    ensures task.definition == CreateDefinition(gradleTask, workspaceFolder, rootProject, buildFile, projectFolder, args)
    ensures task.execution.script == StripLeadingColon(gradleTask.path)
    ensures projectFolder == workspaceFolder ==> task.name == StripLeadingColon(gradleTask.path)
  {
    var definition := CreateDefinition(gradleTask, workspaceFolder, rootProject, buildFile, projectFolder, args);
    CreateTaskFromDefinition(definition, workspaceFolder, projectFolder, relative)
  }

  /** `cloneTask`. `wrapper` is the result of the Gradle wrapper lookup in the
      task's folder: `None` when no wrapper exists, where the lookup throws. */
  function CloneTask(
    task: Task, args: string, wrapper: Option<string>,
    relative: (string, string) -> string): (r: Result<Task, string>)
    ensures r.Failure? <==> wrapper.None?
    ensures r.Success? ==> r.value.definition == task.definition.(args := args)
    ensures r.Success? ==> r.value.scope == task.scope
  {
    if wrapper.None? then Failure("Gradle wrapper executable not found")
    else
      var definition := task.definition.(args := args);
      Success(CreateTaskFromDefinition(definition, task.scope, definition.projectFolder, relative))
  }

  /** A clone keeps the original's name, task group and script; only the
      definition's `args` and the words passed to the terminal change. */
  lemma CloneKeepsAllButArgs(
    definition: GradleTaskDefinition, workspaceFolder: string, args: string,
    wrapper: string, relative: (string, string) -> string)
    ensures var task := CreateTaskFromDefinition(definition, workspaceFolder, definition.projectFolder, relative);
            var r := CloneTask(task, args, Some(wrapper), relative);
            && r.Success?
            && r.value.definition.(args := definition.args) == definition
            && r.value.name == task.name
            && r.value.group == task.group
            && r.value.execution == task.execution.(args := SplitArgs(args))
  {
  }

  /** The module-level `cachedTasks` memo and the `autoDetectOverride` flag.
      Detection itself reads the workspace, so each call receives the value a
      detection would produce now; it is used only when nothing is cached. */
  class TaskDetectionCache {
    var autoDetectOverride: bool
    var cachedTasks: Option<Result<seq<Task>, string>>
    var detections: nat
    var errorLines: seq<string>

    constructor ()
      ensures !autoDetectOverride && cachedTasks == None && detections == 0 && errorLines == []
    {
      autoDetectOverride := false;
      cachedTasks := None;
      detections := 0;
      errorLines := [];
    }

    /** `enableTaskDetection`. */
    method EnableTaskDetection()
      modifies this`autoDetectOverride
      ensures autoDetectOverride
    {
      autoDetectOverride := true;
    }

    /** `provideGradleTasks`: detect only when nothing is cached. */
    method ProvideGradleTasks(detected: Result<seq<Task>, string>) returns (r: Result<seq<Task>, string>)
      modifies this`cachedTasks, this`detections
      ensures old(cachedTasks).Some? ==>
        r == old(cachedTasks).value && cachedTasks == old(cachedTasks) && detections == old(detections)
      ensures old(cachedTasks).None? ==>
        r == detected && cachedTasks == Some(detected) && detections == old(detections) + 1
    {
      if cachedTasks.None? {
        cachedTasks := Some(detected);
        detections := detections + 1;
      }
      r := cachedTasks.value;
    }

    /** `provideTasks`: a failed detection is reported and gives no tasks. */
    method ProvideTasks(detected: Result<seq<Task>, string>) returns (r: Option<seq<Task>>)
      modifies this`cachedTasks, this`detections, this`errorLines
      ensures var provided := if old(cachedTasks).Some? then old(cachedTasks).value else detected;
              && (provided.Success? ==> r == Some(provided.value) && errorLines == old(errorLines))
              && (provided.Failure? ==>
                    r == None && errorLines == old(errorLines) + ["Error providing gradle tasks: " + provided.error])
      ensures cachedTasks == if old(cachedTasks).Some? then old(cachedTasks) else Some(detected)
      ensures detections == old(detections) + (if old(cachedTasks).None? then 1 else 0)
    {
      var provided := ProvideGradleTasks(detected);
      if provided.Success? {
        r := Some(provided.value);
      } else {
        r := None;
        errorLines := errorLines + ["Error providing gradle tasks: " + provided.error];
      }
    }

    /** `invalidateTasksCache`. */
    method InvalidateTasksCache()
      modifies this`cachedTasks
      ensures cachedTasks == None
    {
      cachedTasks := None;
    }
  }

  /** Two requests without an invalidation in between give the same tasks and
      run detection at most once, whatever the second detection would give. */
  method ProvideTwiceIsCached(cache: TaskDetectionCache, first: Result<seq<Task>, string>, second: Result<seq<Task>, string>)
    returns (a: Result<seq<Task>, string>, b: Result<seq<Task>, string>)
    modifies cache
    ensures a == b
    ensures cache.detections <= old(cache.detections) + 1
  {
    a := cache.ProvideGradleTasks(first);
    b := cache.ProvideGradleTasks(second);
  }

  /** After an invalidation the next request detects again. */
  method InvalidateThenProvideDetects(cache: TaskDetectionCache, detected: Result<seq<Task>, string>)
    returns (r: Result<seq<Task>, string>)
    modifies cache
    ensures r == detected
    ensures cache.detections == old(cache.detections) + 1
  {
    cache.InvalidateTasksCache();
    r := cache.ProvideGradleTasks(detected);
  }
}
