/** The Gradle client of extension/src/client/GradleClient.ts, as seen from the
    replies the server sends. A streaming call (GetBuild, RunTask) is given
    the replies of its stream in arrival order and the way the stream ended;
    a unary call is given its reply or its error. The class records what the
    client does with them: the progress messages reported, the output passed
    on, the log, the daemon-status refresh requests, the tasks still being
    cancelled, the queued-task restarts and the connect events. */
module Client {
  import opened Results
  import opened Strings

  newtype byte = x: int | 0 <= x < 256

  datatype OutputType = Stdout | Stderr

  datatype Output = Output(outputType: OutputType, outputBytes: seq<byte>)

  datatype Environment = Environment(
    javaHome: string, jvmArgs: seq<string>, gradleUserHome: string, gradleVersion: string)

  /** The Gradle build model a GetBuild stream delivers; only its identity matters here. */
  datatype GradleBuild = GradleBuild(rootProjectName: string)

  /** One reply of a stream, tagged by its kind. RunTask replies only ever
      carry the first three kinds; `KindNotSet` is a reply with no kind. */
  datatype Reply =
    | Progress(message: string)
    | OutputReply(output: Output)
    | Cancelled(message: string)
    | GetBuildResult(build: GradleBuild)
    | EnvironmentReply(environment: Environment)
    | KindNotSet

  /** A gRPC service error; an empty `details` stands for no details. */
  datatype ServiceError = ServiceError(message: string, details: string)

  /** How a stream finished: its `end` event, or its `error` event. */
  datatype StreamEnd = End | Error(error: ServiceError)

  datatype LogLevel = LogDebug | LogInfo | LogError

  /** One logger call: its level and its arguments. */
  datatype LogEntry = LogEntry(level: LogLevel, parts: seq<string>)

  /** A chunk written to the INFO (stdout) or ERROR (stderr) logger stream. */
  datatype StreamWrite = StreamWrite(level: LogLevel, bytes: seq<byte>)

  datatype StatusCommand = ShowLogs

  datatype StatusBar = Hidden | Shown(text: string, command: StatusCommand)

  /** The gRPC client: never created, created, or closed. */
  datatype Channel = NoClient | Open | Closed

  datatype ConnectivityState = Idle | Connecting | Ready | TransientFailure | Shutdown

  datatype LifecycleEvent = ClientCreated | ClientClosed | ConnectFired | ConnectFailFired

  /** The promise of one `handleServerStart` call: whether its `onDidConnect`
      and `onDidConnectFail` handlers are still subscribed, and whether it
      has resolved. */
  datatype StartGate = StartGate(onConnect: bool, onConnectFail: bool, resolved: bool)

  /** The task a run or a cancellation is about: its identity and its script. */
  datatype RunTarget = RunTarget(id: string, script: string)

  datatype CancelRunTaskReply = CancelRunTaskReply(message: string, taskRunning: bool)

  datatype DaemonInfo = DaemonInfo(pid: string, status: string, info: string)

  datatype GetDaemonsStatusReply = GetDaemonsStatusReply(daemons: seq<DaemonInfo>)

  /** `err.details || err.message`. */
  function ErrorText(e: ServiceError): string {
    if e.details != "" then e.details else e.message
  }

  /** `list.join(sep)`, where an empty list gives the empty string. */
  function JoinList(parts: seq<string>, sep: char): string {
    if parts == [] then "" else Join(parts, sep)
  }

  // ---------------------------------------------------------------------
  // What a sequence of replies amounts to.
  // ---------------------------------------------------------------------

  /** The contributions `f` makes for each reply, in arrival order. */
  function Collect<T>(replies: seq<Reply>, f: Reply -> seq<T>): seq<T> {
    if replies == [] then [] else Collect(replies[..|replies| - 1], f) + f(replies[|replies| - 1])
  }

  lemma {:induction false} CollectAppend<T>(a: seq<Reply>, b: seq<Reply>, f: Reply -> seq<T>)
    ensures Collect(a + b, f) == Collect(a, f) + Collect(b, f)
    decreases |b|
  {
    if b == [] {
      assert a + b == a;
    } else {
      var b' := b[..|b| - 1];
      assert (a + b)[..|a + b| - 1] == a + b';
      CollectAppend(a, b', f);
    }
  }

  lemma CollectStep<T>(replies: seq<Reply>, i: nat, f: Reply -> seq<T>)
    requires i < |replies|
    ensures Collect(replies[..i + 1], f) == Collect(replies[..i], f) + f(replies[i])
  {
    assert replies[..i + 1][..i] == replies[..i];
  }

  /** Something `Collect` gathers comes from some reply, and every reply's
      contribution is gathered. */
  lemma {:induction false} CollectMember<T>(replies: seq<Reply>, f: Reply -> seq<T>, x: T)
    ensures x in Collect(replies, f) <==> exists i :: 0 <= i < |replies| && x in f(replies[i])
  {
    if replies != [] {
      var n := |replies| - 1;
      var pre := replies[..n];
      CollectMember(pre, f, x);
      assert Collect(replies, f) == Collect(pre, f) + f(replies[n]);
      if x in Collect(replies, f) {
        if x in f(replies[n]) {
          assert 0 <= n < |replies| && x in f(replies[n]);
        } else {
          var i :| 0 <= i < n && x in f(pre[i]);
          assert pre[i] == replies[i];
          assert 0 <= i < |replies| && x in f(replies[i]);
        }
      }
      if exists i :: 0 <= i < |replies| && x in f(replies[i]) {
        var i :| 0 <= i < |replies| && x in f(replies[i]);
        if i < n {
          assert pre[i] == replies[i];
          assert 0 <= i < n && x in f(pre[i]);
        }
      }
    }
  }

  /** A progress reply is reported with its message trimmed. */
  function ProgressOf(reply: Reply): seq<string> {
    if reply.Progress? then [Trim(reply.message)] else []
  }

  /** An output reply of a task run is passed on as it is. */
  function OutputOf(reply: Reply): seq<Output> {
    if reply.OutputReply? then [reply.output] else []
  }

  /** An output reply of GetBuild goes to the INFO (stdout) or ERROR (stderr) logger stream. */
  function BuildWriteOf(reply: Reply): seq<StreamWrite> {
    if reply.OutputReply? then
      [StreamWrite(if reply.output.outputType == Stdout then LogInfo else LogError, reply.output.outputBytes)]
    else []
  }

  function BuildOf(reply: Reply): seq<GradleBuild> {
    if reply.GetBuildResult? then [reply.build] else []
  }

  function EnvironmentOf(reply: Reply): seq<Environment> {
    if reply.EnvironmentReply? then [reply.environment] else []
  }

  /** `logBuildEnvironment`. */
  function EnvironmentLog(e: Environment): seq<LogEntry> {
    [ LogEntry(LogInfo, ["Java Home:", e.javaHome]),
      LogEntry(LogInfo, ["JVM Args:", JoinList(e.jvmArgs, ',')]),
      LogEntry(LogInfo, ["Gradle User Home:", e.gradleUserHome]),
      LogEntry(LogInfo, ["Gradle Version:", e.gradleVersion]) ]
  }

  /** The log lines a GetBuild reply produces. */
  function BuildLogOf(reply: Reply): seq<LogEntry> {
    match reply
    case Cancelled(m) => [LogEntry(LogInfo, ["Get build cancelled:", m])]
    case EnvironmentReply(e) => EnvironmentLog(e)
    case _ => []
  }

  /** The log line of `handleRunTaskCancelled`. */
  function TaskCancelledLog(script: string, message: string): LogEntry {
    LogEntry(LogInfo, ["Task cancelled: " + script + ": " + message])
  }

  /** The log lines a RunTask reply produces: one for a CANCELLED reply. */
  function RunLogOf(script: string, reply: Reply): seq<LogEntry> {
    if reply.Cancelled? then [TaskCancelledLog(script, reply.message)] else []
  }

  /** The log lines the replies of a RunTask stream produce. */
  function RunLog(script: string, replies: seq<Reply>): seq<LogEntry> {
    if replies == [] then []
    else RunLog(script, replies[..|replies| - 1]) + RunLogOf(script, replies[|replies| - 1])
  }

  /** The progress messages a stream reports, in arrival order. */
  function ProgressReports(replies: seq<Reply>): seq<string> {
    Collect(replies, ProgressOf)
  }

  /** The positions of the replies of a kind, in arrival order. */
  function Positions(replies: seq<Reply>, kind: Reply -> bool): (ps: seq<nat>)
    ensures forall k :: 0 <= k < |ps| ==> ps[k] < |replies| && kind(replies[ps[k]])
    ensures forall k, l :: 0 <= k < l < |ps| ==> ps[k] < ps[l]
    ensures forall i :: 0 <= i < |replies| && kind(replies[i]) ==> i in ps
  {
    if replies == [] then []
    else
      var n := |replies| - 1;
      Positions(replies[..n], kind) + (if kind(replies[n]) then [n] else [])
  }

  predicate IsProgress(reply: Reply) {
    reply.Progress?
  }

  predicate IsOutput(reply: Reply) {
    reply.OutputReply?
  }

  /** The k-th progress report is the message of the k-th PROGRESS reply
      with surrounding whitespace removed, so there is one report per
      PROGRESS reply, in arrival order, and each is trimmed. */
  lemma {:induction false} ProgressReportsTrimmed(replies: seq<Reply>)
    ensures var r := ProgressReports(replies);
            var ps := Positions(replies, IsProgress);
            && |r| == |ps|
            && (forall k :: 0 <= k < |r| ==> r[k] == Trim(replies[ps[k]].message))
            && (forall k :: 0 <= k < |r| ==> IsTrimmed(r[k]))
  {
    if replies != [] {
      var n := |replies| - 1;
      var pre := replies[..n];
      ProgressReportsTrimmed(pre);
      var r0 := ProgressReports(pre);
      var ps0 := Positions(pre, IsProgress);
      var r := ProgressReports(replies);
      var ps := Positions(replies, IsProgress);
      assert r == r0 + ProgressOf(replies[n]);
      assert ps == ps0 + (if IsProgress(replies[n]) then [n] else []);
      assert |r| == |ps|;
      forall k | 0 <= k < |r| ensures r[k] == Trim(replies[ps[k]].message) {
        if k < |r0| {
          assert r[k] == r0[k] && ps[k] == ps0[k];
          assert pre[ps0[k]] == replies[ps0[k]];
        } else {
          assert r[k] == Trim(replies[n].message) && ps[k] == n;
        }
      }
      forall k | 0 <= k < |r| ensures IsTrimmed(r[k]) {
        TrimIsTrimmed(replies[ps[k]].message);
      }
    }
  }

  /** The outputs a task run passes to `onOutput`, in arrival order. */
  function Outputs(replies: seq<Reply>): seq<Output> {
    Collect(replies, OutputOf)
  }

  /** The k-th output passed on is the payload of the k-th OUTPUT reply, so
      each OUTPUT reply is passed on once, in arrival order, and nothing else is. */
  lemma {:induction false} OutputsAreOutputReplies(replies: seq<Reply>)
    ensures var r := Outputs(replies);
            var ps := Positions(replies, IsOutput);
            && |r| == |ps|
            && (forall k :: 0 <= k < |r| ==> r[k] == replies[ps[k]].output)
  {
    if replies != [] {
      var n := |replies| - 1;
      var pre := replies[..n];
      OutputsAreOutputReplies(pre);
      var r0 := Outputs(pre);
      var ps0 := Positions(pre, IsOutput);
      var r := Outputs(replies);
      var ps := Positions(replies, IsOutput);
      assert r == r0 + OutputOf(replies[n]);
      assert ps == ps0 + (if IsOutput(replies[n]) then [n] else []);
      assert |r| == |ps|;
      forall k | 0 <= k < |r| ensures r[k] == replies[ps[k]].output {
        if k < |r0| {
          assert r[k] == r0[k] && ps[k] == ps0[k];
          assert pre[ps0[k]] == replies[ps0[k]];
        } else {
          assert r[k] == replies[n].output && ps[k] == n;
        }
      }
    }
  }

  /** An output is passed on exactly when an OUTPUT reply carried it. */
  lemma OutputsAreCarried(replies: seq<Reply>)
    ensures forall o :: o in Outputs(replies) <==> OutputReply(o) in replies
  {
    var r := Outputs(replies);
    forall o ensures o in r <==> OutputReply(o) in replies {
      CollectMember(replies, OutputOf, o);
      if OutputReply(o) in replies {
        var i :| 0 <= i < |replies| && replies[i] == OutputReply(o);
        assert o in OutputOf(replies[i]);
      }
    }
  }

  /** The payload of the last GET_BUILD_RESULT reply, if there is one. */
  function LastBuild(replies: seq<Reply>): Option<GradleBuild> {
    if replies == [] then None
    else if replies[|replies| - 1].GetBuildResult? then Some(replies[|replies| - 1].build)
    else LastBuild(replies[..|replies| - 1])
  }

  /** GetBuild's result is the payload of a GET_BUILD_RESULT reply after which
      no other arrives, and there is none only when no such reply arrived. */
  lemma {:induction false} LastBuildIsLastResult(replies: seq<Reply>)
    ensures LastBuild(replies).None? <==> forall i :: 0 <= i < |replies| ==> !replies[i].GetBuildResult?
    ensures LastBuild(replies).Some? ==>
              exists i :: 0 <= i < |replies| && replies[i] == GetBuildResult(LastBuild(replies).value)
                          && forall j :: i < j < |replies| ==> !replies[j].GetBuildResult?
  {
    if replies != [] {
      var n := |replies| - 1;
      if !replies[n].GetBuildResult? {
        LastBuildIsLastResult(replies[..n]);
        assert forall i :: 0 <= i < n ==> replies[..n][i] == replies[i];
      }
    }
  }

  /** The environment of the root project after a stream: that of the last
      ENVIRONMENT reply, or the one it had before when there is none. */
  function LastEnvironment(replies: seq<Reply>, before: Option<Environment>): Option<Environment> {
    if replies == [] then before
    else if replies[|replies| - 1].EnvironmentReply? then Some(replies[|replies| - 1].environment)
    else LastEnvironment(replies[..|replies| - 1], before)
  }

  /** Without an ENVIRONMENT reply the environment is kept. */
  lemma {:induction false} NoEnvironmentKeeps(replies: seq<Reply>, before: Option<Environment>)
    requires forall i :: 0 <= i < |replies| ==> !replies[i].EnvironmentReply?
    ensures LastEnvironment(replies, before) == before
  {
    if replies != [] {
      var n := |replies| - 1;
      assert forall i :: 0 <= i < n ==> replies[..n][i] == replies[i];
      NoEnvironmentKeeps(replies[..n], before);
    }
  }

  /** With an ENVIRONMENT reply, the environment is that of an ENVIRONMENT
      reply after which no other arrives. */
  lemma {:induction false} LastEnvironmentWins(replies: seq<Reply>, before: Option<Environment>, k: nat)
    requires k < |replies| && replies[k].EnvironmentReply?
    ensures LastEnvironment(replies, before).Some?
    ensures exists i :: 0 <= i < |replies| && replies[i] == EnvironmentReply(LastEnvironment(replies, before).value)
                        && forall j :: i < j < |replies| ==> !replies[j].EnvironmentReply?
  {
    var n := |replies| - 1;
    var e := LastEnvironment(replies, before);
    if replies[n].EnvironmentReply? {
      assert e == Some(replies[n].environment);
      assert 0 <= n < |replies| && replies[n] == EnvironmentReply(e.value);
    } else {
      var pre := replies[..n];
      assert k < n && pre[k] == replies[k];
      LastEnvironmentWins(pre, before, k);
      assert e == LastEnvironment(pre, before);
      var i :| 0 <= i < n && pre[i] == EnvironmentReply(e.value)
               && forall j :: i < j < n ==> !pre[j].EnvironmentReply?;
      assert replies[i] == pre[i];
      assert forall j :: i < j < n ==> replies[j] == pre[j];
      assert 0 <= i < |replies| && replies[i] == EnvironmentReply(e.value)
             && forall j :: i < j < |replies| ==> !replies[j].EnvironmentReply?;
    }
  }

  /** Only ENVIRONMENT replies touch the environment: replies of any other
      kind arriving afterwards leave the outcome as it is. */
  lemma {:induction false} OtherRepliesKeepEnvironment(replies: seq<Reply>, others: seq<Reply>, before: Option<Environment>)
    requires forall i :: 0 <= i < |others| ==> !others[i].EnvironmentReply?
    ensures LastEnvironment(replies + others, before) == LastEnvironment(replies, before)
    decreases |others|
  {
    if others == [] {
      assert replies + others == replies;
    } else {
      var n := |others| - 1;
      var all := replies + others;
      assert all[..|all| - 1] == replies + others[..n];
      assert all[|all| - 1] == others[n];
      OtherRepliesKeepEnvironment(replies, others[..n], before);
    }
  }

  /** Whether a CANCELLED reply arrived. */
  predicate HasCancelled(replies: seq<Reply>) {
    exists i :: 0 <= i < |replies| && replies[i].Cancelled?
  }

  lemma {:induction false} HasCancelledPrefix(replies: seq<Reply>, i: nat)
    requires i < |replies|
    ensures HasCancelled(replies[..i + 1]) <==> HasCancelled(replies[..i]) || replies[i].Cancelled?
  {
    var p := replies[..i + 1];
    assert forall j :: 0 <= j < i ==> p[j] == replies[..i][j];
    assert p[i] == replies[i];
  }

  /** The error path of GetBuild. */
  function BuildErrorLog(projectDir: string, e: ServiceError): LogEntry {
    LogEntry(LogError, ["Error getting build for " + projectDir + ": " + ErrorText(e)])
  }

  const BuildErrorStatus := Shown("$(warning) Gradle: Build Error", ShowLogs)

  // ---------------------------------------------------------------------
  // The connect gate.
  // ---------------------------------------------------------------------

  /** A gate has resolved exactly when one of its handlers has run (and
      disposed of itself). */
  predicate GateOk(g: StartGate) {
    g.resolved <==> !(g.onConnect && g.onConnectFail)
  }

  /** `onDidConnect` fires: every subscribed connect handler disposes of
      itself and resolves its promise; the fail handlers stay subscribed. */
  function FireConnect(gates: seq<StartGate>): (r: seq<StartGate>)
    ensures |r| == |gates|
    ensures forall i :: 0 <= i < |gates| && GateOk(gates[i]) ==>
              GateOk(r[i]) && r[i].resolved && !r[i].onConnect && r[i].onConnectFail == gates[i].onConnectFail
  {
    seq(|gates|, i requires 0 <= i < |gates| =>
      if gates[i].onConnect then gates[i].(onConnect := false, resolved := true) else gates[i])
  }

  /** `onDidConnectFail` fires: the same for the fail handlers. */
  function FireConnectFail(gates: seq<StartGate>): (r: seq<StartGate>)
    ensures |r| == |gates|
    ensures forall i :: 0 <= i < |gates| && GateOk(gates[i]) ==>
              GateOk(r[i]) && r[i].resolved && !r[i].onConnectFail && r[i].onConnect == gates[i].onConnect
  {
    seq(|gates|, i requires 0 <= i < |gates| =>
      if gates[i].onConnectFail then gates[i].(onConnectFail := false, resolved := true) else gates[i])
  }

  /** The name `ConnectivityState[state]` logs. */
  function StateName(s: ConnectivityState): string {
    match s
    case Idle => "IDLE"
    case Connecting => "CONNECTING"
    case Ready => "READY"
    case TransientFailure => "TRANSIENT_FAILURE"
    case Shutdown => "SHUTDOWN"
  }

  /** The project whose build GetBuild loads; `setEnvironment` updates it. */
  class RootProject {
    const projectDir: string
    var environment: Option<Environment>

    constructor (projectDir: string)
      ensures this.projectDir == projectDir && environment == None
    {
      this.projectDir := projectDir;
      environment := None;
    }

    method SetEnvironment(e: Environment)
      modifies this`environment
      ensures environment == Some(e)
    {
      environment := Some(e);
    }
  }

  class GradleClient {
    var channel: Channel
    var statusBar: StatusBar
    var log: seq<LogEntry>
    var progressReports: seq<string>
    var streamWrites: seq<StreamWrite>
    var forwardedOutputs: seq<Output>
    /** The tasks whose cancellation has been asked for and not yet confirmed. */
    var cancellingTasks: set<string>
    /** Executions of the "refresh daemon status" command. */
    var refreshRequests: nat
    /** The tasks passed to `restartQueuedTask`, in order. */
    var restartedTasks: seq<string>
    var lifecycle: seq<LifecycleEvent>
    var gates: seq<StartGate>
    var restartPrompts: nat
    var serverRestartPrompts: nat

    ghost predicate Valid()
      reads this
    {
      forall i :: 0 <= i < |gates| ==> GateOk(gates[i])
    }

    constructor (statusBar: StatusBar, cancellingTasks: set<string>)
      ensures Valid()
      ensures channel == NoClient && this.statusBar == statusBar && this.cancellingTasks == cancellingTasks
      ensures log == [] && progressReports == [] && streamWrites == [] && forwardedOutputs == []
      ensures refreshRequests == 0 && restartedTasks == [] && lifecycle == [] && gates == []
      ensures restartPrompts == 0 && serverRestartPrompts == 0
    {
      channel := NoClient;
      this.statusBar := statusBar;
      log := [];
      progressReports := [];
      streamWrites := [];
      forwardedOutputs := [];
      this.cancellingTasks := cancellingTasks;
      refreshRequests := 0;
      restartedTasks := [];
      lifecycle := [];
      gates := [];
      restartPrompts := 0;
      serverRestartPrompts := 0;
    }

    /** The `data` handler of the GetBuild stream, for one reply; `build` is
        the result so far. */
    method HandleBuildReply(root: RootProject, reply: Reply, build: Option<GradleBuild>)
      returns (next: Option<GradleBuild>)
      modifies this`log, this`progressReports, this`streamWrites, this`refreshRequests, root`environment
      ensures next == if reply.GetBuildResult? then Some(reply.build) else build
      ensures root.environment == if reply.EnvironmentReply? then Some(reply.environment) else old(root.environment)
      ensures progressReports == old(progressReports) + ProgressOf(reply)
      ensures streamWrites == old(streamWrites) + BuildWriteOf(reply)
      ensures log == old(log) + BuildLogOf(reply)
      ensures refreshRequests == old(refreshRequests) + |EnvironmentOf(reply)|
    {
      next := build;
      match reply
      case Progress(m) =>
        progressReports := progressReports + [Trim(m)];
      case OutputReply(o) =>
        var level := if o.outputType == Stdout then LogInfo else LogError;
        streamWrites := streamWrites + [StreamWrite(level, o.outputBytes)];
      case Cancelled(m) =>
        log := log + [LogEntry(LogInfo, ["Get build cancelled:", m])];
      case GetBuildResult(b) =>
        next := Some(b);
      case EnvironmentReply(e) =>
        root.SetEnvironment(e);
        log := log + EnvironmentLog(e);
        refreshRequests := refreshRequests + 1;
      case KindNotSet =>
    }

    /** The replies of a GetBuild stream, handled in arrival order; the
        result is the build the stream delivers if it ends. */
    method ReadBuildStream(root: RootProject, replies: seq<Reply>) returns (result: Option<GradleBuild>)
      modifies this`log, this`progressReports, this`streamWrites, this`refreshRequests, root`environment
      ensures result == LastBuild(replies)
      ensures root.environment == LastEnvironment(replies, old(root.environment))
      ensures progressReports == old(progressReports) + ProgressReports(replies)
      ensures streamWrites == old(streamWrites) + Collect(replies, BuildWriteOf)
      ensures log == old(log) + Collect(replies, BuildLogOf)
      ensures refreshRequests == old(refreshRequests) + |Collect(replies, EnvironmentOf)|
    {
      result := None;
      for i := 0 to |replies|
        invariant result == LastBuild(replies[..i])
        invariant root.environment == LastEnvironment(replies[..i], old(root.environment))
        invariant progressReports == old(progressReports) + Collect(replies[..i], ProgressOf)
        invariant streamWrites == old(streamWrites) + Collect(replies[..i], BuildWriteOf)
        invariant log == old(log) + Collect(replies[..i], BuildLogOf)
        invariant refreshRequests == old(refreshRequests) + |Collect(replies[..i], EnvironmentOf)|
      {
        assert replies[..i + 1][..i] == replies[..i];
        assert replies[..i + 1][i] == replies[i];
        CollectStep(replies, i, ProgressOf);
        CollectStep(replies, i, BuildWriteOf);
        CollectStep(replies, i, BuildLogOf);
        CollectStep(replies, i, EnvironmentOf);
        result := HandleBuildReply(root, replies[i], result);
      }
      assert replies[..|replies|] == replies;
    }

    /** `getBuild`: the result is the last GET_BUILD_RESULT payload when the
        stream ends, and nothing when it fails; a failure is logged and shown
        in the status bar, not thrown. Each ENVIRONMENT reply replaces the root
        project's environment and asks for a daemon-status refresh; one more
        refresh follows on every exit. */
    method GetBuild(root: RootProject, replies: seq<Reply>, end: StreamEnd) returns (build: Option<GradleBuild>)
      modifies this`statusBar, this`log, this`progressReports, this`streamWrites, this`refreshRequests, root`environment
      ensures build == if end.End? then LastBuild(replies) else None
      ensures root.environment == LastEnvironment(replies, old(root.environment))
      ensures progressReports == old(progressReports) + ProgressReports(replies)
      ensures streamWrites == old(streamWrites) + Collect(replies, BuildWriteOf)
      ensures log == old(log) + Collect(replies, BuildLogOf)
                     + (if end.Error? then [BuildErrorLog(root.projectDir, end.error)] else [])
      ensures refreshRequests == old(refreshRequests) + |Collect(replies, EnvironmentOf)| + 1
      ensures statusBar == if end.Error? then BuildErrorStatus else Hidden
    {
      statusBar := Hidden;
      var result := ReadBuildStream(root, replies);
      if end.Error? {
        log := log + [BuildErrorLog(root.projectDir, end.error)];
        statusBar := BuildErrorStatus;
        build := None;
      } else {
        build := result;
      }
      refreshRequests := refreshRequests + 1;
    }

    /** `handleRunTaskCancelled`. */
    method HandleRunTaskCancelled(task: RunTarget, message: string)
      modifies this`log, this`cancellingTasks
      ensures log == old(log) + [TaskCancelledLog(task.script, message)]
      ensures cancellingTasks == old(cancellingTasks) - {task.id}
    {
      log := log + [TaskCancelledLog(task.script, message)];
      cancellingTasks := cancellingTasks - {task.id};
    }

    /** The `data` handler of the RunTask stream, for one reply. */
    method HandleRunTaskReply(task: RunTarget, reply: Reply, hasOnOutput: bool)
      modifies this`log, this`progressReports, this`forwardedOutputs, this`cancellingTasks
      ensures progressReports == old(progressReports) + ProgressOf(reply)
      ensures forwardedOutputs == old(forwardedOutputs) + (if hasOnOutput then OutputOf(reply) else [])
      ensures cancellingTasks == if reply.Cancelled? then old(cancellingTasks) - {task.id} else old(cancellingTasks)
      ensures log == old(log) + RunLogOf(task.script, reply)
    {
      match reply
      case Progress(m) =>
        progressReports := progressReports + [Trim(m)];
      case OutputReply(o) =>
        if hasOnOutput {
          forwardedOutputs := forwardedOutputs + [o];
        }
      case Cancelled(m) =>
        HandleRunTaskCancelled(task, m);
      case _ =>
    }

    /** Handling the reply at `i` extends what the replies before it amount
        to by that reply; `cancelling0`, `progress0`, `outputs0` and `log0`
        are the values before the first reply. */
    method ReadRunTaskReply(
      task: RunTarget, replies: seq<Reply>, i: nat, hasOnOutput: bool, ghost cancelling0: set<string>,
      ghost progress0: seq<string>, ghost outputs0: seq<Output>, ghost log0: seq<LogEntry>)
      requires i < |replies|
      requires progressReports == progress0 + Collect(replies[..i], ProgressOf)
      requires forwardedOutputs == outputs0 + (if hasOnOutput then Collect(replies[..i], OutputOf) else [])
      requires cancellingTasks == if HasCancelled(replies[..i]) then cancelling0 - {task.id} else cancelling0
      requires log == log0 + RunLog(task.script, replies[..i])
      modifies this`log, this`progressReports, this`forwardedOutputs, this`cancellingTasks
      ensures progressReports == progress0 + Collect(replies[..i + 1], ProgressOf)
      ensures forwardedOutputs == outputs0 + (if hasOnOutput then Collect(replies[..i + 1], OutputOf) else [])
      ensures cancellingTasks == if HasCancelled(replies[..i + 1]) then cancelling0 - {task.id} else cancelling0
      ensures log == log0 + RunLog(task.script, replies[..i + 1])
    {
      CollectStep(replies, i, ProgressOf);
      CollectStep(replies, i, OutputOf);
      HasCancelledPrefix(replies, i);
      assert replies[..i + 1][..i] == replies[..i];
      HandleRunTaskReply(task, replies[i], hasOnOutput);
    }

    /** The replies of a RunTask stream, handled in arrival order. */
    method ReadRunTaskStream(task: RunTarget, replies: seq<Reply>, hasOnOutput: bool)
      modifies this`log, this`progressReports, this`forwardedOutputs, this`cancellingTasks
      ensures progressReports == old(progressReports) + ProgressReports(replies)
      ensures forwardedOutputs == old(forwardedOutputs) + (if hasOnOutput then Outputs(replies) else [])
      ensures cancellingTasks == if HasCancelled(replies) then old(cancellingTasks) - {task.id} else old(cancellingTasks)
      ensures log == old(log) + RunLog(task.script, replies)
    {
      for i := 0 to |replies|
        invariant progressReports == old(progressReports) + Collect(replies[..i], ProgressOf)
        invariant forwardedOutputs == old(forwardedOutputs) + (if hasOnOutput then Collect(replies[..i], OutputOf) else [])
        invariant cancellingTasks == if HasCancelled(replies[..i]) then old(cancellingTasks) - {task.id} else old(cancellingTasks)
        invariant log == old(log) + RunLog(task.script, replies[..i])
      {
        ReadRunTaskReply(task, replies, i, hasOnOutput, old(cancellingTasks),
                         old(progressReports), old(forwardedOutputs), old(log));
      }
      assert replies[..|replies|] == replies;
    }

    /** `runTask`: progress is reported trimmed; output replies go to
        `onOutput` (when there is one) in order; a CANCELLED reply takes the
        task out of the cancelling set. A failed stream is logged and its
        error thrown again. On every exit one daemon-status refresh and one
        restart of the queued task follow. */
    method RunTask(task: RunTarget, replies: seq<Reply>, end: StreamEnd, hasOnOutput: bool)
      returns (r: Outcome<ServiceError>)
      modifies this`statusBar, this`log, this`progressReports, this`forwardedOutputs,
               this`cancellingTasks, this`refreshRequests, this`restartedTasks
      ensures r == if end.Error? then Fail(end.error) else Pass
      ensures statusBar == Hidden
      ensures progressReports == old(progressReports) + ProgressReports(replies)
      ensures forwardedOutputs == old(forwardedOutputs) + (if hasOnOutput then Outputs(replies) else [])
      ensures cancellingTasks == if HasCancelled(replies) then old(cancellingTasks) - {task.id} else old(cancellingTasks)
      ensures log == old(log) + RunLog(task.script, replies)
                     + [if end.End? then LogEntry(LogInfo, ["Completed task:", task.script])
                        else LogEntry(LogError, ["Error running task:", ErrorText(end.error)])]
      ensures refreshRequests == old(refreshRequests) + 1
      ensures restartedTasks == old(restartedTasks) + [task.id]
    {
      statusBar := Hidden;
      ReadRunTaskStream(task, replies, hasOnOutput);
      if end.Error? {
        log := log + [LogEntry(LogError, ["Error running task:", ErrorText(end.error)])];
        r := Fail(end.error);
      } else {
        log := log + [LogEntry(LogInfo, ["Completed task:", task.script])];
        r := Pass;
      }
      refreshRequests := refreshRequests + 1;
      restartedTasks := restartedTasks + [task.id];
    }

    /** `cancelRunTask`: a reply saying the task no longer runs takes it out of
        the cancelling set; an error is logged; a refresh follows either way. */
    method CancelRunTask(task: RunTarget, reply: Result<CancelRunTaskReply, ServiceError>)
      modifies this`statusBar, this`log, this`cancellingTasks, this`refreshRequests
      ensures statusBar == Hidden
      ensures reply.Success? ==> log == old(log) + [LogEntry(LogDebug, [reply.value.message])]
      ensures reply.Failure? ==>
                log == old(log) + [LogEntry(LogError, ["Error cancelling running task:", ErrorText(reply.error)])]
      ensures cancellingTasks ==
                if reply.Success? && !reply.value.taskRunning then old(cancellingTasks) - {task.id}
                else old(cancellingTasks)
      ensures refreshRequests == old(refreshRequests) + 1
    {
      statusBar := Hidden;
      if reply.Success? {
        log := log + [LogEntry(LogDebug, [reply.value.message])];
        if !reply.value.taskRunning {
          cancellingTasks := cancellingTasks - {task.id};
        }
      } else {
        log := log + [LogEntry(LogError, ["Error cancelling running task:", ErrorText(reply.error)])];
      }
      refreshRequests := refreshRequests + 1;
    }

    /** `getDaemonsStatus`: the reply, or nothing on error. The error is logged
        at debug level when the caller's token was cancelled, at error level
        otherwise. */
    method GetDaemonsStatus(projectFolder: string, reply: Result<GetDaemonsStatusReply, ServiceError>,
                            cancellationRequested: bool)
      returns (r: Option<GetDaemonsStatusReply>)
      modifies this`log
      ensures r.Some? <==> reply.Success?
      ensures reply.Success? ==> r.value == reply.value && log == old(log) + [LogEntry(LogDebug, ["Get daemon status"])]
      ensures reply.Failure? && cancellationRequested ==>
                log == old(log) + [LogEntry(LogDebug, ["Get daemon status"]),
                                   LogEntry(LogDebug, ["Get daemon status:", ErrorText(reply.error)])]
      ensures reply.Failure? && !cancellationRequested ==>
                log == old(log) + [LogEntry(LogDebug, ["Get daemon status"]),
                                   LogEntry(LogError, ["Unable to get daemon status:", ErrorText(reply.error)])]
    {
      log := log + [LogEntry(LogDebug, ["Get daemon status"])];
      if reply.Success? {
        r := Some(reply.value);
      } else {
        if cancellationRequested {
          log := log + [LogEntry(LogDebug, ["Get daemon status:", ErrorText(reply.error)])];
        } else {
          log := log + [LogEntry(LogError, ["Unable to get daemon status:", ErrorText(reply.error)])];
        }
        r := None;
      }
    }

    /** `close`: hides the status bar and closes the gRPC client, if any. */
    method Close()
      modifies this`statusBar, this`channel, this`lifecycle
      ensures statusBar == Hidden
      ensures channel == if old(channel) == NoClient then NoClient else Closed
      ensures lifecycle == old(lifecycle) + (if old(channel) == NoClient then [] else [ClientClosed])
    {
      statusBar := Hidden;
      if channel != NoClient {
        channel := Closed;
        lifecycle := lifecycle + [ClientClosed];
      }
    }

    /** `handleServerStart` with `connectToServer`: subscribes one handler to
        each connect event and creates the gRPC client. When the client
        cannot be constructed no connect event follows, so that gate stays
        pending. */
    method HandleServerStart(constructError: Option<string>) returns (gate: nat)
      requires Valid()
      modifies this`gates, this`progressReports, this`channel, this`lifecycle, this`log, this`statusBar
      ensures Valid()
      ensures gate == |old(gates)| && gates == old(gates) + [StartGate(true, true, false)]
      ensures !gates[gate].resolved
      ensures progressReports == old(progressReports) + ["Connecting"]
      ensures constructError.None? ==>
                channel == Open && lifecycle == old(lifecycle) + [ClientCreated]
                && log == old(log) && statusBar == old(statusBar)
      ensures constructError.Some? ==>
                channel == old(channel) && lifecycle == old(lifecycle) && statusBar == Hidden
                && log == old(log) + [LogEntry(LogError, ["Unable to construct the gRPC client:", constructError.value])]
    {
      progressReports := progressReports + ["Connecting"];
      gate := |gates|;
      gates := gates + [StartGate(true, true, false)];
      if constructError.None? {
        channel := Open;
        lifecycle := lifecycle + [ClientCreated];
      } else {
        log := log + [LogEntry(LogError, ["Unable to construct the gRPC client:", constructError.value])];
        statusBar := Hidden;
      }
    }

    /** `handleConnectError`: logs, closes the client, then fires
        `onDidConnectFail`; then prompts for a reconnect (the client's prompt
        when the server is ready, the server's otherwise). Reading the
        connectivity state when the server is ready needs a gRPC client. */
    method HandleConnectError(message: string, serverReady: bool, state: ConnectivityState)
      requires Valid()
      requires serverReady ==> channel != NoClient
      modifies this`log, this`statusBar, this`channel, this`lifecycle, this`gates,
               this`restartPrompts, this`serverRestartPrompts
      ensures Valid()
      ensures forall i :: 0 <= i < |gates| ==> gates[i].resolved
      ensures gates == FireConnectFail(old(gates))
      ensures lifecycle == old(lifecycle) + (if old(channel) == NoClient then [] else [ClientClosed]) + [ConnectFailFired]
      ensures channel == if old(channel) == NoClient then NoClient else Closed
      ensures statusBar == Hidden
      ensures log == old(log) + [LogEntry(LogError, ["Error connecting to gradle server:", message])]
                     + (if serverReady then [LogEntry(LogError, ["The client has state:", StateName(state)])] else [])
      ensures restartPrompts == old(restartPrompts) + (if serverReady then 1 else 0)
      ensures serverRestartPrompts == old(serverRestartPrompts) + (if serverReady then 0 else 1)
    {
      log := log + [LogEntry(LogError, ["Error connecting to gradle server:", message])];
      Close();
      gates := FireConnectFail(gates);
      lifecycle := lifecycle + [ConnectFailFired];
      if serverReady {
        log := log + [LogEntry(LogError, ["The client has state:", StateName(state)])];
        restartPrompts := restartPrompts + 1;
      } else {
        serverRestartPrompts := serverRestartPrompts + 1;
      }
    }

    /** `handleClientReady`: fires `onDidConnect` exactly when there is no
        error, and otherwise handles the error. Either way every pending
        `handleServerStart` promise resolves. It is the readiness callback
        of a gRPC client, so a client exists when it runs. */
    method HandleClientReady(err: Option<string>, serverReady: bool, state: ConnectivityState)
      requires Valid()
      requires channel != NoClient
      modifies this`log, this`statusBar, this`channel, this`lifecycle, this`gates,
               this`restartPrompts, this`serverRestartPrompts
      ensures Valid()
      ensures forall i :: 0 <= i < |gates| ==> gates[i].resolved
      ensures err.None? ==>
                gates == FireConnect(old(gates)) && lifecycle == old(lifecycle) + [ConnectFired]
                && log == old(log) + [LogEntry(LogInfo, ["Gradle client connected to server"])]
                && channel == old(channel) && statusBar == old(statusBar)
                && restartPrompts == old(restartPrompts) && serverRestartPrompts == old(serverRestartPrompts)
      ensures err.Some? ==>
                && gates == FireConnectFail(old(gates))
                && lifecycle == old(lifecycle) + [ClientClosed, ConnectFailFired]
                && channel == Closed
                && statusBar == Hidden
                && log == old(log) + [LogEntry(LogError, ["Error connecting to gradle server:", err.value])]
                          + (if serverReady then [LogEntry(LogError, ["The client has state:", StateName(state)])] else [])
                && restartPrompts == old(restartPrompts) + (if serverReady then 1 else 0)
                && serverRestartPrompts == old(serverRestartPrompts) + (if serverReady then 0 else 1)
      ensures ConnectFired in lifecycle[|old(lifecycle)|..] <==> err.None?
    {
      if err.Some? {
        HandleConnectError(err.value, serverReady, state);
        assert lifecycle[|old(lifecycle)|..] == [ClientClosed, ConnectFailFired];
      } else {
        log := log + [LogEntry(LogInfo, ["Gradle client connected to server"])];
        gates := FireConnect(gates);
        lifecycle := lifecycle + [ConnectFired];
        assert lifecycle[|old(lifecycle)|..] == [ConnectFired];
      }
    }
  }
}
