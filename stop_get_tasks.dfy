/** `StopGetTasksAction.run` of the Java server: cancel the pending
    get-tasks request for one source directory and forget it. Cancelling a
    Gradle `CancellationTokenSource` is recorded as its key in `cancelled`. */
module StopGetTasks {
  import opened Results

  /** The source directory: its absolute path (the pool key) and whether it
      exists on disk. */
  datatype SourceDir = SourceDir(absolutePath: string, onDisk: bool)

  datatype ServerException = GradleTasksServerException(message: string)

  /** A value view of the pool: the token of each pending request, by key,
      and the keys whose token has been cancelled. */
  datatype PoolState = PoolState(tokens: map<string, nat>, cancelled: set<string>)

  const SourceDirMissing := GradleTasksServerException("Source directory does not exist")

  /** What `run` does to the pool. */
  function Stop(pool: PoolState, dir: SourceDir): (r: Result<PoolState, ServerException>)
    ensures r.Failure? <==> !dir.onDisk
    ensures r.Failure? ==> r.error == SourceDirMissing
    ensures r.Success? ==> dir.absolutePath !in r.value.tokens
    ensures r.Success? ==> forall k :: k != dir.absolutePath ==>
              (k in r.value.tokens <==> k in pool.tokens)
              && (k in pool.tokens ==> r.value.tokens[k] == pool.tokens[k])
    ensures r.Success? ==>
              r.value.cancelled == pool.cancelled + (if dir.absolutePath in pool.tokens then {dir.absolutePath} else {})
    ensures r.Success? && dir.absolutePath !in pool.tokens ==> r.value == pool
  {
    if !dir.onDisk then Failure(SourceDirMissing)
    else
      var key := dir.absolutePath;
      if key in pool.tokens then
        Success(PoolState(pool.tokens - {key}, pool.cancelled + {key}))
      else
        Success(pool)
  }

  /** Stopping the same directory twice: the second run changes nothing. */
  lemma StopIdempotent(pool: PoolState, dir: SourceDir)
    requires dir.onDisk
    ensures Stop(Stop(pool, dir).value, dir) == Stop(pool, dir)
  {
  }

  /** Stops of two different directories commute. */
  lemma StopCommutes(pool: PoolState, a: SourceDir, b: SourceDir)
    requires a.onDisk && b.onDisk
    ensures Stop(Stop(pool, a).value, b).Success? && Stop(Stop(pool, b).value, a).Success?
    ensures Stop(Stop(pool, a).value, b).value == Stop(Stop(pool, b).value, a).value
  {
    var ab := Stop(Stop(pool, a).value, b).value;
    var ba := Stop(Stop(pool, b).value, a).value;
    assert ab.tokens == ba.tokens;
  }

  /** The shared `getTasksPool` map of the server, with the cancellations made. */
  class GetTasksPool {
    var tokens: map<string, nat>
    var cancelled: set<string>

    constructor (tokens: map<string, nat>)
      ensures this.tokens == tokens && cancelled == {}
    {
      this.tokens := tokens;
      cancelled := {};
    }

    function State(): PoolState
      reads this
    {
      PoolState(tokens, cancelled)
    }

    /** `getTasksPool.get(key)`: the token, or null. */
    method Get(key: string) returns (token: Option<nat>)
      ensures token == if key in tokens then Some(tokens[key]) else None
    {
      token := if key in tokens then Some(tokens[key]) else None;
    }

    /** `getTasksPool.get(key).cancel()`. */
    method Cancel(key: string)
      modifies this`cancelled
      ensures cancelled == old(cancelled) + {key}
    {
      cancelled := cancelled + {key};
    }

    /** `getTasksPool.remove(key)`. */
    method Remove(key: string)
      modifies this`tokens
      ensures tokens == old(tokens) - {key}
    {
      tokens := tokens - {key};
    }
  }

  class StopGetTasksAction {
    const sourceDir: SourceDir
    const getTasksPool: GetTasksPool

    constructor (sourceDir: SourceDir, getTasksPool: GetTasksPool)
      ensures this.sourceDir == sourceDir && this.getTasksPool == getTasksPool
    {
      this.sourceDir := sourceDir;
      this.getTasksPool := getTasksPool;
    }

    /** `run`: throws when the directory does not exist; otherwise cancels and
        removes the token stored under the directory's absolute path, if any. */
    method Run() returns (r: Outcome<ServerException>)
      modifies getTasksPool
      ensures Stop(old(getTasksPool.State()), sourceDir).Failure? ==>
                r == Fail(SourceDirMissing) && getTasksPool.State() == old(getTasksPool.State())
      ensures Stop(old(getTasksPool.State()), sourceDir).Success? ==>
                r == Pass && getTasksPool.State() == Stop(old(getTasksPool.State()), sourceDir).value
    {
      if !sourceDir.onDisk {
        return Fail(SourceDirMissing);
      }
      var key := sourceDir.absolutePath;
      var token := getTasksPool.Get(key);
      if token.Some? {
        getTasksPool.Cancel(key);
        getTasksPool.Remove(key);
      }
      r := Pass;
    }
  }

  /** Running the action twice: the second run reports success and changes nothing. */
  method RunTwice(action: StopGetTasksAction) returns (first: Outcome<ServerException>, second: Outcome<ServerException>)
    requires action.sourceDir.onDisk
    modifies action.getTasksPool
    ensures first == Pass && second == Pass
    ensures action.getTasksPool.State() == Stop(old(action.getTasksPool.State()), action.sourceDir).value
  {
    first := action.Run();
    second := action.Run();
    StopIdempotent(old(action.getTasksPool.State()), action.sourceDir);
  }
}
