/**
 * The cross-process task lock (task_lock.py): a lock file holding the
 * owner's pid, start time, last heartbeat and timeout. The lock file is a
 * `LockStore` shared by every `TaskLock` that names the same path; the
 * current time and the set of running pids are inputs. Times are whole
 * seconds.
 */
module TaskLocks {
  import opened Wrappers

  /** The stored `timeout_seconds`: absent (the instance's own applies), unusable, or a number. */
  datatype TimeoutField = DefaultTimeout | BadTimeout | TimeoutOf(seconds: int)

  /**
   * The JSON record of the lock file. A timestamp that is missing or does
   * not parse as an ISO date is `None`.
   */
  datatype LockInfo = LockInfo(pid: Option<int>, startTime: Option<int>, lastHeartbeat: Option<int>, timeout: TimeoutField)

  /**
   * The lock file: absent; present but giving no record (unreadable, not
   * JSON, or a falsy JSON value such as `{}`, `[]`, `0` or `""`, all of which
   * `not lock_info` rejects); present with truthy JSON that is not an object
   * (`[1]`, `"x"`, `5`), on which `lock_info.get` raises; or present with a
   * record.
   */
  datatype LockFile = Absent | Unusable | NotADict | Present(info: LockInfo)

  /** The error raised by `lock_info.get` on a lock file that is not an object. */
  datatype LockFault = RecordNotADict

  /** `not pid`: a missing pid or pid 0. */
  predicate PidFalsy(pid: Option<int>) {
    pid.None? || pid == Some(0)
  }

  /**
   * `_is_lock_expired`: older than its timeout (the stored one, else the
   * instance's), or a heartbeat older than twice the instance's interval; a
   * record whose times cannot be read counts as expired.
   */
  predicate IsLockExpired(info: LockInfo, now: int, ownTimeout: int, heartbeatInterval: int) {
    if info.startTime.None? || info.timeout.BadTimeout? then true
    else
      var timeout := if info.timeout.TimeoutOf? then info.timeout.seconds else ownTimeout;
      if now - info.startTime.value > timeout then true
      else if info.lastHeartbeat.None? then true
      else now - info.lastHeartbeat.value > heartbeatInterval * 2
  }

  /** The effective timeout of a readable record. */
  function EffectiveTimeout(info: LockInfo, ownTimeout: int): int {
    if info.timeout.TimeoutOf? then info.timeout.seconds else ownTimeout
  }

  /** Expiry, stated as the two age tests. */
  lemma ExpiryRule(info: LockInfo, now: int, ownTimeout: int, heartbeatInterval: int)
    requires info.startTime.Some? && info.lastHeartbeat.Some? && !info.timeout.BadTimeout?
    ensures IsLockExpired(info, now, ownTimeout, heartbeatInterval)
            <==> now - info.startTime.value > EffectiveTimeout(info, ownTimeout)
                 || now - info.lastHeartbeat.value > 2 * heartbeatInterval
  {
  }

  /** Once expired, a record stays expired as time goes on. */
  lemma ExpiryIsMonotone(info: LockInfo, now: int, later: int, ownTimeout: int, heartbeatInterval: int)
    requires now <= later && IsLockExpired(info, now, ownTimeout, heartbeatInterval)
    ensures IsLockExpired(info, later, ownTimeout, heartbeatInterval)
  {
  }

  /** A record written at `now` is not expired at `now` when its timeout and the interval are not negative. */
  lemma FreshRecordIsLive(pid: int, now: int, timeout: int, ownTimeout: int, heartbeatInterval: int)
    requires timeout >= 0 && heartbeatInterval >= 0
    ensures !IsLockExpired(LockInfo(Some(pid), Some(now), Some(now), TimeoutOf(timeout)), now, ownTimeout, heartbeatInterval)
  {
  }

  /** A heartbeat at `now` leaves only the age test deciding expiry. */
  lemma HeartbeatRenews(info: LockInfo, now: int, ownTimeout: int, heartbeatInterval: int)
    requires heartbeatInterval >= 0 && info.startTime.Some? && !info.timeout.BadTimeout?
    ensures IsLockExpired(info.(lastHeartbeat := Some(now)), now, ownTimeout, heartbeatInterval)
            <==> now - info.startTime.value > EffectiveTimeout(info, ownTimeout)
  {
  }

  /** What `_cleanup_stale_lock` decides for the current file; `CleanupRaises` is the error of `lock_info.get`. */
  datatype Cleanup = NothingToClean | RemoveStale | HeldByLive | CleanupRaises

  function CleanupDecision(f: LockFile, now: int, running: set<int>, ownTimeout: int, heartbeatInterval: int): (d: Cleanup)
    ensures d == NothingToClean <==> f.Absent? || f.Unusable?
    ensures d == CleanupRaises <==> f.NotADict?
    ensures d == HeldByLive <==> f.Present? && !PidFalsy(f.info.pid) && f.info.pid.value in running
                                 && !IsLockExpired(f.info, now, ownTimeout, heartbeatInterval)
  {
    match f
    case Absent => NothingToClean
    case Unusable => NothingToClean
    case NotADict => CleanupRaises
    case Present(info) =>
      if PidFalsy(info.pid) then RemoveStale
      else if info.pid.value !in running then RemoveStale
      else if IsLockExpired(info, now, ownTimeout, heartbeatInterval) then RemoveStale
      else HeldByLive
  }

  /** What `get_lock_status` reports. */
  datatype LockStatus =
    | NoLock
    | ProcessStopped(pid: int)
    | LockExpired(pid: int, startTime: Option<int>)
    | Held(pid: int, startTime: Option<int>, lastHeartbeat: Option<int>)
  {
    /** The `locked` entry. */
    predicate Locked() {
      Held?
    }

    /** The `stale` entry, when present. */
    predicate Stale() {
      ProcessStopped? || LockExpired?
    }
  }

  /**
   * A record without a pid makes the process check raise (`pid_exists(None)`
   * and then `os.kill(None, 0)` both reject it with a `TypeError`), so the
   * status query raises too; a file that is not an object makes
   * `lock_info.get` raise.
   */
  datatype StatusError = PidMissing | StatusNotADict

  /** `get_lock_status` over a snapshot of the file. */
  function LockStatusOf(f: LockFile, now: int, running: set<int>, ownTimeout: int, heartbeatInterval: int): (r: Result<LockStatus, StatusError>)
    ensures r.Ok? && r.value == NoLock <==> f.Absent? || f.Unusable?
    ensures r.Err? <==> f.NotADict? || (f.Present? && f.info.pid.None?)
    ensures r.Ok? && r.value.Locked() ==> f.Present? && f.info.pid.value in running
                                          && !IsLockExpired(f.info, now, ownTimeout, heartbeatInterval)
  {
    match f
    case Absent => Ok(NoLock)
    case Unusable => Ok(NoLock)
    case NotADict => Err(StatusNotADict)
    case Present(info) =>
      match info.pid
      case None => Err(PidMissing)
      case Some(p) =>
        if p !in running then Ok(ProcessStopped(p))
        else if IsLockExpired(info, now, ownTimeout, heartbeatInterval) then Ok(LockExpired(p, info.startTime))
        else Ok(Held(p, info.startTime, info.lastHeartbeat))
  }

  /**
   * The status query and the cleanup agree on every file whose pid, if it
   * holds a record, is set and non-zero: both raise on the same files, the
   * file is reported locked exactly when cleanup keeps it, and stale exactly
   * when cleanup removes it.
   */
  lemma StatusAgreesWithCleanup(f: LockFile, now: int, running: set<int>, ownTimeout: int, heartbeatInterval: int)
    requires f.Present? ==> !PidFalsy(f.info.pid)
    ensures LockStatusOf(f, now, running, ownTimeout, heartbeatInterval).Err?
            <==> CleanupDecision(f, now, running, ownTimeout, heartbeatInterval) == CleanupRaises
    ensures LockStatusOf(f, now, running, ownTimeout, heartbeatInterval).Ok? ==>
              (LockStatusOf(f, now, running, ownTimeout, heartbeatInterval).value.Locked()
               <==> CleanupDecision(f, now, running, ownTimeout, heartbeatInterval) == HeldByLive)
    ensures LockStatusOf(f, now, running, ownTimeout, heartbeatInterval).Ok? ==>
              (LockStatusOf(f, now, running, ownTimeout, heartbeatInterval).value.Stale()
               <==> CleanupDecision(f, now, running, ownTimeout, heartbeatInterval) == RemoveStale)
  {
  }

  /** The lock file at one path, shared by every process that uses it. */
  class LockStore {
    var file: LockFile

    constructor(initial: LockFile)
      ensures file == initial
    {
      file := initial;
    }
  }

  const DefaultTimeoutMinutes := 120
  const DefaultHeartbeatInterval := 30

  /** Why `__enter__` raises: the lock is taken, or `acquire` itself raised. */
  datatype LockError = LockBusy | AcquireFailed(fault: LockFault)

  class TaskLock {
    const store: LockStore
    const pid: int
    const timeoutSeconds: int
    const heartbeatInterval: int
    /** `lock_fd is not None`. */
    var holdsFd: bool

    /** `TaskLock(lock_file, timeout_minutes, heartbeat_interval)` run by process `pid`. */
    constructor(store: LockStore, pid: int, timeoutMinutes: int, heartbeatInterval: int)
      ensures this.store == store && this.pid == pid && !holdsFd
      ensures timeoutSeconds == timeoutMinutes * 60 && this.heartbeatInterval == heartbeatInterval
    {
      this.store := store;
      this.pid := pid;
      timeoutSeconds := timeoutMinutes * 60;
      this.heartbeatInterval := heartbeatInterval;
      holdsFd := false;
    }

    /** The record `_write_lock_info` writes at `now`. */
    function OwnInfo(now: int): (info: LockInfo)
      ensures info.pid == Some(pid) && info.startTime == Some(now) && info.lastHeartbeat == Some(now)
      ensures info.timeout == TimeoutOf(timeoutSeconds)
    {
      LockInfo(Some(pid), Some(now), Some(now), TimeoutOf(timeoutSeconds))
    }

    /**
     * `_cleanup_stale_lock`: remove a dead, pid-less or expired record; true
     * when the way looks free; raises on a file that is not an object.
     */
    method CleanupStale(now: int, running: set<int>) returns (free: Result<bool, LockFault>)
      modifies store
      ensures var d := CleanupDecision(old(store.file), now, running, timeoutSeconds, heartbeatInterval);
              free == (if d == CleanupRaises then Err(RecordNotADict) else Ok(d != HeldByLive))
              && store.file == (if d == RemoveStale then Absent else old(store.file))
    {
      var d := CleanupDecision(store.file, now, running, timeoutSeconds, heartbeatInterval);
      if d == CleanupRaises {
        return Err(RecordNotADict);
      }
      if d == RemoveStale {
        store.file := Absent;
      }
      free := Ok(d != HeldByLive);
    }

    /**
     * One `os.open(O_CREAT | O_EXCL)` followed by `_write_lock_info`: it
     * succeeds only when no file is there. `race` is what another process
     * did to the file just before the call, if anything.
     */
    method CreateExclusive(now: int, race: Option<LockFile>) returns (created: bool)
      modifies this, store
      ensures var seen := if race.Some? then race.value else old(store.file);
              created == (seen == Absent)
              && store.file == (if created then Present(OwnInfo(now)) else seen)
              && holdsFd == (old(holdsFd) || created)
    {
      if race.Some? {
        store.file := race.value;
      }
      created := store.file == Absent;
      if created {
        holdsFd := true;
        store.file := Present(OwnInfo(now));
      }
    }

    /**
     * `acquire`: clean up, create the file exclusively, and after a
     * `FileExistsError` clean up and try exactly once more. `race1` and
     * `race2` stand for another process acting just before each creation.
     * `attempts` counts the exclusive creations tried. A first cleanup that
     * raises is caught (`except Exception`) and refuses; the second one runs
     * inside the `FileExistsError` handler, so its error leaves `acquire`.
     */
    method Acquire(now: int, running: set<int>, race1: Option<LockFile>, race2: Option<LockFile>)
      returns (ok: Result<bool, LockFault>, attempts: nat)
      modifies this, store
      ensures attempts <= 2 && (ok == Ok(true) ==> attempts >= 1)
      ensures ok == Ok(true) ==> holdsFd && store.file == Present(OwnInfo(now))
      ensures ok != Ok(true) ==> holdsFd == old(holdsFd)
      ensures CleanupDecision(old(store.file), now, running, timeoutSeconds, heartbeatInterval) == HeldByLive
              ==> ok == Ok(false) && attempts == 0 && store.file == old(store.file)
      ensures old(store.file) == NotADict ==> ok == Ok(false) && attempts == 0 && store.file == NotADict
      ensures ok.Err? ==> attempts == 1 && store.file == NotADict
      ensures race1 == Some(NotADict) && !old(store.file).NotADict?
              && CleanupDecision(old(store.file), now, running, timeoutSeconds, heartbeatInterval) != HeldByLive
              ==> ok.Err?
      ensures race1.None? && race2.None? && old(store.file) == Unusable ==> ok == Ok(false) && store.file == Unusable
      ensures race1.None? && CleanupDecision(old(store.file), now, running, timeoutSeconds, heartbeatInterval) == RemoveStale
              ==> ok == Ok(true)
      ensures race1.None? && old(store.file) == Absent ==> ok == Ok(true) && attempts == 1
    {
      attempts := 0;
      var free := CleanupStale(now, running);
      if free != Ok(true) {
        return Ok(false), attempts;
      }
      var created := CreateExclusive(now, race1);
      attempts := 1;
      if created {
        return Ok(true), attempts;
      }
      free := CleanupStale(now, running);
      if free.Err? {
        return Err(free.error), attempts;
      }
      if !free.value {
        return Ok(false), attempts;
      }
      created := CreateExclusive(now, race2);
      attempts := 2;
      ok := Ok(created);
    }

    /** `release`: forget the descriptor and delete the lock file, whoever wrote it. */
    method Release()
      modifies this, store
      ensures !holdsFd && store.file == Absent
    {
      holdsFd := false;
      store.file := Absent;
    }

    /**
     * `update_heartbeat`: only while holding a descriptor, and only when the
     * file is this process's record, the heartbeat becomes `now`; nothing
     * else changes. While holding a descriptor, a file that is not an object
     * makes `lock_info.get` raise.
     */
    method UpdateHeartbeat(now: int) returns (r: Result<(), LockFault>)
      modifies store
      ensures r.Err? <==> holdsFd && old(store.file).NotADict?
      ensures if holdsFd && old(store.file).Present? && old(store.file).info.pid == Some(pid)
              then store.file == Present(old(store.file).info.(lastHeartbeat := Some(now)))
              else store.file == old(store.file)
    {
      r := Ok(());
      if holdsFd {
        match store.file
        case NotADict =>
          r := Err(RecordNotADict);
        case Present(info) =>
          if info.pid == Some(pid) {
            store.file := Present(info.(lastHeartbeat := Some(now)));
          }
        case _ =>
      }
    }

    /** `get_lock_status`, as seen by this instance. */
    function GetLockStatus(now: int, running: set<int>): (r: Result<LockStatus, StatusError>)
      reads this, store
      ensures r.Ok? && r.value.Locked() && r.value.pid != 0
              ==> CleanupDecision(store.file, now, running, timeoutSeconds, heartbeatInterval) == HeldByLive
    {
      LockStatusOf(store.file, now, running, timeoutSeconds, heartbeatInterval)
    }

    /** `__enter__`: acquire, or raise (`RuntimeError` when refused, `acquire`'s own error when it raised). */
    method Enter(now: int, running: set<int>, race1: Option<LockFile>, race2: Option<LockFile>) returns (r: Result<(), LockError>)
      modifies this, store
      ensures r.Ok? ==> holdsFd && store.file == Present(OwnInfo(now))
      ensures r.Err? ==> holdsFd == old(holdsFd)
      ensures CleanupDecision(old(store.file), now, running, timeoutSeconds, heartbeatInterval) == HeldByLive
              ==> r == Err(LockBusy) && store.file == old(store.file)
    {
      var ok, attempts := Acquire(now, running, race1, race2);
      r := match ok
        case Ok(true) => Ok(())
        case Ok(false) => Err(LockBusy)
        case Err(e) => Err(AcquireFailed(e));
    }

    /** `__exit__`: always release. */
    method Exit()
      modifies this, store
      ensures !holdsFd && store.file == Absent
    {
      Release();
    }
  }

  /**
   * Two processes on one lock file: while the first holder runs and its
   * record has not aged, the second cannot acquire, and the file keeps the
   * first holder's record.
   */
  method MutualExclusion(store: LockStore, first: TaskLock, second: TaskLock, now: int, running: set<int>)
    returns (firstOk: bool, secondOk: bool)
    requires first.store == store && second.store == store && first != second
    requires store.file == Absent
    requires first.pid != 0 && first.pid in running
    requires first.timeoutSeconds >= 0 && second.heartbeatInterval >= 0
    modifies store, first, second
    ensures firstOk && !secondOk
    ensures store.file == Present(first.OwnInfo(now))
  {
    var r1, r2, attempts;
    r1, attempts := first.Acquire(now, running, None, None);
    FreshRecordIsLive(first.pid, now, first.timeoutSeconds, second.timeoutSeconds, second.heartbeatInterval);
    r2, attempts := second.Acquire(now, running, None, None);
    firstOk, secondOk := r1 == Ok(true), r2 == Ok(true);
  }
}
