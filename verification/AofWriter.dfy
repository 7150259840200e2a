/**
 The buffered writer of the append-only file: feedAppendOnlyFile's buffer, aofWrite's retries
 and flushAppendOnlyFile's recovery from short writes.
 */
module AofWriter {
  import opened Resp
  import opened AofLoad
  import opened AofRecovery

  datatype Fsync = Always | EverySecond | Never

  /** What one write(2) call does: write up to n bytes, be interrupted, or fail. */
  datatype WriteCall = Wrote(n: nat) | Interrupted | Failed

  /** The surroundings of one flush: the clock, the background fsync and the disk. */
  datatype Env = Env(
    force: bool,
    now: nat,
    syncInProgress: bool,
    holdFsync: bool,
    calls: seq<WriteCall>,
    truncateWorks: bool)

  /** `file` is what the disk holds; `alive` is false once the process gave up. */
  datatype State = State(
    policy: Fsync,
    file: Bytes,
    buf: Bytes,
    currentSize: nat,
    fsyncOffset: nat,
    lastFsync: nat,
    postponedStart: nat,
    lastWriteOk: bool,
    alive: bool)

  // --------------------------------------------------------------------------
  // Writing
  // --------------------------------------------------------------------------

  /**
   How many of `len` bytes the calls get written before one fails.  After the listed calls
   the disk takes the rest.
   */
  function BytesWritten(len: nat, calls: seq<WriteCall>): (n: nat)
    ensures n <= len
    decreases |calls|
  {
    if len == 0 then 0
    else if calls == [] then len
    else
      match calls[0]
      case Failed => 0
      case Interrupted => BytesWritten(len, calls[1..])
      case Wrote(n) =>
        var w := if n < len then n else len;
        w + BytesWritten(len - w, calls[1..])
  }

  /** The bytes the calls would take before one fails. */
  function Room(calls: seq<WriteCall>): nat {
    if calls == [] || calls[0].Failed? then 0
    else (if calls[0].Wrote? then calls[0].n else 0) + Room(calls[1..])
  }

  predicate Healthy(calls: seq<WriteCall>) {
    forall c | c in calls :: !c.Failed?
  }

  /** However the calls are cut up, all is written unless one fails, and then what the calls before it took. */
  lemma {:induction false} WritesAll(len: nat, calls: seq<WriteCall>)
    ensures BytesWritten(len, calls) == if Healthy(calls) || Room(calls) >= len then len else Room(calls)
    decreases |calls|
  {
    if calls != [] && !calls[0].Failed? {
      var w := if calls[0].Interrupted? then 0 else if calls[0].n < len then calls[0].n else len;
      WritesAll(len - w, calls[1..]);
      assert calls == [calls[0]] + calls[1..];
    }
  }

  /** aofWrite's answer: the bytes written, or -1 if a failure came before any. */
  function WriteResult(len: nat, calls: seq<WriteCall>): int {
    var n := BytesWritten(len, calls);
    if n == 0 && len > 0 then -1 else n
  }

  // --------------------------------------------------------------------------
  // Flushing
  // --------------------------------------------------------------------------

  /** The flush is put off because a background fsync is running, for at most two seconds. */
  predicate Postpones(s: State, e: Env) {
    && s.policy.EverySecond? && !e.force && e.syncInProgress
    && (s.postponedStart == 0 || e.now < s.postponedStart + 2)
  }

  function TryFsync(s: State, e: Env): State {
    if e.holdFsync then s
    else if s.policy.Always? then s.(fsyncOffset := s.currentSize, lastFsync := e.now)
    else if s.policy.EverySecond? && e.now > s.lastFsync then
      s.(fsyncOffset := if e.syncInProgress then s.fsyncOffset else s.currentSize, lastFsync := e.now)
    else s
  }

  function Cut(f: Bytes, size: nat): Bytes {
    if size < |f| then f[..size] else f
  }

  /** The state after a write that got the whole buffer to the disk, part of it, or nothing. */
  function AfterWrite(s: State, e: Env): State {
    var n := BytesWritten(|s.buf|, e.calls);
    var w := s.(postponedStart := 0, file := s.file + s.buf[..n]);
    if n == |s.buf| then
      TryFsync(w.(buf := [], currentSize := s.currentSize + n, lastWriteOk := true), e)
    else
      var c := if n > 0 && e.truncateWorks then w.(file := Cut(w.file, s.currentSize)) else w;
      if s.policy.Always? then c.(alive := false)
      else if n > 0 && !e.truncateWorks then
        c.(buf := s.buf[n..], currentSize := s.currentSize + n, lastWriteOk := false)
      else c.(lastWriteOk := false)
  }

  function Flush(s: State, e: Env): State {
    if !s.alive then s
    else if s.buf == [] then
      if s.policy.EverySecond? && s.fsyncOffset != s.currentSize && e.now > s.lastFsync && !e.syncInProgress
      then TryFsync(s, e) else s
    else if Postpones(s, e) then
      if s.postponedStart == 0 then s.(postponedStart := e.now) else s
    else AfterWrite(s, e)
  }

  function Feed(s: State, data: Bytes): State {
    if s.alive then s.(buf := s.buf + data) else s
  }

  // --------------------------------------------------------------------------
  // The server's fields and methods
  // --------------------------------------------------------------------------

  class Writer {
    const policy: Fsync
    var file: Bytes
    var buf: Bytes
    var currentSize: nat
    var fsyncOffset: nat
    var lastFsync: nat
    var postponedStart: nat
    var lastWriteOk: bool
    var alive: bool

    function Snapshot(): State
      reads this
    {
      State(policy, file, buf, currentSize, fsyncOffset, lastFsync, postponedStart, lastWriteOk, alive)
    }

    /** aofWrite: retries short and interrupted writes. */
    method AofWrite(data: Bytes, calls: seq<WriteCall>) returns (written: int)
      modifies this`file
      ensures written == WriteResult(|data|, calls)
      ensures written == -1 <==> data != [] && !Healthy(calls) && Room(calls) == 0
      ensures written != -1 ==> file == old(file) + data[..written]
      ensures file == old(file) + data[..BytesWritten(|data|, calls)]
    {
      WritesAll(|data|, calls);
      var len: nat, total: nat, i := |data|, 0, 0;
      while len > 0
        invariant 0 <= i <= |calls| && total + len == |data|
        invariant file == old(file) + data[..total]
        invariant BytesWritten(|data|, calls) == total + BytesWritten(len, calls[i..])
        decreases |calls| - i, len
      {
        var call := if i < |calls| then calls[i] else Wrote(len);
        if i < |calls| {
          i := i + 1;
        }
        if call.Failed? {
          return if total > 0 then total else -1;
        }
        if call.Wrote? {
          var n := if call.n < len then call.n else len;
          file := file + data[total..total + n];
          len := len - n;
          total := total + n;
        }
      }
      written := total;
    }

    /** redis_fsync or a background fsync, if one is due. */
    method MaybeFsync(e: Env)
      modifies this`fsyncOffset, this`lastFsync
      ensures Snapshot() == TryFsync(old(Snapshot()), e)
    {
      if e.holdFsync {
        return;
      }
      if policy.Always? {
        fsyncOffset := currentSize;
        lastFsync := e.now;
      } else if policy.EverySecond? && e.now > lastFsync {
        if !e.syncInProgress {
          fsyncOffset := currentSize;
        }
        lastFsync := e.now;
      }
    }

    /** Writes the buffer out, unless the flush is postponed. */
    method FlushAppendOnlyFile(e: Env)
      requires alive
      modifies this
      ensures Snapshot() == Flush(old(Snapshot()), e)
      ensures old(buf) == [] ==> file == old(file) && buf == [] && alive
      ensures var due := e.force || !policy.EverySecond? || !e.syncInProgress
                         || (old(postponedStart) != 0 && e.now >= old(postponedStart) + 2);
              var n := BytesWritten(|old(buf)|, e.calls);
              old(buf) != [] ==>
                && (!due ==> file == old(file) && buf == old(buf) && alive && postponedStart ==
                               if old(postponedStart) == 0 then e.now else old(postponedStart))
                && (due && n == |old(buf)| ==>
                      && file == old(file) + old(buf) && buf == [] && lastWriteOk && alive && postponedStart == 0
                      && currentSize == old(currentSize) + n
                      && (policy.Always? && !e.holdFsync ==> fsyncOffset == currentSize && lastFsync == e.now)
                      && (policy.EverySecond? && !e.holdFsync && e.now > old(lastFsync) ==>
                            lastFsync == e.now && (!e.syncInProgress ==> fsyncOffset == currentSize))
                      && (e.holdFsync || policy.Never? || (policy.EverySecond? && e.now <= old(lastFsync)) ==>
                            lastFsync == old(lastFsync) && fsyncOffset == old(fsyncOffset)))
                && (due && n < |old(buf)| && old(currentSize) == |old(file)| ==>
                      && alive == !policy.Always? && (alive ==> !lastWriteOk && file + buf == old(file) + old(buf))
                      && file == if e.truncateWorks then old(file) else old(file) + old(buf)[..n])
      ensures old(buf) == [] ==>
                if policy.EverySecond? && old(fsyncOffset) != old(currentSize) && e.now > old(lastFsync)
                   && !e.syncInProgress && !e.holdFsync
                then Snapshot() == old(Snapshot()).(fsyncOffset := currentSize, lastFsync := e.now)
                else Snapshot() == old(Snapshot())
    {
      if buf == [] {
        if policy.EverySecond? && fsyncOffset != currentSize && e.now > lastFsync && !e.syncInProgress {
          MaybeFsync(e);
        }
        return;
      }
      WriteMeans(Snapshot(), e);
      hide AfterWrite, BytesWritten;
      if policy.EverySecond? && !e.force && e.syncInProgress {
        if postponedStart == 0 {
          postponedStart := e.now;
          return;
        } else if e.now < postponedStart + 2 {
          return;
        }
      }
      WriteBuffer(e);
    }

    method WriteBuffer(e: Env)
      requires buf != []
      modifies this
      ensures Snapshot() == AfterWrite(old(Snapshot()), e)
    {
      hide BytesWritten;
      var written := AofWrite(buf, e.calls);
      postponedStart := 0;
      if written == |buf| {
        lastWriteOk := true;
        currentSize := currentSize + written;
        assert buf[..|buf|] == buf;
        buf := [];
        MaybeFsync(e);
        return;
      }
      if written != -1 && e.truncateWorks {
        file := Cut(file, currentSize);
        written := -1;
      }
      if policy.Always? {
        alive := false;
        return;
      }
      lastWriteOk := false;
      if written > 0 {
        currentSize := currentSize + written;
        buf := buf[written..];
      }
    }
  }

  // --------------------------------------------------------------------------
  // Runs
  // --------------------------------------------------------------------------

  datatype Op = Fed(data: Bytes) | Flushed(env: Env)

  function Apply(s: State, op: Op): State {
    match op
    case Fed(data) => Feed(s, data)
    case Flushed(e) => Flush(s, e)
  }

  function ApplyAll(s: State, ops: seq<Op>): State
    decreases |ops|
  {
    if ops == [] then s else ApplyAll(Apply(s, ops[0]), ops[1..])
  }

  /** Every byte handed to the writer while it was alive. */
  function FedBytes(s: State, ops: seq<Op>): Bytes
    decreases |ops|
  {
    if ops == [] then []
    else (if s.alive && ops[0].Fed? then ops[0].data else []) + FedBytes(Apply(s, ops[0]), ops[1..])
  }

  /** The file and the buffer hold the whole log between them; the size is right while alive. */
  predicate Holds(s: State, log: Bytes) {
    if s.alive then s.file + s.buf == log && |s.file| == s.currentSize else s.file <= log
  }

  /** A write, told from the states before and after. */
  lemma WriteMeans(s: State, e: Env)
    requires s.alive
    ensures var r, n := AfterWrite(s, e), BytesWritten(|s.buf|, e.calls);
            && r.policy == s.policy
            && (n == |s.buf| ==>
                  && r.file == s.file + s.buf && r.buf == [] && r.lastWriteOk && r.alive && r.postponedStart == 0
                  && r.currentSize == s.currentSize + n
                  && (s.policy.Always? && !e.holdFsync ==> r.fsyncOffset == r.currentSize && r.lastFsync == e.now)
                  && (s.policy.EverySecond? && !e.holdFsync && e.now > s.lastFsync ==>
                        r.lastFsync == e.now && (!e.syncInProgress ==> r.fsyncOffset == r.currentSize))
                  && (e.holdFsync || s.policy.Never? || (s.policy.EverySecond? && e.now <= s.lastFsync) ==>
                        r.lastFsync == s.lastFsync && r.fsyncOffset == s.fsyncOffset))
            && (n < |s.buf| && s.currentSize == |s.file| ==>
                  && r.alive == !s.policy.Always? && (r.alive ==> !r.lastWriteOk && r.file + r.buf == s.file + s.buf)
                  && r.file == if e.truncateWorks then s.file else s.file + s.buf[..n])
  {
    hide BytesWritten;
    var n := BytesWritten(|s.buf|, e.calls);
    assert s.buf == s.buf[..n] + s.buf[n..] && s.buf[..|s.buf|] == s.buf && s.buf[..0] == [] && s.file + [] == s.file;
    assert s.file + s.buf[..n] + s.buf[n..] == s.file + s.buf;
    assert (s.file + s.buf[..n])[..|s.file|] == s.file;
  }

  lemma FsyncHolds(s: State, e: Env, log: Bytes)
    requires Holds(s, log)
    ensures Holds(TryFsync(s, e), log)
  {
  }

  lemma WriteHolds(s: State, e: Env, log: Bytes)
    requires Holds(s, log) && s.alive
    ensures Holds(AfterWrite(s, e), log)
  {
    hide BytesWritten, TryFsync;
    var n := BytesWritten(|s.buf|, e.calls);
    assert s.buf == s.buf[..n] + s.buf[n..];
    assert s.file + s.buf[..n] + s.buf[n..] == s.file + s.buf;
    if n == |s.buf| {
      assert s.buf[..n] == s.buf && s.file + s.buf + [] == s.file + s.buf;
      FsyncHolds(s.(postponedStart := 0, file := s.file + s.buf[..n], buf := [], currentSize := s.currentSize + n,
                    lastWriteOk := true), e, log);
    } else {
      assert (s.file + s.buf[..n])[..|s.file|] == s.file;
    }
  }

  lemma FlushHolds(s: State, e: Env, log: Bytes)
    requires Holds(s, log)
    ensures Holds(Flush(s, e), log)
  {
    hide TryFsync, AfterWrite;
    FsyncHolds(s, e, log);
    if s.alive {
      WriteHolds(s, e, log);
    }
  }

  /**
   Under any sequence of feeds, short writes, failures and truncations, the file and the
   buffer together are exactly the bytes fed, and the recorded size is the file's.
   */
  lemma {:induction false} NothingLostOrRepeated(s: State, ops: seq<Op>, log: Bytes)
    requires Holds(s, log)
    ensures Holds(ApplyAll(s, ops), log + FedBytes(s, ops))
    decreases |ops|
  {
    hide Flush, Holds;
    if ops == [] {
      assert log + FedBytes(s, ops) == log;
    } else {
      var op := ops[0];
      var data := if s.alive && op.Fed? then op.data else [];
      match op {
        case Fed(d) => FeedHolds(s, d, log);
        case Flushed(e) => FlushHolds(s, e, log);
      }
      assert log + [] == log;
      NothingLostOrRepeated(Apply(s, op), ops[1..], log + data);
      assert log + data + FedBytes(Apply(s, op), ops[1..]) == log + FedBytes(s, ops);
    }
  }

  lemma FeedHolds(s: State, data: Bytes, log: Bytes)
    requires Holds(s, log)
    ensures Holds(Feed(s, data), if s.alive then log + data else log)
  {
    assert s.file + (s.buf + data) == s.file + s.buf + data;
  }

  /** A forced flush on a disk that does not fail brings the file level with everything fed so far. */
  lemma HealthyFlushCatchesUp(s: State, ops: seq<Op>, log: Bytes, e: Env)
    requires Holds(s, log) && ApplyAll(s, ops).alive && e.force && Healthy(e.calls)
    ensures var r := Flush(ApplyAll(s, ops), e); r.file == log + FedBytes(s, ops) && r.buf == [] && r.alive
  {
    hide ApplyAll, FedBytes, AfterWrite, BytesWritten, Healthy;
    NothingLostOrRepeated(s, ops, log);
    var now := ApplyAll(s, ops);
    WritesAll(|now.buf|, e.calls);
    WriteMeans(now, e);
    assert now.file + [] == now.file;
  }

  /** A server with an empty append-only file. */
  predicate Starts(s: State) {
    s.file == [] && s.buf == [] && s.currentSize == 0 && s.alive
  }

  /**
   Crash recovery end to end.  The server fed the encodings of cs, possibly piecemeal; the disk
   kept some first k bytes of the file.  Loading them executes exactly the whole commands among
   them, those of a transaction left open excepted, and cuts the file back to whole commands.
   */
  lemma {:induction false} CrashRecovery(s: State, ops: seq<Op>, cs: seq<Command>, k: nat, o: Options)
    requires Starts(s) && FedBytes(s, ops) == EncodeAll(cs)
    requires Replayable(o, cs) && o.loadTruncated && o.truncateWorks
    requires 0 < k <= |ApplyAll(s, ops).file|
    ensures k <= |EncodeAll(cs)|
    ensures Load(ApplyAll(s, ops).file[..k], o) ==
              Loaded(EncodeAll(cs[..Kept(cs, k)]), RunAll(FRESH, cs[..Whole(cs, k)]).done)
  {
    hide ApplyAll, FedBytes, EncodeAll, Load, Whole, RunAll, Kept;
    NothingLostOrRepeated(s, ops, []);
    var file, log := ApplyAll(s, ops).file, EncodeAll(cs);
    assert [] + log == log;
    assert file <= log;
    assert file[..k] == log[..k];
    RecoversLongestPrefix(cs, k, o);
  }
}
