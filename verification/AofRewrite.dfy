/**
 Background rewriting of the append-only file: the parent goes on feeding commands while a
 child writes a snapshot; the differences travel through a pipe until the child asks the
 parent to stop, and what is left is appended by the parent when the child is done.
 */
module AofRewrite {
  import opened Resp

  const BLOCK_SIZE: nat := 10 * 1024 * 1024

  // --------------------------------------------------------------------------
  // The rewrite buffer
  // --------------------------------------------------------------------------

  /** The bytes of a list of blocks, in order. */
  function Concat(blocks: seq<Bytes>): Bytes {
    if blocks == [] then [] else blocks[0] + Concat(blocks[1..])
  }

  predicate BlocksOk(blocks: seq<Bytes>) {
    forall i | 0 <= i < |blocks| :: |blocks[i]| <= BLOCK_SIZE
  }

  lemma {:induction false} ConcatSplit(a: seq<Bytes>, b: seq<Bytes>)
    ensures Concat(a + b) == Concat(a) + Concat(b)
    decreases |a|
  {
    if a == [] {
      assert a + b == b;
    } else {
      assert (a + b)[1..] == a[1..] + b;
      ConcatSplit(a[1..], b);
    }
  }

  lemma {:induction false} ConcatSnoc(a: seq<Bytes>, x: Bytes)
    ensures Concat(a + [x]) == Concat(a) + x
  {
    ConcatSplit(a, [x]);
    assert Concat([x]) == x + Concat([]) == x;
  }

  /** The blocks with some more bytes in the last one. */
  function Filled(blocks: seq<Bytes>, piece: Bytes): seq<Bytes>
    requires blocks != []
  {
    blocks[..|blocks| - 1] + [blocks[|blocks| - 1] + piece]
  }

  lemma {:induction false} FillLast(blocks: seq<Bytes>, piece: Bytes)
    requires BlocksOk(blocks) && blocks != [] && |blocks[|blocks| - 1]| + |piece| <= BLOCK_SIZE
    ensures BlocksOk(Filled(blocks, piece)) && Concat(Filled(blocks, piece)) == Concat(blocks) + piece
  {
    hide Concat;
    var init, last := blocks[..|blocks| - 1], blocks[|blocks| - 1];
    ConcatSnoc(init, last);
    ConcatSnoc(init, last + piece);
    assert blocks == init + [last];
    assert Concat(init) + last + piece == Concat(init) + (last + piece);
  }

  lemma {:induction false} AddBlock(blocks: seq<Bytes>)
    requires BlocksOk(blocks)
    ensures BlocksOk(blocks + [[]]) && Concat(blocks + [[]]) == Concat(blocks)
  {
    hide Concat;
    ConcatSnoc(blocks, []);
    assert Concat(blocks) + [] == Concat(blocks);
  }

  /** What the first k calls answer, together. */
  function Sum(answers: nat -> nat, k: nat): nat {
    if k == 0 then 0 else Sum(answers, k - 1) + answers(k - 1)
  }

  lemma {:induction false} SumUpTo(answers: nat -> nat, i: nat, k: nat)
    requires i <= k
    ensures Sum(answers, k) >= Sum(answers, i)
    decreases k
  {
    if i < k {
      SumUpTo(answers, i, k - 1);
    }
  }

  /** The first i calls took n bytes, and none of them stopped the round. */
  predicate Within(answers: nat -> nat, i: nat, n: nat) {
    n <= Sum(answers, i) && forall k: nat | k < i :: answers(k) != 0
  }

  lemma NothingTaken(answers: nat -> nat)
    ensures Within(answers, 0, 0)
  {
  }

  lemma OneMoreAnswer(answers: nat -> nat, i: nat, n: nat, m: nat)
    requires Within(answers, i, n) && 0 < m <= answers(i)
    ensures Within(answers, i + 1, n + m)
  {
  }

  lemma StopsWithin(answers: nat -> nat, i: nat, n: nat)
    requires Within(answers, i, n)
    ensures forall k: nat | answers(k) == 0 :: n <= Sum(answers, k)
  {
    forall k: nat | answers(k) == 0 ensures n <= Sum(answers, k) {
      SumUpTo(answers, i, k);
    }
  }

  /** server.aof_rewrite_buf_blocks: what was fed since the fork and not yet sent to the child. */
  class RewriteBuffer {
    var blocks: seq<Bytes>

    predicate Valid()
      reads this
    {
      BlocksOk(blocks)
    }

    function Contents(): Bytes
      reads this
    {
      Concat(blocks)
    }

    constructor ()
      ensures Valid() && Contents() == []
    {
      blocks := [];
    }

    /** aofRewriteBufferAppend: fills the last block and adds new ones as needed. */
    method Append(s: Bytes)
      requires Valid()
      modifies this
      ensures Valid() && Contents() == old(Contents()) + s
    {
      hide Concat, BlocksOk;
      var i := 0;
      assert Concat(blocks) + s[..0] == Concat(blocks);
      while i < |s|
        invariant 0 <= i <= |s| && Valid() && Contents() == old(Contents()) + s[..i]
        decreases |s| - i, if blocks == [] || |blocks[|blocks| - 1]| >= BLOCK_SIZE then 1 else 0
      {
        hide Concat, BlocksOk;
        if blocks != [] && |blocks[|blocks| - 1]| < BLOCK_SIZE {
          var free := BLOCK_SIZE - |blocks[|blocks| - 1]|;
          var n := if free < |s| - i then free else |s| - i;
          FillLast(blocks, s[i..i + n]);
          assert old(Contents()) + s[..i] + s[i..i + n] == old(Contents()) + s[..i + n];
          blocks := Filled(blocks, s[i..i + n]);
          i := i + n;
        }
        if i < |s| {
          AddBlock(blocks);
          blocks := blocks + [[]];
        }
      }
      assert s[..|s|] == s;
    }

    /**
     aofChildWriteDiffData: writes block after block into the pipe.  `answers` are those of write(2);
     zero (nothing written, or an error) ends the round, and so does running out of blocks.  Nothing
     is sent once the child has asked to stop.
     */
    method SendDiff(stop: bool, answers: nat -> nat) returns (sent: Bytes)
      requires Valid()
      modifies this
      ensures Valid() && sent + Contents() == old(Contents())
      ensures stop ==> sent == []
      ensures Contents() == [] || stop || exists i: nat :: answers(i) == 0
      ensures forall k: nat | answers(k) == 0 :: |sent| <= Sum(answers, k)
    {
      hide Within, Sum;
      sent := [];
      var i: nat := 0;
      assert Within(answers, 0, 0) by { NothingTaken(answers); }
      while !stop && blocks != []
        invariant Valid() && sent + Contents() == old(Contents())
        invariant stop ==> sent == []
        invariant Within(answers, i, |sent|)
        decreases |Concat(blocks)|, |blocks|
      {
        hide Within, Sum;
        if |blocks[0]| > 0 {
          var n := if answers(i) < |blocks[0]| then answers(i) else |blocks[0]|;
          if n == 0 {
            StopsWithin(answers, i, |sent|);
            return;
          }
          OneMoreAnswer(answers, i, |sent|, n);
          i := i + 1;
          TakeFirst(blocks, n);
          var piece, rest := blocks[0][..n], Shortened(blocks, n);
          assert sent + (piece + Concat(rest)) == sent + piece + Concat(rest);
          sent := sent + piece;
          blocks := rest;
        }
        if |blocks[0]| == 0 {
          assert blocks[0] + Concat(blocks[1..]) == Concat(blocks[1..]);
          blocks := blocks[1..];
        }
      }
      StopsWithin(answers, i, |sent|);
    }

    /** aofRewriteBufferWrite: block after block, until a write comes up short: `got` bytes of block `failAt`. */
    method Write(failAt: nat, got: nat) returns (ok: bool, written: Bytes)
      ensures ok <==> failAt >= |blocks| || got >= |blocks[failAt]|
      ensures ok ==> written == Contents()
      ensures !ok ==> written == Concat(blocks[..failAt]) + blocks[failAt][..got]
      ensures written <= Contents()
    {
      written := [];
      ok := true;
      for i := 0 to |blocks|
        invariant written == Concat(blocks[..i]) && (failAt < i ==> got >= |blocks[failAt]|)
      {
        assert blocks[..i + 1] == blocks[..i] + [blocks[i]];
        ConcatSnoc(blocks[..i], blocks[i]);
        if blocks[i] != [] {
          if i == failAt && got < |blocks[i]| {
            written := written + blocks[i][..got];
            PrefixWritten(blocks, i, got);
            return false, written;
          }
          written := written + blocks[i];
        }
      }
      assert blocks[..|blocks|] == blocks;
    }
  }

  lemma {:induction false} PrefixWritten(blocks: seq<Bytes>, i: nat, got: nat)
    requires i < |blocks| && got <= |blocks[i]|
    ensures Concat(blocks[..i]) + blocks[i][..got] <= Concat(blocks)
  {
    hide Concat;
    assert blocks == blocks[..i] + [blocks[i]] + blocks[i + 1..];
    ConcatSplit(blocks[..i] + [blocks[i]], blocks[i + 1..]);
    ConcatSnoc(blocks[..i], blocks[i]);
  }

  /** The blocks after the first n bytes of the first one went out. */
  function Shortened(blocks: seq<Bytes>, n: nat): seq<Bytes>
    requires blocks != [] && n <= |blocks[0]|
  {
    [blocks[0][n..]] + blocks[1..]
  }

  lemma {:induction false} TakeFirst(blocks: seq<Bytes>, n: nat)
    requires BlocksOk(blocks) && blocks != [] && n <= |blocks[0]|
    ensures BlocksOk(Shortened(blocks, n)) && blocks[0][..n] + Concat(Shortened(blocks, n)) == Concat(blocks)
  {
    assert blocks[0] == blocks[0][..n] + blocks[0][n..];
    assert blocks[0][..n] + (blocks[0][n..] + Concat(blocks[1..])) == blocks[0] + Concat(blocks[1..]);
  }

  const PIPE_BUFFER: nat := 65536

  /** How many bytes one read takes, given the answer of read(2). */
  function Read(answer: nat, left: Bytes): (n: nat)
    ensures n <= |left| && (n == 0 <==> answer == 0 || left == [])
  {
    if answer == 0 || left == [] then 0
    else if answer <= |left| && answer <= PIPE_BUFFER then answer
    else if |left| <= PIPE_BUFFER then |left|
    else PIPE_BUFFER
  }

  /** What reading until the pipe answers with nothing leaves in it. */
  function LeftBy(pipe: Bytes, answers: nat -> nat, i: nat): (left: Bytes)
    ensures |left| <= |pipe|
    decreases |pipe|
  {
    var n := Read(answers(i), pipe);
    if n == 0 then pipe else LeftBy(pipe[n..], answers, i + 1)
  }

  lemma OneRead(pipe: Bytes, answers: nat -> nat, i: nat)
    ensures var n := Read(answers(i), pipe);
            LeftBy(pipe, answers, i) == if n == 0 then pipe else LeftBy(pipe[n..], answers, i + 1)
  {
  }

  /** Bytes are left in the pipe only if some read failed. */
  lemma {:induction false} ReadsLeaveNothing(pipe: Bytes, answers: nat -> nat, i: nat)
    requires forall j: nat :: answers(j) > 0
    ensures LeftBy(pipe, answers, i) == []
    decreases |pipe|
  {
    assert answers(i) > 0;
    if pipe != [] {
      ReadsLeaveNothing(pipe[Read(answers(i), pipe)..], answers, i + 1);
    }
  }

  /** aofReadDiffFromParent: reads until the pipe answers with nothing. */
  method ReadDiffFromParent(pipe: Bytes, answers: nat -> nat) returns (diff: Bytes, left: Bytes)
    ensures diff + left == pipe && left == LeftBy(pipe, answers, 0)
    ensures left == [] || exists i: nat :: answers(i) == 0
  {
    hide LeftBy, Read;
    diff, left := [], pipe;
    var i: nat := 0;
    var n := Read(answers(i), left);
    while n > 0
      invariant diff + left == pipe && n == Read(answers(i), left)
      invariant LeftBy(pipe, answers, 0) == LeftBy(left, answers, i)
      decreases |left|
    {
      hide LeftBy, Read;
      OneRead(left, answers, i);
      assert diff + left == diff + left[..n] + left[n..];
      diff, left := diff + left[..n], left[n..];
      i := i + 1;
      n := Read(answers(i), left);
    }
    hide LeftBy, Read;
    OneRead(left, answers, i);
  }

  // --------------------------------------------------------------------------
  // The two processes
  // --------------------------------------------------------------------------

  datatype Phase = Copying | Asked | Acked | Exited(ok: bool)

  /**
   Parent, child and the pipes between them.  `pending` is the content of the rewrite buffer.
   `log` is every byte fed, and the file and its buffer stand for `base` followed by what was
   fed since `baseAt`.
   */
  datatype World = World(
    on: bool,
    log: Bytes,
    file: Bytes,
    buf: Bytes,
    base: Bytes,
    baseAt: nat,
    child: bool,
    snapshot: Bytes,
    forkAt: nat,
    pending: Bytes,
    pipe: Bytes,
    stop: bool,
    ask: bool,
    ack: bool,
    phase: Phase,
    diff: Bytes,
    temp: Bytes)

  datatype Event =
    | Feed(data: Bytes)
    | Flush(n: nat)
    | Fork(snapshot: Bytes)
    | Send(n: nat)
    | ChildReads(n: nat)
    | ChildAsks
    | ParentHears(replies: bool)
    | ChildHears
    | ChildFinishes(n: nat)
    | ChildFails
    | Reap(reopened: bool, written: bool, renamed: bool)

  predicate Enabled(w: World, e: Event) {
    match e
    case Feed(_) => true
    case Flush(n) => n <= |w.buf|
    case Fork(_) => !w.child
    case Send(n) => w.child && !w.stop && n <= |w.pending|
    case ChildReads(n) => w.child && w.phase.Copying? && n <= |w.pipe|
    case ChildAsks => w.child && w.phase.Copying?
    case ParentHears(_) => w.child && w.ask
    case ChildHears => w.child && w.phase.Asked? && w.ack
    case ChildFinishes(n) => w.child && w.phase.Acked? && n <= |w.pipe|
    case ChildFails => w.child && !w.phase.Exited?
    case Reap(_, _, _) => w.child && w.phase.Exited?
  }

  function Next(w: World, e: Event): World
    requires Enabled(w, e)
  {
    match e
    case Feed(data) =>
      w.(log := w.log + data,
         buf := if w.on then w.buf + data else w.buf,
         pending := if w.child then w.pending + data else w.pending)
    case Flush(n) => w.(file := w.file + w.buf[..n], buf := w.buf[n..])
    case Fork(snapshot) =>
      w.(child := true, snapshot := snapshot, forkAt := |w.log|, pipe := [], stop := false, ask := false, ack := false,
         phase := Copying, diff := [], temp := [])
    case Send(n) => w.(pipe := w.pipe + w.pending[..n], pending := w.pending[n..])
    case ChildReads(n) => w.(diff := w.diff + w.pipe[..n], pipe := w.pipe[n..])
    case ChildAsks => w.(phase := Asked, ask := true)
    case ParentHears(replies) => w.(stop := true, ask := false, ack := replies)
    case ChildHears => w.(phase := Acked, ack := false)
    case ChildFinishes(n) =>
      w.(diff := w.diff + w.pipe[..n], pipe := w.pipe[n..], phase := Exited(true),
         temp := w.snapshot + (w.diff + w.pipe[..n]))
    case ChildFails => w.(phase := Exited(false))
    case Reap(reopened, written, renamed) =>
      var done :=
        if w.phase.ok && reopened && written && renamed
        then w.(file := w.temp + w.pending, buf := [], base := w.snapshot, baseAt := w.forkAt, on := true)
        else w;
      done.(child := false, pending := [], pipe := [])
  }

  // --------------------------------------------------------------------------
  // Conservation
  // --------------------------------------------------------------------------

  /** Every byte fed since the fork is in exactly one of the child's hands, the pipe and the buffer, in order. */
  predicate Conserved(w: World) {
    && (w.child ==>
          && w.forkAt <= |w.log|
          && w.log[w.forkAt..] == Flow(w.diff, w.pipe, w.pending)
          && (w.ack || w.phase.Acked? ==> w.stop)
          && (w.phase == Exited(true) ==> w.stop && w.temp == w.snapshot + w.diff))
    && (!w.child ==> w.pending == [])
  }

  /** The file with its buffer is the base followed by all that was fed since. */
  predicate Covered(w: World) {
    w.baseAt <= |w.log| && (w.on ==> w.file + w.buf == w.base + w.log[w.baseAt..])
  }

  function Flow(diff: Bytes, pipe: Bytes, pending: Bytes): Bytes {
    diff + pipe + pending
  }

  lemma FlowOnFeed(log: Bytes, at: nat, diff: Bytes, pipe: Bytes, pending: Bytes, data: Bytes)
    requires at <= |log| && log[at..] == Flow(diff, pipe, pending)
    ensures (log + data)[at..] == Flow(diff, pipe, pending + data)
  {
    assert (log + data)[at..] == log[at..] + data;
  }

  lemma FlowOnSend(diff: Bytes, pipe: Bytes, pending: Bytes, n: nat)
    requires n <= |pending|
    ensures Flow(diff, pipe + pending[..n], pending[n..]) == Flow(diff, pipe, pending)
  {
    assert pending == pending[..n] + pending[n..];
  }

  lemma FlowOnRead(diff: Bytes, pipe: Bytes, pending: Bytes, n: nat)
    requires n <= |pipe|
    ensures Flow(diff + pipe[..n], pipe[n..], pending) == Flow(diff, pipe, pending)
  {
    assert pipe == pipe[..n] + pipe[n..];
  }

  lemma ConservedStep(w: World, e: Event)
    requires Conserved(w) && Enabled(w, e)
    ensures Conserved(Next(w, e))
  {
    hide Flow;
    match e
    case Feed(data) =>
      if w.child {
        FlowOnFeed(w.log, w.forkAt, w.diff, w.pipe, w.pending, data);
      }
    case Fork(_) => EmptyFlow(w.log);
    case Send(n) => FlowOnSend(w.diff, w.pipe, w.pending, n);
    case ChildReads(n) => FlowOnRead(w.diff, w.pipe, w.pending, n);
    case ChildFinishes(n) => FlowOnRead(w.diff, w.pipe, w.pending, n);
    case _ =>
  }

  lemma EmptyFlow(log: Bytes)
    ensures log[|log|..] == Flow([], [], [])
  {
  }

  /** A rewrite installed: the file is the snapshot and everything fed since, unless bytes were left unread. */
  lemma ReapIsExactIff(w: World)
    requires Conserved(w) && w.child && w.phase == Exited(true)
    ensures Next(w, Reap(true, true, true)).file == w.snapshot + w.log[w.forkAt..] <==> w.pipe == []
  {
    var r := Next(w, Reap(true, true, true)).file;
    assert r == w.snapshot + w.diff + w.pending;
    assert w.snapshot + w.log[w.forkAt..] == w.snapshot + w.diff + w.pipe + w.pending;
    assert w.pipe == [] ==> w.diff + w.pipe == w.diff;
  }

  /** The child's last read emptied the pipe. */
  predicate DrainsFully(w: World, e: Event) {
    e.ChildFinishes? ==> e.n == |w.pipe|
  }

  /** The event of a child that finishes reading with the given answers: it drains the pipe unless a read fails. */
  lemma LastReadDrains(w: World, answers: nat -> nat)
    requires forall i: nat :: answers(i) > 0
    ensures DrainsFully(w, ChildFinishes(|w.pipe| - |LeftBy(w.pipe, answers, 0)|))
  {
    ReadsLeaveNothing(w.pipe, answers, 0);
  }

  /** A successful rewrite is installed while bytes are still in the pipe. */
  predicate DropsBytes(w: World, e: Event) {
    e == Reap(true, true, true) && w.phase == Exited(true) && w.pipe != []
  }

  /** Once the child has asked and been answered the pipe only empties, so a full last read leaves nothing. */
  predicate Drained(w: World) {
    w.child && w.phase == Exited(true) ==> w.pipe == []
  }

  lemma DrainedStep(w: World, e: Event)
    requires Conserved(w) && Drained(w) && Enabled(w, e) && DrainsFully(w, e)
    ensures Drained(Next(w, e))
  {
  }

  lemma CoveredOnFeed(w: World, data: Bytes)
    requires Covered(w)
    ensures Covered(w.(log := w.log + data, buf := if w.on then w.buf + data else w.buf))
  {
    assert (w.log + data)[w.baseAt..] == w.log[w.baseAt..] + data;
    assert w.file + (w.buf + data) == w.file + w.buf + data;
  }

  lemma CoveredOnFlush(w: World, n: nat)
    requires Covered(w) && n <= |w.buf|
    ensures Covered(w.(file := w.file + w.buf[..n], buf := w.buf[n..]))
  {
    assert w.file + w.buf[..n] + w.buf[n..] == w.file + (w.buf[..n] + w.buf[n..]) == w.file + w.buf;
  }

  /** A step keeps the coverage unless it drops bytes, and then it loses it. */
  lemma CoveredStep(w: World, e: Event)
    requires Conserved(w) && Covered(w) && Enabled(w, e)
    ensures Covered(Next(w, e)) <==> !DropsBytes(w, e)
  {
    hide Flow;
    match e
    case Feed(data) => CoveredOnFeed(w, data);
    case Flush(n) => CoveredOnFlush(w, n);
    case Reap(reopened, written, renamed) =>
      if w.phase.ok && reopened && written && renamed {
        ReapIsExactIff(w);
        var f := Next(w, e).file;
        assert f + [] == f;
      }
    case _ =>
  }

  /** Before any rewrite: the file and its buffer are what they are. */
  predicate Begins(w: World) {
    !w.child && w.pending == [] && w.log == [] && w.baseAt == 0 && (w.on ==> w.file + w.buf == w.base)
  }

  predicate IsRun(run: seq<World>, events: seq<Event>) {
    && |run| == |events| + 1
    && Begins(run[0])
    && forall i | 0 <= i < |events| :: Enabled(run[i], events[i]) && run[i + 1] == Next(run[i], events[i])
  }

  lemma {:induction false} ConservedThroughout(run: seq<World>, events: seq<Event>, i: nat)
    requires IsRun(run, events) && i < |run|
    ensures Conserved(run[i])
  {
    hide Next, Enabled, Conserved, Begins;
    if i == 0 {
      FirstState(run[0]);
    } else {
      ConservedThroughout(run, events, i - 1);
      ConservedStep(run[i - 1], events[i - 1]);
    }
  }

  /**
   Under every interleaving of feeding, flushing, sending, reading, the stop handshake, failures
   and any number of rewrites, the file with its buffer holds every byte fed exactly once and in
   order, throughout the run, if and only if no rewrite is installed with bytes left in the pipe.
   */
  lemma {:induction false} RewriteLosesNothingIff(run: seq<World>, events: seq<Event>, i: nat)
    requires IsRun(run, events) && i < |run|
    ensures (forall j | 0 <= j <= i :: Covered(run[j])) <==> forall j | 0 <= j < i :: !DropsBytes(run[j], events[j])
  {
    hide Next, Enabled, Conserved, Covered, DropsBytes, Begins;
    if i == 0 {
      FirstState(run[0]);
    } else {
      RewriteLosesNothingIff(run, events, i - 1);
      if forall j | 0 <= j < i :: Covered(run[j]) {
        assert Covered(run[i - 1]);
        ConservedThroughout(run, events, i - 1);
        CoveredStep(run[i - 1], events[i - 1]);
        assert run[i] == Next(run[i - 1], events[i - 1]);
        assert Covered(run[i]) <==> !DropsBytes(run[i - 1], events[i - 1]);
      } else {
        assert exists j | 0 <= j < i - 1 :: DropsBytes(run[j], events[j]);
      }
    }
  }

  /** Nothing is lost in a run in which no last read fails: the pipe is empty whenever a rewrite is installed. */
  lemma {:induction false} RewriteLosesNothing(run: seq<World>, events: seq<Event>, i: nat)
    requires IsRun(run, events) && i < |run| && forall j | 0 <= j < i :: DrainsFully(run[j], events[j])
    ensures Conserved(run[i]) && Drained(run[i]) && Covered(run[i])
  {
    hide Next, Enabled, Conserved, Drained, Covered, DrainsFully, Begins;
    if i == 0 {
      FirstState(run[0]);
    } else {
      RewriteLosesNothing(run, events, i - 1);
      ConservedStep(run[i - 1], events[i - 1]);
      DrainedStep(run[i - 1], events[i - 1]);
      NothingDropped(run[i - 1], events[i - 1]);
      CoveredStep(run[i - 1], events[i - 1]);
    }
  }

  lemma NothingDropped(w: World, e: Event)
    requires Drained(w) && Enabled(w, e)
    ensures !DropsBytes(w, e)
  {
  }

  lemma FirstState(w: World)
    requires Begins(w)
    ensures Conserved(w) && Drained(w) && Covered(w)
  {
    assert w.base + w.log[0..] == w.base;
  }

  // --------------------------------------------------------------------------
  // The stop handshake, and getting to the end
  // --------------------------------------------------------------------------

  /**
   The parent sends differences until the child asks it to stop.  A question is either on its
   way, answered with the answer on its way, or answered with the answer lost.
   */
  predicate InStep(w: World) {
    w.child ==>
      match w.phase
      case Copying => !w.stop && !w.ask && !w.ack
      case Asked => w.ask == !w.stop && (w.ack ==> w.stop)
      case Acked => w.stop && !w.ask && !w.ack
      case Exited(ok) => ok ==> w.stop && !w.ask && !w.ack
  }

  lemma InStepStep(w: World, e: Event)
    requires InStep(w) && Enabled(w, e)
    ensures InStep(Next(w, e))
  {
  }

  lemma {:induction false} InStepThroughout(run: seq<World>, events: seq<Event>, i: nat)
    requires IsRun(run, events) && i < |run|
    ensures InStep(run[i])
  {
    hide Next, Enabled;
    if i > 0 {
      InStepThroughout(run, events, i - 1);
      InStepStep(run[i - 1], events[i - 1]);
    }
  }

  /** The state after some events, or none if one of them cannot happen. */
  predicate Leads(w: World, events: seq<Event>, r: World)
    decreases |events|
  {
    if events == [] then r == w else Enabled(w, events[0]) && Leads(Next(w, events[0]), events[1..], r)
  }

  lemma Arrived(w: World)
    ensures Leads(w, [], w)
  {
  }

  lemma Before(w: World, e: Event, events: seq<Event>, r: World)
    requires Enabled(w, e) && Leads(Next(w, e), events, r)
    ensures Leads(w, [e] + events, r)
  {
    hide Next, Enabled;
    assert ([e] + events)[1..] == events;
  }

  /** Question, answer, last read, installation, and the next write. */
  lemma AskingCanFinish(w: World, data: Bytes) returns (events: seq<Event>, r: World)
    requires w.child && w.phase.Copying? && Conserved(w)
    ensures Leads(w, events, r)
    ensures !r.child && r.on && r.log == w.log + data && r.file == w.snapshot + w.log[w.forkAt..] + data && r.buf == []
  {
    hide Leads, Flow, Conserved;
    var asked := Next(w, ChildAsks);
    var answered := Next(asked, ParentHears(true));
    var heard := Next(answered, ChildHears);
    var finish := ChildFinishes(|heard.pipe|);
    var finished := Next(heard, finish);
    var installed := Next(finished, Reap(true, true, true));
    var fed := Next(installed, Feed(data));
    r := Next(fed, Flush(|fed.buf|));
    ConservedStep(w, ChildAsks);
    ConservedStep(asked, ParentHears(true));
    ConservedStep(answered, ChildHears);
    ConservedStep(heard, finish);
    ReapIsExactIff(finished);
    assert fed.buf == data;
    events := [];
    Arrived(r);
    Before(fed, Flush(|fed.buf|), events, r);
    events := [Flush(|fed.buf|)] + events;
    Before(installed, Feed(data), events, r);
    events := [Feed(data)] + events;
    Before(finished, Reap(true, true, true), events, r);
    events := [Reap(true, true, true)] + events;
    Before(heard, finish, events, r);
    events := [finish] + events;
    Before(answered, ChildHears, events, r);
    events := [ChildHears] + events;
    Before(asked, ParentHears(true), events, r);
    events := [ParentHears(true)] + events;
    Before(w, ChildAsks, events, r);
    events := [ChildAsks] + events;
  }

  /** Whatever is unsent or unread, a child that still copies can be followed to the installed file. */
  lemma CopyingCanFinish(w: World, data: Bytes) returns (events: seq<Event>, r: World)
    requires w.child && w.phase.Copying? && InStep(w) && Conserved(w)
    ensures Leads(w, events, r)
    ensures !r.child && r.on && r.log == w.log + data && r.file == w.snapshot + w.log[w.forkAt..] + data && r.buf == []
  {
    hide Leads, Flow;
    var sent := Next(w, Send(|w.pending|));
    var read := Next(sent, ChildReads(|sent.pipe|));
    ConservedStep(w, Send(|w.pending|));
    ConservedStep(sent, ChildReads(|sent.pipe|));
    events, r := AskingCanFinish(read, data);
    Before(sent, ChildReads(|sent.pipe|), events, r);
    Before(w, Send(|w.pending|), [ChildReads(|sent.pipe|)] + events, r);
    events := [Send(|w.pending|)] + ([ChildReads(|sent.pipe|)] + events);
  }

  /**
   From every state of every run, also after a failed child or a lost answer, a rewrite can still be
   completed and the next write flushed.
   */
  lemma RewriteCanFinish(run: seq<World>, events: seq<Event>, i: nat, snapshot: Bytes, data: Bytes)
    returns (more: seq<Event>, r: World)
    requires IsRun(run, events) && i < |run|
    ensures Leads(run[i], more, r)
    ensures !r.child && r.on && r.log == run[i].log + data && r.buf == []
    ensures var w := run[i];
            && (w.child ==> w.forkAt <= |w.log|)
            && r.file == if w.child && w.phase.Copying? then w.snapshot + w.log[w.forkAt..] + data else snapshot + data
  {
    var w := run[i];
    InStepThroughout(run, events, i);
    ConservedThroughout(run, events, i);
    if w.child && w.phase.Copying? {
      more, r := CopyingCanFinish(w, data);
    } else {
      var failed := if w.child && !w.phase.Exited? then Next(w, ChildFails) else w;
      var reaped := if w.child then Next(failed, Reap(false, false, false)) else w;
      var forked := Next(reaped, Fork(snapshot));
      if w.child && !w.phase.Exited? {
        ConservedStep(w, ChildFails);
      }
      if w.child {
        ConservedStep(failed, Reap(false, false, false));
      }
      ConservedStep(reaped, Fork(snapshot));
      more, r := CopyingCanFinish(forked, data);
      assert snapshot + w.log[|w.log|..] == snapshot;
      Before(reaped, Fork(snapshot), more, r);
      more := [Fork(snapshot)] + more;
      if w.child {
        Before(failed, Reap(false, false, false), more, r);
        more := [Reap(false, false, false)] + more;
      }
      if w.child && !w.phase.Exited? {
        Before(w, ChildFails, more, r);
        more := [ChildFails] + more;
      }
    }
  }
}
