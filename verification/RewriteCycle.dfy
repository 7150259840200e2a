/** A rewrite from the fork to the next start: what the installed file loads to. */
module RewriteCycle {
  import opened Common
  import opened Resp
  import opened AofLoad
  import opened AofRecovery
  import AofRewrite
  import opened Dataset
  import opened DatasetRewrite
  import opened DatasetFile

  /** The child wrote the commands of a listing, and since the fork the parent fed the given writes. */
  predicate Rewriting(w: AofRewrite.World, ls: seq<seq<Record>>, writes: seq<Write>) {
    && w.child && w.phase == AofRewrite.Exited(true) && w.forkAt <= |w.log|
    && w.snapshot == EncodeAll(Commands(ls, 0))
    && w.log[w.forkAt..] == EncodeAll(Feed(None, writes))
  }

  /**
   Whatever the interleaving, the file a rewrite installs loads to the dataset listed at the fork
   followed by every write fed since, each in its own database.
   */
  lemma {:induction false} InstalledFileLoads(
    run: seq<AofRewrite.World>, events: seq<AofRewrite.Event>, i: nat,
    ls: seq<seq<Record>>, dbs: seq<Db>, writes: seq<Write>, o: Options)
    requires AofRewrite.IsRun(run, events) && i < |events| && events[i] == AofRewrite.Reap(true, true, true)
    requires Rewriting(run[i], ls, writes) && !AofRewrite.DropsBytes(run[i], events[i])
    requires ListsDataset(ls, dbs) && Sized(ls) && HasCommands(o.table)
    requires NoSelects(writes) && forall w | w in writes :: w.db < 0x8000_0000 && Accepted(o, w.command)
    requires Commands(ls, 0) + Feed(None, writes) != [] && WellBracketed(Feed(None, writes))
    ensures var base, diff, file := Commands(ls, 0), Feed(None, writes), run[i + 1].file;
            var rebuilt := ReplayAll(NOTHING, base);
            && Load(file, o) == Loaded(file, base + PlainPart(diff))
            && (forall j: nat :: DbOf(rebuilt, j) == if j < |dbs| then dbs[j] else map[])
            && Executed(rebuilt.selected, PlainPart(diff)) == PlainWrites(writes)
  {
    hide AofRewrite.Next, AofRewrite.Enabled, AofRewrite.Conserved, AofRewrite.Begins, Commands, Feed, EncodeAll, Load,
         ReplayAll,
         DbOf, Executed, PlainPart, PlainWrites, ListsDataset, Sized, HasCommands, NoSelects, WellBracketed, Accepted;
    AofRewrite.ConservedThroughout(run, events, i);
    AofRewrite.ReapIsExactIff(run[i]);
    assert run[i + 1] == AofRewrite.Next(run[i], events[i]);
    RewrittenLogRebuilds(ls, dbs, writes, o);
  }
}
