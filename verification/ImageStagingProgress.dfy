/** What the staging protocol gets done: a writer can publish, and one that ends leaves no staging file behind. */
module ImageStagingProgress {
  import opened Common
  import opened ImageStaging
  import opened ImageStagingSafety

  // ----- a writer that stages can publish -----

  lemma StagedIsPublished(s: State, p: Pid, target: string)
    requires p in s.procs && ProcOk(s, p, s.procs[p]) && s.procs[p].at == Staging
    ensures var s' := Apply(s, p, Publish(target));
            && s'.Some? && s'.value.procs[p].at == Published
            && s'.value.files == (s.files - {Temp(s.procs[p].temp)})[Final(target) := s.procs[p].inode]
  {
  }

  /** In every execution, a writer that has staged its file can publish it under any name: the staging name is gone,
      that name holds the file, and nothing else changes in the directory. */
  lemma StagingCanPublish(states: seq<State>, events: seq<(Pid, Action)>, i: nat, p: Pid, target: string)
    requires Execution(states, events) && i < |states| && p in states[i].procs && states[i].procs[p].at == Staging
    ensures var s' := Apply(states[i], p, Publish(target));
            && s'.Some? && s'.value.procs[p].at == Published
            && s'.value.files ==
               (states[i].files - {Temp(states[i].procs[p].temp)})[Final(target) := states[i].procs[p].inode]
  {
    ReachableIsConsistent(states, events, i);
    assert ProcOk(states[i], p, states[i].procs[p]);
    StagedIsPublished(states[i], p, target);
  }

  // ----- a writer alone goes through -----

  function After(s: State, p: Pid, actions: seq<Action>): Option<State>
    decreases |actions|
  {
    if actions == [] then Some(s) else
    var s' := Apply(s, p, actions[0]);
    if s'.None? then None else After(s'.value, p, actions[1..])
  }

  lemma AfterOne(s: State, p: Pid, a: Action, s1: State, more: seq<Action>)
    requires Apply(s, p, a) == Some(s1)
    ensures After(s, p, [a] + more) == After(s1, p, more)
  {
    assert ([a] + more)[1..] == more;
  }

  function Writer(at: Point, inDir: bool, locked: bool, n: nat, inode: Inode): Proc {
    Proc(at, inDir, locked, n, inode, {}, {})
  }

  /** The state with a writer at that point, its staging file made. */
  function Staged(s: State, p: Pid, n: nat, me: Proc): State {
    State(s.files[Temp(n) := s.next], if me.locked then s.locks[s.next := p] else s.locks,
          if me.inDir then Some(p) else None, s.procs[p := me], s.used + {n}, s.owner[n := p], s.next + 1)
  }

  lemma WriterEnters(s: State, p: Pid)
    requires p !in s.procs && s.dir.None?
    ensures var s1 := s.(procs := s.procs[p := Writer(Waiting, false, false, 0, 0)]);
            && Apply(s, p, BeginWrite) == Some(s1)
            && Apply(s1, p, TakeDir) ==
               Some(s.(dir := Some(p), procs := s.procs[p := Writer(Inside, true, false, 0, 0)]))
  {
    var s1 := s.(procs := s.procs[p := Writer(Waiting, false, false, 0, 0)]);
    var inside := Writer(Inside, true, false, 0, 0);
    assert s1.procs[p := inside] == s.procs[p := inside];
  }

  lemma WriterCreates(s: State, p: Pid, n: nat)
    requires s.dir.None? && n !in s.used
    ensures Apply(s.(dir := Some(p), procs := s.procs[p := Writer(Inside, true, false, 0, 0)]), p, Create(n)) ==
            Some(Staged(s, p, n, Writer(Created, true, false, n, s.next)))
  {
    var created := Writer(Created, true, false, n, s.next);
    assert s.procs[p := Writer(Inside, true, false, 0, 0)][p := created] == s.procs[p := created];
  }

  lemma WriterLocks(s: State, p: Pid, n: nat)
    requires s.dir.None? && s.next !in s.locks
    ensures Apply(Staged(s, p, n, Writer(Created, true, false, n, s.next)), p, LockFile) ==
            Some(Staged(s, p, n, Writer(Locked, true, true, n, s.next)))
  {
    var created, locked := Writer(Created, true, false, n, s.next), Writer(Locked, true, true, n, s.next);
    assert s.procs[p := created][p := locked] == s.procs[p := locked];
  }

  lemma WriterReleases(s: State, p: Pid, n: nat)
    requires s.dir.None?
    ensures Apply(Staged(s, p, n, Writer(Locked, true, true, n, s.next)), p, ReleaseDir) ==
            Some(Staged(s, p, n, Writer(Staging, false, true, n, s.next)))
  {
    var locked, staging := Writer(Locked, true, true, n, s.next), Writer(Staging, false, true, n, s.next);
    assert s.procs[p := locked][p := staging] == s.procs[p := staging];
  }

  /** The state with the file published, and the writer at that point. */
  function Done(s: State, p: Pid, n: nat, target: string, me: Proc): State {
    State(s.files[Final(target) := s.next], if me.locked then s.locks[s.next := p] else s.locks, None,
          s.procs[p := me], s.used + {n}, s.owner[n := p], s.next + 1)
  }

  lemma WriterPublishes(s: State, p: Pid, n: nat, target: string)
    requires s.dir.None? && s.next !in s.locks && Temp(n) !in s.files
    ensures Apply(Staged(s, p, n, Writer(Staging, false, true, n, s.next)), p, Publish(target)) ==
            Some(Done(s, p, n, target, Writer(Published, false, true, n, s.next)))
  {
    var staging, published := Writer(Staging, false, true, n, s.next), Writer(Published, false, true, n, s.next);
    assert s.procs[p := staging][p := published] == s.procs[p := published];
    assert s.files[Temp(n) := s.next] - {Temp(n)} == s.files;
  }

  lemma WriterCloses(s: State, p: Pid, n: nat, target: string)
    requires s.dir.None? && s.next !in s.locks
    ensures Apply(Done(s, p, n, target, Writer(Published, false, true, n, s.next)), p, Close) ==
            Some(Done(s, p, n, target, Writer(Leaving, false, false, n, s.next)))
  {
    var published, leaving := Writer(Published, false, true, n, s.next), Writer(Leaving, false, false, n, s.next);
    assert s.procs[p := published][p := leaving] == s.procs[p := leaving];
    assert s.locks[s.next := p] - {s.next} == s.locks;
  }

  lemma WriterLeaves(s: State, p: Pid, n: nat, target: string)
    requires s.dir.None? && Temp(n) !in s.files
    ensures Apply(Done(s, p, n, target, Writer(Leaving, false, false, n, s.next)), p, Unlink) ==
            Some(Done(s, p, n, target, Writer(Gone, false, false, n, s.next)))
  {
    var leaving, gone := Writer(Leaving, false, false, n, s.next), Writer(Gone, false, false, n, s.next);
    assert s.procs[p := leaving][p := gone] == s.procs[p := gone];
    assert s.files[Final(target) := s.next] - {Temp(n)} == s.files[Final(target) := s.next];
  }

  function Entering(): seq<Action> {
    [BeginWrite] + ([TakeDir] + [])
  }

  function Making(n: nat): seq<Action> {
    [Create(n)] + ([LockFile] + ([ReleaseDir] + []))
  }

  function Ending(target: string): seq<Action> {
    [Publish(target)] + ([Close] + ([Unlink] + []))
  }

  lemma {:induction false} AfterAppend(s: State, p: Pid, first: seq<Action>, s1: State, more: seq<Action>)
    requires After(s, p, first) == Some(s1)
    ensures After(s, p, first + more) == After(s1, p, more)
    decreases |first|
  {
    if first == [] {
      assert first + more == more;
    } else {
      AfterAppend(Apply(s, p, first[0]).value, p, first[1..], s1, more);
      assert (first + more)[1..] == first[1..] + more;
    }
  }

  lemma WriterIsInside(s: State, p: Pid)
    requires p !in s.procs && s.dir.None?
    ensures After(s, p, Entering()) ==
            Some(s.(dir := Some(p), procs := s.procs[p := Writer(Inside, true, false, 0, 0)]))
  {
    var s1 := s.(procs := s.procs[p := Writer(Waiting, false, false, 0, 0)]);
    var s2 := s.(dir := Some(p), procs := s.procs[p := Writer(Inside, true, false, 0, 0)]);
    WriterEnters(s, p);
    AfterOne(s, p, BeginWrite, s1, [TakeDir] + []);
    AfterOne(s1, p, TakeDir, s2, []);
  }

  lemma WriterHasStaged(s: State, p: Pid, n: nat)
    requires s.dir.None? && n !in s.used && s.next !in s.locks
    ensures var s2 := s.(dir := Some(p), procs := s.procs[p := Writer(Inside, true, false, 0, 0)]);
            After(s2, p, Making(n)) == Some(Staged(s, p, n, Writer(Staging, false, true, n, s.next)))
  {
    var s2 := s.(dir := Some(p), procs := s.procs[p := Writer(Inside, true, false, 0, 0)]);
    var s3 := Staged(s, p, n, Writer(Created, true, false, n, s.next));
    var s4 := Staged(s, p, n, Writer(Locked, true, true, n, s.next));
    WriterCreates(s, p, n);
    AfterOne(s2, p, Create(n), s3, [LockFile] + ([ReleaseDir] + []));
    WriterLocks(s, p, n);
    AfterOne(s3, p, LockFile, s4, [ReleaseDir] + []);
    WriterReleases(s, p, n);
    AfterOne(s4, p, ReleaseDir, Staged(s, p, n, Writer(Staging, false, true, n, s.next)), []);
  }

  lemma WriterHasEnded(s: State, p: Pid, n: nat, target: string)
    requires s.dir.None? && s.next !in s.locks && Temp(n) !in s.files
    ensures After(Staged(s, p, n, Writer(Staging, false, true, n, s.next)), p, Ending(target)) ==
            Some(Done(s, p, n, target, Writer(Gone, false, false, n, s.next)))
  {
    var s5 := Staged(s, p, n, Writer(Staging, false, true, n, s.next));
    var s6 := Done(s, p, n, target, Writer(Published, false, true, n, s.next));
    var s7 := Done(s, p, n, target, Writer(Leaving, false, false, n, s.next));
    WriterPublishes(s, p, n, target);
    AfterOne(s5, p, Publish(target), s6, [Close] + ([Unlink] + []));
    WriterCloses(s, p, n, target);
    AfterOne(s6, p, Close, s7, [Unlink] + []);
    WriterLeaves(s, p, n, target);
    AfterOne(s7, p, Unlink, Done(s, p, n, target, Writer(Gone, false, false, n, s.next)), []);
  }

  /** A writer that nothing disturbs, whatever else goes on: in the end a new file is published under its name, no
      lock and no staging file is left, and nothing else has changed. */
  lemma WriterGoesThrough(s: State, p: Pid, n: nat, target: string)
    requires NamesAgree(s) && p !in s.procs && s.dir.None? && n !in s.used && s.next !in s.locks
    ensures After(s, p, Entering() + (Making(n) + Ending(target))) ==
            Some(Done(s, p, n, target, Writer(Gone, false, false, n, s.next)))
  {
    var inside := s.(dir := Some(p), procs := s.procs[p := Writer(Inside, true, false, 0, 0)]);
    var staged := Staged(s, p, n, Writer(Staging, false, true, n, s.next));
    WriterIsInside(s, p);
    WriterHasStaged(s, p, n);
    WriterHasEnded(s, p, n, target);
    AfterAppend(s, p, Entering(), inside, Making(n) + Ending(target));
    AfterAppend(inside, p, Making(n), staged, Ending(target));
  }

  // ----- so does a clone -----

  /** The state with a clone made up to that point: what is under the staging name, which lock is held. */
  function Cloning(s: State, p: Pid, me: Proc, file: Option<Inode>, locked: Option<Inode>): State
    requires p in s.procs
  {
    var was := s.procs[p];
    State(if file.Some? then s.files[Temp(was.temp) := file.value] else s.files - {Temp(was.temp)},
          if locked.Some? then (s.locks - {was.inode})[locked.value := p] else s.locks - {was.inode},
          if me.inDir then Some(p) else None, s.procs[p := me],
          if me.inode == s.next then s.used + {was.temp} else s.used,
          if me.inode == s.next then s.owner[was.temp := p] else s.owner,
          if me.inode == s.next then s.next + 1 else s.next)
  }

  /** A writer that has staged a file and may clone over it. */
  ghost predicate CanClone(s: State, p: Pid) {
    && p in s.procs && ProcOk(s, p, s.procs[p]) && s.procs[p].at == Staging && s.dir.None?
    && s.next !in s.locks && s.procs[p].inode < s.next
  }

  lemma CloneEnters(s: State, p: Pid)
    requires CanClone(s, p)
    ensures var me := s.procs[p];
            var inside := s.(dir := Some(p), procs := s.procs[p := me.(at := CloneInside, inDir := true)]);
            && Apply(s, p, BeginClone) == Some(s.(procs := s.procs[p := me.(at := CloneWaiting)]))
            && Apply(s.(procs := s.procs[p := me.(at := CloneWaiting)]), p, TakeDir) == Some(inside)
  {
    var me := s.procs[p];
    var inside := me.(at := CloneInside, inDir := true);
    assert s.procs[p := me.(at := CloneWaiting)][p := inside] == s.procs[p := inside];
  }

  lemma CloneCloses(s: State, p: Pid)
    requires CanClone(s, p)
    ensures var me := s.procs[p].(inDir := true);
            Apply(s.(dir := Some(p), procs := s.procs[p := me.(at := CloneInside)]), p, CloneClose) ==
            Some(Cloning(s, p, me.(at := CloneClosed, locked := false), Some(me.inode), None))
  {
    var me := s.procs[p].(inDir := true);
    var closed := me.(at := CloneClosed, locked := false);
    assert s.procs[p := me.(at := CloneInside)][p := closed] == s.procs[p := closed];
    assert s.files[Temp(me.temp) := me.inode] == s.files;
  }

  lemma CloneUnlinks(s: State, p: Pid)
    requires CanClone(s, p)
    ensures var me := s.procs[p].(inDir := true, locked := false);
            Apply(Cloning(s, p, me.(at := CloneClosed), Some(me.inode), None), p, CloneUnlink) ==
            Some(Cloning(s, p, me.(at := CloneUnlinked), None, None))
  {
    var me := s.procs[p].(inDir := true, locked := false);
    var closed, unlinked := me.(at := CloneClosed), me.(at := CloneUnlinked);
    assert s.procs[p := closed][p := unlinked] == s.procs[p := unlinked];
    assert s.files[Temp(me.temp) := me.inode] - {Temp(me.temp)} == s.files - {Temp(me.temp)};
  }

  lemma CloneCreates(s: State, p: Pid)
    requires CanClone(s, p)
    ensures var me := s.procs[p].(inDir := true, locked := false);
            Apply(Cloning(s, p, me.(at := CloneUnlinked), None, None), p, CloneCreate) ==
            Some(Cloning(s, p, me.(at := Created, inode := s.next), Some(s.next), None))
  {
    var me := s.procs[p].(inDir := true, locked := false);
    var unlinked, created := me.(at := CloneUnlinked), me.(at := Created, inode := s.next);
    assert s.procs[p := unlinked][p := created] == s.procs[p := created];
    assert (s.files - {Temp(me.temp)})[Temp(me.temp) := s.next] == s.files[Temp(me.temp) := s.next];
  }

  lemma CloneLocks(s: State, p: Pid)
    requires CanClone(s, p)
    ensures var me := s.procs[p].(inode := s.next);
            Apply(Cloning(s, p, me.(at := Created, inDir := true, locked := false), Some(s.next), None), p, LockFile) ==
            Some(Cloning(s, p, me.(at := Locked, inDir := true, locked := true), Some(s.next), Some(s.next)))
  {
    var me := s.procs[p].(inode := s.next);
    var created, locked := me.(at := Created, inDir := true, locked := false),
                           me.(at := Locked, inDir := true, locked := true);
    assert s.procs[p := created][p := locked] == s.procs[p := locked];
  }

  lemma CloneReleases(s: State, p: Pid)
    requires CanClone(s, p)
    ensures var me := s.procs[p].(inode := s.next);
            Apply(Cloning(s, p, me.(at := Locked, inDir := true), Some(s.next), Some(s.next)), p, ReleaseDir) ==
            Some(Cloning(s, p, me, Some(s.next), Some(s.next)))
  {
    var me := s.procs[p].(inode := s.next);
    assert s.procs[p := me.(at := Locked, inDir := true)][p := me] == s.procs[p := me];
  }

  function Opening(): seq<Action> {
    [BeginClone] + ([TakeDir] + [])
  }

  function LettingGo(): seq<Action> {
    [CloneClose] + ([CloneUnlink] + [])
  }

  function Remaking(): seq<Action> {
    [CloneCreate] + ([LockFile] + ([ReleaseDir] + []))
  }

  lemma CloneOpens(s: State, p: Pid)
    requires CanClone(s, p)
    ensures After(s, p, Opening()) ==
            Some(s.(dir := Some(p), procs := s.procs[p := s.procs[p].(at := CloneInside, inDir := true)]))
  {
    var me := s.procs[p];
    var s1 := s.(procs := s.procs[p := me.(at := CloneWaiting)]);
    CloneEnters(s, p);
    AfterOne(s, p, BeginClone, s1, [TakeDir] + []);
    AfterOne(s1, p, TakeDir, s.(dir := Some(p), procs := s.procs[p := me.(at := CloneInside, inDir := true)]), []);
  }

  lemma CloneLetsGo(s: State, p: Pid)
    requires CanClone(s, p)
    ensures var me := s.procs[p].(inDir := true, locked := false);
            var s2 := s.(dir := Some(p), procs := s.procs[p := s.procs[p].(at := CloneInside, inDir := true)]);
            After(s2, p, LettingGo()) == Some(Cloning(s, p, me.(at := CloneUnlinked), None, None))
  {
    var me := s.procs[p].(inDir := true, locked := false);
    var s2 := s.(dir := Some(p), procs := s.procs[p := s.procs[p].(at := CloneInside, inDir := true)]);
    var s3 := Cloning(s, p, me.(at := CloneClosed), Some(me.inode), None);
    CloneCloses(s, p);
    AfterOne(s2, p, CloneClose, s3, [CloneUnlink] + []);
    CloneUnlinks(s, p);
    AfterOne(s3, p, CloneUnlink, Cloning(s, p, me.(at := CloneUnlinked), None, None), []);
  }

  lemma CloneRemakes(s: State, p: Pid)
    requires CanClone(s, p)
    ensures var me := s.procs[p].(inDir := true, locked := false, at := CloneUnlinked);
            After(Cloning(s, p, me, None, None), p, Remaking()) ==
            Some(Cloning(s, p, s.procs[p].(inode := s.next), Some(s.next), Some(s.next)))
  {
    var me := s.procs[p].(inode := s.next);
    var s4 := Cloning(s, p, s.procs[p].(inDir := true, locked := false, at := CloneUnlinked), None, None);
    var s5 := Cloning(s, p, me.(at := Created, inDir := true, locked := false), Some(s.next), None);
    var s6 := Cloning(s, p, me.(at := Locked, inDir := true), Some(s.next), Some(s.next));
    CloneCreates(s, p);
    AfterOne(s4, p, CloneCreate, s5, [LockFile] + ([ReleaseDir] + []));
    CloneLocks(s, p);
    AfterOne(s5, p, LockFile, s6, [ReleaseDir] + []);
    CloneReleases(s, p);
    AfterOne(s6, p, ReleaseDir, Cloning(s, p, me, Some(s.next), Some(s.next)), []);
  }

  /** A clone that nothing disturbs puts a new file, locked by the writer, under the same staging name; the writer
      stages on as before, and nothing else has changed. */
  lemma CloneGoesThrough(s: State, p: Pid)
    requires CanClone(s, p)
    ensures After(s, p, Opening() + (LettingGo() + Remaking())) ==
            Some(Cloning(s, p, s.procs[p].(inode := s.next), Some(s.next), Some(s.next)))
  {
    var inside := s.(dir := Some(p), procs := s.procs[p := s.procs[p].(at := CloneInside, inDir := true)]);
    var unlinked := Cloning(s, p, s.procs[p].(inDir := true, locked := false, at := CloneUnlinked), None, None);
    CloneOpens(s, p);
    CloneLetsGo(s, p);
    CloneRemakes(s, p);
    AfterAppend(s, p, Opening(), inside, LettingGo() + Remaking());
    AfterAppend(inside, p, LettingGo(), unlinked, Remaking());
  }

  // ----- a cleaner never blocks -----

  predicate IsSweeping(at: Point) {
    at == Sweeping || at == SweepOpen || at == SweepLocked || at == SweepUnlinked
  }

  /** A bound on the calls a sweep has still to make. */
  function CallsLeft(me: Proc): nat {
    4 * |me.todo| + match me.at
                    case Swept => 0
                    case Sweeping => 1
                    case SweepUnlinked => 2
                    case SweepLocked => 3
                    case _ => 4
  }

  /** The next call of a sweep. */
  function NextCall(me: Proc, n: nat): Action {
    match me.at
    case SweepOpen => LockTemp
    case SweepLocked => UnlinkTemp
    case SweepUnlinked => UnlockTemp
    case _ => if me.todo == {} then EndSweep else OpenTemp(n)
  }

  lemma OneFewer(todo: set<nat>, n: nat)
    requires n in todo
    ensures |todo - {n}| == |todo| - 1
  {
  }

  predicate Nearer(me: Proc, e: Option<Effect>) {
    e.Some? && CallsLeft(e.value.me) < CallsLeft(me) && (IsSweeping(e.value.me.at) || e.value.me.at == Swept)
  }

  lemma OpeningIsMade(s: State, me: Proc, n: nat)
    requires me.at == Sweeping && n in me.todo
    ensures Nearer(me, Cleaning(s, me, OpenTemp(n)))
  {
    OneFewer(me.todo, n);
  }

  lemma OtherCallIsMade(s: State, me: Proc, n: nat)
    requires IsSweeping(me.at) && (me.at == Sweeping ==> me.todo == {})
    ensures Nearer(me, Cleaning(s, me, NextCall(me, n)))
  {
  }

  /** Whatever the others do, a cleaner that has listed the directory can make its next call and is then nearer to
      its end; so it ends. */
  lemma CleanerGoesOn(s: State, p: Pid, n: nat)
    requires p in s.procs && IsSweeping(s.procs[p].at)
    requires s.procs[p].at == Sweeping && s.procs[p].todo != {} ==> n in s.procs[p].todo
    ensures var s' := Apply(s, p, NextCall(s.procs[p], n));
            && s'.Some? && CallsLeft(s'.value.procs[p]) < CallsLeft(s.procs[p])
            && (IsSweeping(s'.value.procs[p].at) || s'.value.procs[p].at == Swept)
  {
    var me := s.procs[p];
    if me.at == Sweeping && me.todo != {} {
      OpeningIsMade(s, me, n);
    } else {
      OtherCallIsMade(s, me, n);
    }
  }

  // ----- a writer that ends leaves no staging file -----

  /** A writer that has removed its staging file keeps its name to itself. */
  ghost predicate WithdrawnOk(s: State, p: Pid, me: Proc) {
    me.at == Withdrawn ==> me.temp in s.owner && s.owner[me.temp] == p && Temp(me.temp) !in s.files
  }

  lemma EffectKeepsWithdrawn(s: State, p: Pid, e: Effect, q: Pid)
    requires NamesAgree(s) && p in s.procs && ProcOk(s, p, s.procs[p]) && Lawful(s, s.procs[p], e)
    requires q in s.procs && WithdrawnOk(s, q, s.procs[q])
    ensures var s' := Perform(s, p, e); WithdrawnOk(s', q, s'.procs[q])
  {
  }

  lemma StepKeepsWithdrawn(s: State, p: Pid, action: Action)
    requires Inv(s) && Apply(s, p, action).Some? && forall q | q in s.procs :: WithdrawnOk(s, q, s.procs[q])
    ensures var s' := Apply(s, p, action).value; forall q | q in s'.procs :: WithdrawnOk(s', q, s'.procs[q])
  {
    var s' := Apply(s, p, action).value;
    forall q | q in s'.procs
      ensures WithdrawnOk(s', q, s'.procs[q])
    {
      if p in s.procs {
        assert ProcOk(s, p, s.procs[p]);
        DecisionsAreLawful(s, s.procs[p], action);
        EffectKeepsWithdrawn(s, p, Decide(s, s.procs[p], action).value, q);
      } else if q != p {
        assert WithdrawnOk(s, q, s.procs[q]);
      }
    }
  }

  lemma {:induction false} AlwaysWithdrawn(states: seq<State>, events: seq<(Pid, Action)>, i: nat)
    requires Execution(states, events) && i < |states|
    ensures forall q | q in states[i].procs :: WithdrawnOk(states[i], q, states[i].procs[q])
  {
    if i > 0 {
      assert StepAt(states, events, i - 1);
      AlwaysWithdrawn(states, events, i - 1);
      ReachableIsConsistent(states, events, i - 1);
      StepKeepsWithdrawn(states[i - 1], events[i - 1].0, events[i - 1].1);
    }
  }

  lemma WritingIsNoEnd(s: State, me: Proc, action: Action)
    requires Writing(s, me, action).Some?
    ensures Writing(s, me, action).value.me.at != Gone
  {
  }

  lemma FinishingEnds(s: State, me: Proc, action: Action)
    requires Finishing(s, me, action).Some? && me.at != Inside && Finishing(s, me, action).value.me.at == Gone
    ensures (me.at == Leaving && Finishing(s, me, action).value.file == DropTemp(me.temp)) ||
            (me.at == Withdrawn && Finishing(s, me, action).value.file == KeepFiles)
  {
  }

  lemma EndsByUnlinkOrClose(s: State, me: Proc, action: Action)
    requires Decide(s, me, action).Some? && action != Crash && me.at != Inside && !IsCleaner(me.at)
    requires Decide(s, me, action).value.me.at == Gone
    ensures (me.at == Leaving && Decide(s, me, action).value.file == DropTemp(me.temp)) ||
            (me.at == Withdrawn && Decide(s, me, action).value.file == KeepFiles)
  {
    if StillWriting(me.at) && Writing(s, me, action).Some? {
      WritingIsNoEnd(s, me, action);
    } else {
      FinishingEnds(s, me, action);
    }
  }

  /** In every execution, a writer that had a staging name and ends otherwise than by a crash, whether it published or
      failed, leaves no file under that name. */
  lemma EndedWriterLeavesNothing(states: seq<State>, events: seq<(Pid, Action)>, i: nat, p: Pid)
    requires Execution(states, events) && i < |events| && events[i].0 == p && events[i].1 != Crash
    requires p in states[i].procs && states[i].procs[p].at != Inside && !IsCleaner(states[i].procs[p].at)
    requires p in states[i + 1].procs && states[i + 1].procs[p].at == Gone
    ensures Temp(states[i].procs[p].temp) !in states[i + 1].files
  {
    assert StepAt(states, events, i);
    AlwaysWithdrawn(states, events, i);
    EndsByUnlinkOrClose(states[i], states[i].procs[p], events[i].1);
  }
}
