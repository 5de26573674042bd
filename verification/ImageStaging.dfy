/**
  Staging files of the image cache.  Any number of processes write, clone, publish, clean up and
  crash, one system call at a time and in any order.  A directory lock is held while a staging file
  is created, replaced or swept; each live staging file is locked by its writer.  Locks belong to
  inodes and vanish with their process; names of staging files are never used twice.
 */
module ImageStaging {
  import opened Common

  type Pid = nat
  type Inode = nat

  datatype Name = Temp(n: nat) | Final(target: string)

  /** Where a process stands.  A failed system call leads to Failing, Leaving, Withdrawn or Gone. */
  datatype Point =
    // a writer
    | Waiting | Inside | Created | Locked | Staging
    | CloneWaiting | CloneInside | CloneClosed | CloneUnlinked
    | Failing | Leaving | Withdrawn | Published
    // a cleaner
    | SweepWaiting | SweepInside | Sweeping | SweepOpen | SweepLocked | SweepUnlinked | Swept
    | Gone

  /** `inDir` and `locked` say whether the process has the directory and the file at hand locked;
      `temp` and `inode` are that file; `todo` is what a cleaner has still to look at, and `orphans`
      what was abandoned when it listed the directory. */
  datatype Proc = Proc(
    at: Point, inDir: bool, locked: bool, temp: nat, inode: Inode, todo: set<nat>, orphans: set<nat>)

  /** `owner` says which process created a staging name; names left by an earlier crash have none. */
  datatype State = State(
    files: map<Name, Inode>,
    locks: map<Inode, Pid>,
    dir: Option<Pid>,
    procs: map<Pid, Proc>,
    used: set<nat>,
    owner: map<nat, Pid>,
    next: Inode)

  datatype Action =
    | BeginWrite | TakeDir | Create(n: nat) | LockFile | ReleaseDir
    | BeginClone | CloneClose | CloneUnlink | CloneCreate
    | Fail | Unlink | Withdraw | Close | Publish(target: string)
    | BeginSweep | List | OpenTemp(n: nat) | LockTemp | UnlinkTemp | UnlockTemp | EndSweep
    | Crash

  /** The writer counts on a locked staging file. */
  predicate HasTemp(at: Point) {
    at == Locked || at == Staging || at == CloneWaiting || at == CloneInside
  }

  /** The writer will still use its staging name. */
  predicate Owns(at: Point) {
    HasTemp(at) || at == Created || at == CloneClosed || at == CloneUnlinked
  }

  /** The process may still act on its staging name. */
  predicate Names(at: Point) {
    Owns(at) || at == Failing || at == Leaving || at == Published
  }

  /** A staging file that no live writer will use again. */
  predicate Abandoned(s: State, n: nat) {
    Temp(n) in s.files && Ownerless(s, n)
  }

  predicate Ownerless(s: State, n: nat) {
    !(n in s.owner && s.owner[n] in s.procs && s.procs[s.owner[n]].temp == n && Owns(s.procs[s.owner[n]].at))
  }

  function TempsIn(s: State): set<nat> {
    set name | name in s.files && name.Temp? :: name.n
  }

  function Orphans(s: State): set<nat> {
    set n | n in TempsIn(s) && Abandoned(s, n)
  }

  // ----- what one system call does to the tables -----

  datatype DirEffect = KeepDir | TakeIt | DropIt
  datatype LockEffect = KeepLocks | LockIt | UnlockIt
  datatype FileEffect = KeepFiles | AddTemp(n: nat) | DropTemp(n: nat) | Rename(n: nat, target: string)

  /** The process after the call, and what happened to the directory lock, its file lock and the names. */
  datatype Effect = Effect(me: Proc, dir: DirEffect, lock: LockEffect, file: FileEffect)

  function Files(s: State, f: FileEffect): map<Name, Inode> {
    match f
    case KeepFiles => s.files
    case AddTemp(n) => s.files[Temp(n) := s.next]
    case DropTemp(n) => s.files - {Temp(n)}
    case Rename(n, target) =>
      if Temp(n) in s.files then (s.files - {Temp(n)})[Final(target) := s.files[Temp(n)]] else s.files
  }

  function Perform(s: State, p: Pid, e: Effect): State {
    State(
      Files(s, e.file),
      match e.lock
      case KeepLocks => s.locks
      case LockIt => s.locks[e.me.inode := p]
      case UnlockIt => s.locks - {e.me.inode},
      match e.dir
      case KeepDir => s.dir
      case TakeIt => Some(p)
      case DropIt => None,
      s.procs[p := e.me],
      if e.file.AddTemp? then s.used + {e.file.n} else s.used,
      if e.file.AddTemp? then s.owner[e.file.n := p] else s.owner,
      if e.file.AddTemp? then s.next + 1 else s.next)
  }

  function Move(me: Proc): Option<Effect> {
    Some(Effect(me, KeepDir, KeepLocks, KeepFiles))
  }

  function TakeDirAt(me: Proc): Option<Effect> {
    Some(Effect(me.(inDir := true), TakeIt, KeepLocks, KeepFiles))
  }

  function DropDirAt(me: Proc): Option<Effect> {
    Some(Effect(me.(inDir := false), DropIt, KeepLocks, KeepFiles))
  }

  function UnlockAt(me: Proc): Option<Effect> {
    if me.locked then Some(Effect(me.(locked := false), KeepDir, UnlockIt, KeepFiles)) else Move(me)
  }

  /** Creating and locking a staging file inside the directory lock; replacing it by a clone of the
      source under the same name. */
  function Writing(s: State, me: Proc, action: Action): Option<Effect> {
    match action
    case TakeDir =>
      if s.dir.Some? then None
      else if me.at == Waiting then TakeDirAt(me.(at := Inside))
      else if me.at == CloneWaiting then TakeDirAt(me.(at := CloneInside))
      else None
    case Create(n) =>
      if me.at == Inside && n !in s.used
      then Some(Effect(me.(at := Created, temp := n, inode := s.next), KeepDir, KeepLocks, AddTemp(n))) else None
    case LockFile =>
      if me.at == Created && me.inode !in s.locks
      then Some(Effect(me.(at := Locked, locked := true), KeepDir, LockIt, KeepFiles)) else None
    case ReleaseDir =>
      if me.at == Locked then DropDirAt(me.(at := Staging)) else None
    case BeginClone =>
      if me.at == Staging then Move(me.(at := CloneWaiting)) else None
    case CloneClose =>
      if me.at == CloneInside then UnlockAt(me.(at := CloneClosed)) else None
    case CloneUnlink =>
      if me.at == CloneClosed
      then Some(Effect(me.(at := CloneUnlinked), KeepDir, KeepLocks, DropTemp(me.temp))) else None
    case CloneCreate =>
      if me.at == CloneUnlinked
      then Some(Effect(me.(at := Created, inode := s.next), KeepDir, KeepLocks, AddTemp(me.temp))) else None
    case _ => None
  }

  /** The end of staging: published and closed; or, after an error, closed and removed in either order. */
  function Finishing(s: State, me: Proc, action: Action): Option<Effect> {
    match action
    case Publish(target) =>
      if me.at == Staging && Temp(me.temp) in s.files
      then Some(Effect(me.(at := Published), KeepDir, KeepLocks, Rename(me.temp, target))) else None
    case Fail =>
      if me.at == Inside then DropDirAt(me.(at := Gone))
      else if Owns(me.at) && me.inDir then UnlockAt(me.(at := Failing))
      else None
    case ReleaseDir =>
      if me.at == Failing then DropDirAt(me.(at := Leaving)) else None
    case Close =>
      if me.at == Staging || me.at == CloneWaiting || me.at == Published then UnlockAt(me.(at := Leaving))
      else if me.at == Withdrawn then UnlockAt(me.(at := Gone))
      else None
    case Withdraw =>
      if me.at == Staging || me.at == CloneWaiting
      then Some(Effect(me.(at := Withdrawn), KeepDir, KeepLocks, DropTemp(me.temp))) else None
    case Unlink =>
      if me.at == Failing then Some(Effect(me, KeepDir, KeepLocks, DropTemp(me.temp)))
      else if me.at == Leaving then Some(Effect(me.(at := Gone), KeepDir, KeepLocks, DropTemp(me.temp)))
      else None
    case _ => None
  }

  /** The cleaner: list, then open, try to lock, remove and unlock each name. */
  function Cleaning(s: State, me: Proc, action: Action): Option<Effect> {
    match action
    case TakeDir =>
      if s.dir.None? && me.at == SweepWaiting then TakeDirAt(me.(at := SweepInside)) else None
    case List =>
      if me.at == SweepInside then Move(me.(at := Sweeping, todo := TempsIn(s), orphans := Orphans(s))) else None
    case OpenTemp(n) =>
      if me.at != Sweeping || n !in me.todo then None
      else if Temp(n) in s.files
      then Move(me.(at := SweepOpen, todo := me.todo - {n}, temp := n, inode := s.files[Temp(n)]))
      else Move(me.(todo := me.todo - {n}))
    case LockTemp =>
      if me.at != SweepOpen then None
      else if me.inode in s.locks then Move(me.(at := Sweeping))
      else Some(Effect(me.(at := SweepLocked, locked := true), KeepDir, LockIt, KeepFiles))
    case UnlinkTemp =>
      if me.at == SweepLocked
      then Some(Effect(me.(at := SweepUnlinked), KeepDir, KeepLocks, DropTemp(me.temp))) else None
    case UnlockTemp =>
      if me.at == SweepUnlinked then UnlockAt(me.(at := Sweeping)) else None
    case EndSweep =>
      if me.at == Sweeping && me.todo == {} then DropDirAt(me.(at := Swept)) else None
    case _ => None
  }

  /** A crash; for a cleaner also any error, since its descriptors are closed and it stops. */
  function Dying(me: Proc): Effect {
    Effect(me.(at := Gone, inDir := false, locked := false),
           if me.inDir then DropIt else KeepDir, if me.locked then UnlockIt else KeepLocks, KeepFiles)
  }

  predicate IsCleaner(at: Point) {
    || at == SweepWaiting || at == SweepInside || at == Sweeping || at == SweepOpen || at == SweepLocked
    || at == SweepUnlinked || at == Swept
  }

  predicate StillWriting(at: Point) {
    at == Waiting || at == Inside || Owns(at)
  }

  /** The next call of a process; None when it is not at that call. */
  function Decide(s: State, me: Proc, action: Action): Option<Effect> {
    if action == Crash then Some(Dying(me))
    else if IsCleaner(me.at) then Cleaning(s, me, action)
    else if StillWriting(me.at) && Writing(s, me, action).Some? then Writing(s, me, action)
    else Finishing(s, me, action)
  }

  /** One step of the whole system. */
  function Apply(s: State, p: Pid, action: Action): Option<State> {
    if p in s.procs then
      var e := Decide(s, s.procs[p], action);
      if e.Some? then Some(Perform(s, p, e.value)) else None
    else if action == BeginWrite || action == BeginSweep then
      Some(s.(procs := s.procs[p := Proc(if action == BeginWrite then Waiting else SweepWaiting,
                                         false, false, 0, 0, {}, {})]))
    else None
  }

  // ----- the invariant -----

  /** The locks that go with each point. */
  predicate LocksOfPoint(me: Proc) {
    && (me.locked <==> HasTemp(me.at) || me.at == Published || me.at == Withdrawn || me.at == SweepLocked ||
                       me.at == SweepUnlinked)
    && (me.inDir <==> me.at == Inside || me.at == Created || me.at == Locked || me.at == CloneInside ||
                      me.at == CloneClosed || me.at == CloneUnlinked || me.at == Failing || me.at == SweepInside ||
                      me.at == Sweeping || me.at == SweepOpen || me.at == SweepLocked || me.at == SweepUnlinked)
  }

  /** The process holds the locks it believes it holds. */
  ghost predicate HolderOk(s: State, p: Pid, me: Proc) {
    && LocksOfPoint(me)
    && (me.inDir <==> s.dir == Some(p))
    && (me.locked ==> me.inode in s.locks && s.locks[me.inode] == p)
  }

  /** Every lock is held by a process that believes so. */
  ghost predicate LockOk(s: State, i: Inode)
    requires i in s.locks
  {
    i < s.next && s.locks[i] in s.procs && s.procs[s.locks[i]].locked && s.procs[s.locks[i]].inode == i
  }

  /** A writer's name is its own, and what it holds is where it put it. */
  ghost predicate WriterOk(s: State, p: Pid, me: Proc) {
    && (Names(me.at) ==> me.temp in s.owner && s.owner[me.temp] == p)
    && (HasTemp(me.at) || me.at == Created ==> Temp(me.temp) in s.files && s.files[Temp(me.temp)] == me.inode)
    && (me.at == Created ==> me.inode !in s.locks && me.inode < s.next)
    && (me.at == Published || me.at == CloneUnlinked ==> Temp(me.temp) !in s.files)
    && (me.at == Published || me.at == Withdrawn ==>
          forall n | Temp(n) in s.files :: s.files[Temp(n)] != me.inode)
  }

  /** What the cleaner has open is the file under that name, or the name is gone. */
  ghost predicate SweeperOk(s: State, me: Proc) {
    me.at == SweepOpen || me.at == SweepLocked ==>
      && me.inode < s.next && me.temp in s.used
      && (Temp(me.temp) in s.files ==> s.files[Temp(me.temp)] == me.inode)
  }

  ghost predicate ProcOk(s: State, p: Pid, me: Proc) {
    HolderOk(s, p, me) && WriterOk(s, p, me) && SweeperOk(s, me)
  }

  ghost predicate NamesAgree(s: State) {
    && (forall name | name in s.files :: s.files[name] < s.next && (name.Temp? ==> name.n in s.used))
    && s.owner.Keys <= s.used
    && (forall a, b | a in s.files && b in s.files && s.files[a] == s.files[b] :: a == b)
  }

  ghost predicate Inv(s: State) {
    && NamesAgree(s)
    && (s.dir.Some? ==> s.dir.value in s.procs)
    && (forall p | p in s.procs :: ProcOk(s, p, s.procs[p]))
    && (forall i | i in s.locks :: LockOk(s, i))
  }

  /** No process yet; the directory may hold published files and the leftovers of earlier crashes,
      each under one name. */
  ghost predicate Init(s: State) {
    s.procs == map[] && s.locks == map[] && s.dir.None? && s.owner == map[] && NamesAgree(s)
  }

  // ----- every effect is a lawful one -----

  predicate LawfulLocks(s: State, me: Proc, e: Effect) {
    && LocksOfPoint(e.me)
    && (match e.dir
        case KeepDir => e.me.inDir == me.inDir
        case TakeIt => s.dir.None? && e.me.inDir
        case DropIt => me.inDir && !e.me.inDir)
    && (match e.lock
        case KeepLocks => e.me.locked == me.locked && (me.locked ==> e.me.inode == me.inode)
        case LockIt => e.me.inode !in s.locks && !me.locked && e.me.locked && me.inDir && e.me.inode == me.inode &&
                       (me.at == Created || me.at == SweepOpen)
        case UnlockIt => me.locked && !e.me.locked && e.me.inode == me.inode)
  }

  predicate LawfulFile(s: State, me: Proc, e: Effect) {
    match e.file
    case KeepFiles => true
    case AddTemp(n) =>
      && me.inDir && e.me.inDir && e.lock == KeepLocks
      && e.me.at == Created && e.me.temp == n && e.me.inode == s.next
      && (n !in s.used || (me.at == CloneUnlinked && me.temp == n))
    case DropTemp(n) =>
      && me.temp == n && e.lock == KeepLocks && e.me.inode == me.inode && e.me.temp == me.temp
      && (Names(me.at) || me.at == SweepLocked)
      && (e.me.at == Withdrawn ==> HasTemp(me.at))
    case Rename(n, _) =>
      me.temp == n && me.at == Staging && Temp(n) in s.files && e.lock == KeepLocks &&
      e.me.at == Published && e.me.temp == n && e.me.inode == me.inode
  }

  predicate LawfulRole(s: State, me: Proc, e: Effect) {
    var next := e.me;
    && (Names(next.at) ==> (Names(me.at) && next.temp == me.temp) || e.file == AddTemp(next.temp))
    && (Owns(next.at) ==> (Owns(me.at) && next.temp == me.temp) || (me.at == Inside && e.file == AddTemp(next.temp)))
    && (HasTemp(next.at) ==> (HasTemp(me.at) || me.at == Created) && next.temp == me.temp && next.inode == me.inode &&
                             e.file == KeepFiles)
    && (next.at == Created ==> e.file == AddTemp(next.temp))
    && (next.at == Published ==> e.file.Rename?)
    && (next.at == Withdrawn ==> e.file == DropTemp(me.temp))
    && (next.at == CloneUnlinked ==> e.file == DropTemp(next.temp))
    && (next.at == SweepOpen ==> e.file == KeepFiles && e.lock == KeepLocks &&
                                 Temp(next.temp) in s.files && s.files[Temp(next.temp)] == next.inode)
    && (next.at == SweepLocked ==> e.file == KeepFiles && me.at == SweepOpen &&
                                   next.temp == me.temp && next.inode == me.inode)
  }

  predicate Lawful(s: State, me: Proc, e: Effect) {
    LawfulLocks(s, me, e) && LawfulFile(s, me, e) && LawfulRole(s, me, e)
  }

  lemma WritingIsLawful(s: State, me: Proc, action: Action)
    requires LocksOfPoint(me) && Writing(s, me, action).Some?
    ensures Lawful(s, me, Writing(s, me, action).value)
  {
  }

  lemma FinishingIsLawful(s: State, me: Proc, action: Action)
    requires LocksOfPoint(me) && Finishing(s, me, action).Some?
    ensures Lawful(s, me, Finishing(s, me, action).value)
  {
  }

  lemma CleaningIsLawful(s: State, me: Proc, action: Action)
    requires LocksOfPoint(me) && Cleaning(s, me, action).Some?
    ensures Lawful(s, me, Cleaning(s, me, action).value)
  {
  }

  lemma DecisionsAreLawful(s: State, me: Proc, action: Action)
    requires LocksOfPoint(me) && Decide(s, me, action).Some?
    ensures Lawful(s, me, Decide(s, me, action).value)
  {
    if action != Crash {
      if IsCleaner(me.at) {
        CleaningIsLawful(s, me, action);
      } else if StillWriting(me.at) && Writing(s, me, action).Some? {
        WritingIsLawful(s, me, action);
      } else {
        FinishingIsLawful(s, me, action);
      }
    }
  }

  // ----- lawful effects keep the invariant -----

  lemma EffectKeepsNames(s: State, p: Pid, e: Effect)
    requires NamesAgree(s) && p in s.procs && Lawful(s, s.procs[p], e)
    ensures NamesAgree(Perform(s, p, e))
  {
  }

  lemma EffectKeepsSelf(s: State, p: Pid, e: Effect)
    requires NamesAgree(s) && p in s.procs && ProcOk(s, p, s.procs[p]) && Lawful(s, s.procs[p], e)
    requires forall i | i in s.locks :: i < s.next
    ensures ProcOk(Perform(s, p, e), p, e.me)
  {
  }

  lemma EffectKeepsOthers(s: State, p: Pid, e: Effect, q: Pid)
    requires NamesAgree(s) && p in s.procs && ProcOk(s, p, s.procs[p]) && Lawful(s, s.procs[p], e)
    requires q in s.procs && q != p && ProcOk(s, q, s.procs[q])
    requires forall i | i in s.locks :: i < s.next
    ensures ProcOk(Perform(s, p, e), q, s.procs[q])
  {
  }

  lemma EffectKeepsLock(s: State, p: Pid, e: Effect, i: Inode)
    requires NamesAgree(s) && p in s.procs && ProcOk(s, p, s.procs[p]) && Lawful(s, s.procs[p], e)
    requires i in Perform(s, p, e).locks && (i in s.locks ==> LockOk(s, i))
    ensures LockOk(Perform(s, p, e), i)
  {
  }

  lemma EffectKeepsInv(s: State, p: Pid, e: Effect)
    requires Inv(s) && p in s.procs && Lawful(s, s.procs[p], e)
    ensures Inv(Perform(s, p, e))
  {
    var s' := Perform(s, p, e);
    EffectKeepsNames(s, p, e);
    assert ProcOk(s, p, s.procs[p]);
    assert forall i | i in s.locks :: LockOk(s, i);
    forall q | q in s'.procs
      ensures ProcOk(s', q, s'.procs[q])
    {
      if q == p {
        EffectKeepsSelf(s, p, e);
      } else {
        EffectKeepsOthers(s, p, e, q);
      }
    }
    forall i | i in s'.locks
      ensures LockOk(s', i)
    {
      EffectKeepsLock(s, p, e, i);
    }
  }

  lemma StepKeepsInv(s: State, p: Pid, action: Action)
    requires Inv(s) && Apply(s, p, action).Some?
    ensures Inv(Apply(s, p, action).value)
  {
    if p in s.procs {
      assert ProcOk(s, p, s.procs[p]);
      DecisionsAreLawful(s, s.procs[p], action);
      EffectKeepsInv(s, p, Decide(s, s.procs[p], action).value);
    } else {
      NewcomerKeepsInv(s, p, action);
    }
  }

  lemma NewcomerKeepsInv(s: State, p: Pid, action: Action)
    requires Inv(s) && p !in s.procs && Apply(s, p, action).Some?
    ensures Inv(Apply(s, p, action).value)
  {
    var s' := Apply(s, p, action).value;
    forall q | q in s'.procs
      ensures ProcOk(s', q, s'.procs[q])
    {
      if q != p {
        assert ProcOk(s, q, s.procs[q]);
      }
    }
    forall i | i in s'.locks
      ensures LockOk(s', i)
    {
      assert LockOk(s, i);
    }
  }
}
