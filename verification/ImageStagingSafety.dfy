/** Whole executions of the staging protocol: what cleanup may remove, and what it must. */
module ImageStagingSafety {
  import opened Common
  import opened ImageStaging

  ghost predicate StepAt(states: seq<State>, events: seq<(Pid, Action)>, i: nat) {
    i < |events| && i + 1 < |states| && Apply(states[i], events[i].0, events[i].1) == Some(states[i + 1])
  }

  /** Any interleaving of the processes' calls and crashes. */
  ghost predicate Execution(states: seq<State>, events: seq<(Pid, Action)>) {
    && |states| == |events| + 1 && Init(states[0])
    && forall i: nat | i < |events| :: StepAt(states, events, i)
  }

  lemma {:induction false} ReachableIsConsistent(states: seq<State>, events: seq<(Pid, Action)>, i: nat)
    requires Execution(states, events) && i < |states|
    ensures Inv(states[i])
  {
    if i > 0 {
      assert StepAt(states, events, i - 1);
      ReachableIsConsistent(states, events, i - 1);
      StepKeepsInv(states[i - 1], events[i - 1].0, events[i - 1].1);
    }
  }

  // ----- what is never lost -----

  /** In every execution, a writer that is still staging finds its file under its name and locked by
      itself. */
  lemma StagingFileIsSafe(states: seq<State>, events: seq<(Pid, Action)>, i: nat, p: Pid)
    requires Execution(states, events) && i < |states|
    requires p in states[i].procs && HasTemp(states[i].procs[p].at)
    ensures var s := states[i]; var me := s.procs[p];
            && Temp(me.temp) in s.files && s.files[Temp(me.temp)] == me.inode
            && me.inode in s.locks && s.locks[me.inode] == p
  {
    ReachableIsConsistent(states, events, i);
    assert ProcOk(states[i], p, states[i].procs[p]);
  }

  /** The cleaner's lock and directory lock exclude every writer of the name. */
  lemma LockedBySweepIsAbandoned(s: State, p: Pid)
    requires p in s.procs && ProcOk(s, p, s.procs[p])
    requires s.procs[p].at == SweepLocked && Temp(s.procs[p].temp) in s.files
    requires forall q | q in s.procs :: ProcOk(s, q, s.procs[q])
    ensures Abandoned(s, s.procs[p].temp)
  {
    var n := s.procs[p].temp;
    if n in s.owner && s.owner[n] in s.procs {
      assert ProcOk(s, s.owner[n], s.procs[s.owner[n]]);
    }
  }

  lemma UnlinkDecision(s: State, me: Proc)
    requires Decide(s, me, UnlinkTemp).Some?
    ensures me.at == SweepLocked && Decide(s, me, UnlinkTemp).value.file == DropTemp(me.temp)
  {
  }

  lemma UnlinkedWasAbandoned(s: State, p: Pid, n: nat)
    requires Inv(s) && Apply(s, p, UnlinkTemp).Some?
    requires Temp(n) in s.files && Temp(n) !in Apply(s, p, UnlinkTemp).value.files
    ensures Abandoned(s, n)
  {
    UnlinkDecision(s, s.procs[p]);
    LockedBySweepIsAbandoned(s, p);
  }

  /** In every execution, a cleaner removes a staging name only when no live writer will use it again. */
  lemma CleanupRemovesOnlyAbandoned(states: seq<State>, events: seq<(Pid, Action)>, i: nat, n: nat)
    requires Execution(states, events) && i < |events| && events[i].1 == UnlinkTemp
    requires Temp(n) in states[i].files && Temp(n) !in states[i + 1].files
    ensures Abandoned(states[i], n)
  {
    assert StepAt(states, events, i);
    ReachableIsConsistent(states, events, i);
    UnlinkedWasAbandoned(states[i], events[i].0, n);
  }

  lemma OthersDoNotRename(s: State, me: Proc, action: Action)
    ensures Cleaning(s, me, action).Some? ==> !Cleaning(s, me, action).value.file.Rename?
    ensures Writing(s, me, action).Some? ==> !Writing(s, me, action).value.file.Rename?
  {
  }

  lemma OnlyPublishRenames(s: State, me: Proc, action: Action)
    requires Decide(s, me, action).Some? && Decide(s, me, action).value.file.Rename?
    ensures action == Publish(Decide(s, me, action).value.file.target)
  {
    OthersDoNotRename(s, me, action);
  }

  lemma EffectKeepsFinal(s: State, p: Pid, e: Effect, target: string)
    requires Final(target) in s.files && !(e.file.Rename? && e.file.target == target)
    ensures var files := Perform(s, p, e).files;
            Final(target) in files && files[Final(target)] == s.files[Final(target)]
  {
  }

  /** A published file stays until another one is published under its name. */
  lemma PublishedFileStays(s: State, p: Pid, action: Action, target: string)
    requires Apply(s, p, action).Some? && Final(target) in s.files && action != Publish(target)
    ensures var s' := Apply(s, p, action).value;
            Final(target) in s'.files && s'.files[Final(target)] == s.files[Final(target)]
  {
    if p in s.procs {
      var e := Decide(s, s.procs[p], action).value;
      if e.file.Rename? {
        OnlyPublishRenames(s, s.procs[p], action);
      }
      EffectKeepsFinal(s, p, e, target);
    }
  }

  lemma PublishDecision(s: State, me: Proc, target: string)
    requires Decide(s, me, Publish(target)).Some?
    ensures me.at == Staging && Temp(me.temp) in s.files
    ensures Decide(s, me, Publish(target)).value.file == Rename(me.temp, target)
  {
  }

  lemma PublishMovesFile(s: State, p: Pid, target: string)
    requires Inv(s) && Apply(s, p, Publish(target)).Some?
    ensures var s' := Apply(s, p, Publish(target)).value;
            && p in s.procs && Final(target) in s'.files && s'.files[Final(target)] == s.procs[p].inode
            && s.procs[p].at == Staging
  {
    PublishDecision(s, s.procs[p], target);
    assert ProcOk(s, p, s.procs[p]);
  }

  /** In every execution, what is published is the file the writer staged and still holds locked. */
  lemma PublishesStagedFile(states: seq<State>, events: seq<(Pid, Action)>, i: nat)
    requires Execution(states, events) && i < |events| && events[i].1.Publish?
    ensures var p := events[i].0;
            && p in states[i].procs && Final(events[i].1.target) in states[i + 1].files
            && states[i + 1].files[Final(events[i].1.target)] == states[i].procs[p].inode
            && states[i].procs[p].inode in states[i].locks && states[i].locks[states[i].procs[p].inode] == p
  {
    assert StepAt(states, events, i);
    ReachableIsConsistent(states, events, i);
    PublishMovesFile(states[i], events[i].0, events[i].1.target);
    StagingFileIsSafe(states, events, i, events[i].0);
  }

  // ----- what is always removed -----

  predicate SameTemp(s: State, s': State, n: nat) {
    Temp(n) in s.files && Temp(n) in s'.files && s'.files[Temp(n)] == s.files[Temp(n)]
  }

  predicate Retired(s: State, n: nat) {
    n in s.used && Ownerless(s, n)
  }

  lemma EffectKeepsRetired(s: State, p: Pid, e: Effect, n: nat)
    requires p in s.procs && ProcOk(s, p, s.procs[p]) && Lawful(s, s.procs[p], e) && Retired(s, n)
    ensures var s' := Perform(s, p, e);
            Retired(s', n) && (Temp(n) in s'.files ==> SameTemp(s, s', n))
  {
  }

  /** Once nobody will use a name, nobody ever will, and its file never comes back. */
  lemma RetiredStays(s: State, p: Pid, action: Action, n: nat)
    requires Inv(s) && Retired(s, n) && Apply(s, p, action).Some?
    ensures var s' := Apply(s, p, action).value;
            Retired(s', n) && (Temp(n) in s'.files ==> SameTemp(s, s', n))
  {
    if p in s.procs {
      assert ProcOk(s, p, s.procs[p]);
      DecisionsAreLawful(s, s.procs[p], action);
      EffectKeepsRetired(s, p, Decide(s, s.procs[p], action).value, n);
    }
  }

  predicate Looking(at: Point) {
    at == Sweeping || at == SweepOpen || at == SweepLocked || at == SweepUnlinked || at == Swept
  }

  /** What the cleaner set out to remove is still on its list, in its hands, or gone. */
  ghost predicate OnTrack(s: State, me: Proc) {
    Looking(me.at) ==> forall n | n in me.orphans ::
      && Retired(s, n)
      && (Temp(n) in s.files ==>
            me.at != Swept && (n in me.todo || ((me.at == SweepOpen || me.at == SweepLocked) && me.temp == n)))
  }

  /** Whoever has a staging file locked is its writer, or holds the directory. */
  lemma LockedTempHasOwner(s: State, n: nat)
    requires Inv(s) && Temp(n) in s.files
    ensures s.files[Temp(n)] in s.locks ==>
              var h := s.locks[s.files[Temp(n)]];
              && h in s.procs && s.procs[h].locked
              && ((Owns(s.procs[h].at) && s.procs[h].temp == n && n in s.owner && s.owner[n] == h) || s.dir == Some(h))
  {
    var i := s.files[Temp(n)];
    if i in s.locks {
      var h := s.locks[i];
      assert LockOk(s, i) && ProcOk(s, h, s.procs[h]);
      if HasTemp(s.procs[h].at) {
        assert s.files[Temp(s.procs[h].temp)] == s.files[Temp(n)];
      }
    }
  }

  /** The file of a retired name is locked by nobody but the cleaner that removes it. */
  lemma OrphanIsUnlocked(s: State, p: Pid)
    requires Inv(s) && p in s.procs && s.procs[p].at == SweepOpen
    requires Temp(s.procs[p].temp) in s.files && Retired(s, s.procs[p].temp)
    ensures s.procs[p].inode !in s.locks
  {
    assert ProcOk(s, p, s.procs[p]);
    LockedTempHasOwner(s, s.procs[p].temp);
  }

  lemma CleaningOnTrack(s: State, p: Pid, action: Action)
    requires p in s.procs && OnTrack(s, s.procs[p]) && Cleaning(s, s.procs[p], action).Some?
    requires var me := s.procs[p];
             me.at == SweepOpen && Temp(me.temp) in s.files && Retired(s, me.temp) ==> me.inode !in s.locks
    requires forall name | name in s.files && name.Temp? :: name.n in s.used
    requires var s' := Perform(s, p, Cleaning(s, s.procs[p], action).value);
             forall n | Retired(s, n) :: Retired(s', n) && (Temp(n) in s'.files ==> SameTemp(s, s', n))
    ensures var e := Cleaning(s, s.procs[p], action).value; OnTrack(Perform(s, p, e), e.me)
  {
  }

  /** Only a cleaner looks. */
  lemma LookingIsCleaning(s: State, me: Proc, action: Action)
    requires Decide(s, me, action).Some? && Looking(Decide(s, me, action).value.me.at)
    ensures Decide(s, me, action) == Cleaning(s, me, action)
  {
  }

  lemma CleaningRemembers(s: State, me: Proc, action: Action)
    requires Cleaning(s, me, action).Some? && Looking(me.at)
    ensures var next := Cleaning(s, me, action).value.me; Looking(next.at) && next.orphans == me.orphans
  {
  }

  lemma GoneIsOver(s: State, me: Proc, action: Action)
    requires me.at == Gone && Decide(s, me, action).Some?
    ensures action == Crash
  {
  }

  /** A cleaner keeps its memory until it ends. */
  lemma LookingRemembers(s: State, me: Proc, action: Action)
    requires Decide(s, me, action).Some? && (Looking(me.at) || me.at == Gone)
    ensures var next := Decide(s, me, action).value.me;
            (Looking(next.at) || next.at == Gone) && next.orphans == me.orphans
  {
    if me.at == Gone {
      GoneIsOver(s, me, action);
    } else if action != Crash {
      CleaningRemembers(s, me, action);
    }
  }

  lemma StepOnTrack(s: State, p: Pid, action: Action, q: Pid)
    requires Inv(s) && (q in s.procs ==> OnTrack(s, s.procs[q]))
    requires Apply(s, p, action).Some? && q in Apply(s, p, action).value.procs
    ensures OnTrack(Apply(s, p, action).value, Apply(s, p, action).value.procs[q])
  {
    var s' := Apply(s, p, action).value;
    forall n | Retired(s, n)
      ensures Retired(s', n) && (Temp(n) in s'.files ==> SameTemp(s, s', n))
    {
      RetiredStays(s, p, action, n);
    }
    if q == p && p in s.procs {
      if Looking(s'.procs[p].at) {
        LookingIsCleaning(s, s.procs[p], action);
        var me := s.procs[p];
        if me.at == SweepOpen && Temp(me.temp) in s.files && Retired(s, me.temp) {
          OrphanIsUnlocked(s, p);
        }
        CleaningOnTrack(s, p, action);
      }
    }
  }

  lemma {:induction false} AlwaysOnTrack(states: seq<State>, events: seq<(Pid, Action)>, i: nat)
    requires Execution(states, events) && i < |states|
    ensures forall p | p in states[i].procs :: OnTrack(states[i], states[i].procs[p])
  {
    if i > 0 {
      assert StepAt(states, events, i - 1);
      AlwaysOnTrack(states, events, i - 1);
      ReachableIsConsistent(states, events, i - 1);
      forall p | p in states[i].procs
        ensures OnTrack(states[i], states[i].procs[p])
      {
        StepOnTrack(states[i - 1], events[i - 1].0, events[i - 1].1, p);
      }
    }
  }

  lemma ListingRemembers(s: State, p: Pid)
    requires Apply(s, p, List).Some?
    ensures var s' := Apply(s, p, List).value;
            p in s'.procs && Looking(s'.procs[p].at) && s'.procs[p].orphans == Orphans(s)
  {
  }

  lemma {:induction false} MemoryFrom(states: seq<State>, events: seq<(Pid, Action)>, i: nat, j: nat, p: Pid)
    requires Execution(states, events) && i < j < |states| && events[i] == (p, List)
    ensures p in states[j].procs && (Looking(states[j].procs[p].at) || states[j].procs[p].at == Gone)
    ensures states[j].procs[p].orphans == Orphans(states[i])
  {
    assert StepAt(states, events, j - 1);
    if j == i + 1 {
      ListingRemembers(states[i], p);
    } else {
      MemoryFrom(states, events, i, j - 1, p);
      if events[j - 1].0 == p {
        LookingRemembers(states[j - 1], states[j - 1].procs[p], events[j - 1].1);
      }
    }
  }

  /** In every execution: once a cleaner that listed the directory has finished without error, every
      staging file that was abandoned when it listed is gone, whoever crashed or raced meanwhile. */
  lemma FinishedCleanupLeavesNoOrphan(states: seq<State>, events: seq<(Pid, Action)>, i: nat, j: nat, p: Pid, n: nat)
    requires Execution(states, events) && i < j < |states| && events[i] == (p, List)
    requires p in states[j].procs && states[j].procs[p].at == Swept
    requires Abandoned(states[i], n)
    ensures Temp(n) !in states[j].files
  {
    MemoryFrom(states, events, i, j, p);
    AlwaysOnTrack(states, events, j);
    assert n in TempsIn(states[i]) && n in Orphans(states[i]);
    assert OnTrack(states[j], states[j].procs[p]);
  }

  /** A writer's death retires its name, wherever the writer stood, and abandons the file if it is there. */
  lemma DeathRetires(s: State, p: Pid)
    requires p in s.procs && Names(s.procs[p].at) && ProcOk(s, p, s.procs[p]) && NamesAgree(s)
    ensures var s', n := Perform(s, p, Dying(s.procs[p])), s.procs[p].temp;
            Retired(s', n) && (Temp(n) in s.files ==> Abandoned(s', n))
  {
  }

  /** In every execution, the crash of a writer that may still act on its staging name retires the name, and
      abandons the file if it is there. */
  lemma CrashAbandons(states: seq<State>, events: seq<(Pid, Action)>, i: nat)
    requires Execution(states, events) && i < |events| && events[i].1 == Crash
    requires events[i].0 in states[i].procs && Names(states[i].procs[events[i].0].at)
    ensures var n := states[i].procs[events[i].0].temp;
            Retired(states[i + 1], n) && (Temp(n) in states[i].files ==> Abandoned(states[i + 1], n))
  {
    assert StepAt(states, events, i);
    ReachableIsConsistent(states, events, i);
    assert ProcOk(states[i], events[i].0, states[i].procs[events[i].0]);
    DeathRetires(states[i], events[i].0);
  }

  lemma RetiredNext(states: seq<State>, events: seq<(Pid, Action)>, i: nat, n: nat)
    requires Execution(states, events) && i < |events| && i + 1 < |states| && Retired(states[i], n)
    ensures Retired(states[i + 1], n) && (Temp(n) !in states[i].files ==> Temp(n) !in states[i + 1].files)
  {
    ReachableIsConsistent(states, events, i);
    assert StepAt(states, events, i);
    RetiredStays(states[i], events[i].0, events[i].1, n);
  }

  /** A retired name stays retired, and its file, once gone, stays gone. */
  lemma {:induction false} RetiredFrom(states: seq<State>, events: seq<(Pid, Action)>, i: nat, j: nat, n: nat)
    requires Execution(states, events) && i <= j < |states| && Retired(states[i], n)
    ensures Retired(states[j], n) && (Temp(n) !in states[i].files ==> Temp(n) !in states[j].files)
    decreases j
  {
    if i < j {
      RetiredFrom(states, events, i, j - 1, n);
      RetiredNext(states, events, j - 1, n);
    }
  }

  /** In every execution: a staging file whose writer crashed, at any point where it had a name, is gone once a
      cleanup that listed the directory after the crash has finished without error. */
  lemma CrashedTempIsRemoved(states: seq<State>, events: seq<(Pid, Action)>, c: nat, i: nat, j: nat, p: Pid)
    requires Execution(states, events) && c < i < j < |states| && events[c].1 == Crash
    requires events[c].0 in states[c].procs && Names(states[c].procs[events[c].0].at)
    requires events[i] == (p, List) && p in states[j].procs && states[j].procs[p].at == Swept
    ensures Temp(states[c].procs[events[c].0].temp) !in states[j].files
  {
    var n := states[c].procs[events[c].0].temp;
    CrashAbandons(states, events, c);
    RetiredFrom(states, events, c + 1, i, n);
    if Temp(n) in states[i].files {
      FinishedCleanupLeavesNoOrphan(states, events, i, j, p, n);
    } else {
      RetiredFrom(states, events, i, j, n);
    }
  }
}
