/**
 * Durable deployment of a configuration with rollback
 * (backend/src/configuration/configuration-deployment.service.ts).
 */
module Deployment {
  import opened Text
  import opened Disk

  /** Where `writeDurable` stops. */
  datatype WriteFate = OpenFails | WriteFails(written: nat) | ChmodFails | SyncFails | Completes

  datatype ReloadFate = NotConfigured | Reloaded | ReloadFails

  /** The outcome of everything outside this process, step by step. */
  datatype Plan = Plan(
    validates: bool, directoryMade: bool, previousReadable: bool,
    write: WriteFate, renames: bool, directorySyncs: bool, reload: ReloadFate,
    rollbackWrite: WriteFate, rollbackRenames: bool, rollbackDirectorySyncs: bool)

  datatype Outcome =
    | Deployed(reloaded: bool)
    /** Failed before the new file was in place. */
    | Rejected
    /** The engine did not come back: the previous file, if there was one, was put back. */
    | RolledBack
    /** The engine did not come back and putting the previous file back failed as well. */
    | RollbackFailed

  // ---- The states a run passes through ---------------------------------------------

  ghost predicate AllSound(h: seq<Disk>, target: string, temporary: string) {
    forall i :: 0 <= i < |h| ==> Sound(h[i], target, temporary)
  }

  /** The disk `d` can hold at the target only what `first` could, or something in `extra`. */
  ghost predicate Within(first: Disk, d: Disk, target: string, extra: set<string>) {
    && Possible(d, target) <= Possible(first, target) + extra
    && (Present(first, target) ==> Present(d, target))
  }

  /** Since `start`, a crash could leave at the target only what it could then, or something in `extra`. */
  ghost predicate OnlySince(h: seq<Disk>, start: nat, target: string, extra: set<string>)
    requires start < |h|
  {
    forall i :: start <= i < |h| ==> Within(h[start], h[i], target, extra)
  }

  /** One more state keeps the claim when it relates to the state before it. */
  lemma OnlySinceStep(h: seq<Disk>, start: nat, d: Disk, target: string, temporary: string, extra: set<string>)
    requires start < |h| && OnlySince(h, start, target, extra) && AllSound(h, target, temporary)
    requires Sound(d, target, temporary) && Within(h[|h| - 1], d, target, extra)
    ensures OnlySince(h + [d], start, target, extra) && AllSound(h + [d], target, temporary)
  {
    hide Sound, Possible, Present;
    assert Within(h[start], h[|h| - 1], target, extra);
    forall i | start <= i < |h + [d]| ensures Within(h[start], (h + [d])[i], target, extra) {
      if i < |h| { assert (h + [d])[i] == h[i]; }
    }
  }

  lemma OnlySinceNow(h: seq<Disk>, target: string, extra: set<string>)
    requires h != []
    ensures OnlySince(h, |h| - 1, target, extra)
  {
    hide Possible, Present;
  }

  /** A span that starts where another ends extends it. */
  lemma OnlySinceExtends(h: seq<Disk>, g: seq<Disk>, start: nat, target: string, mid: set<string>, extra: set<string>)
    requires start < |h| && h <= g
    requires OnlySince(h, start, target, extra) && OnlySince(g, |h| - 1, target, mid)
    requires mid <= extra + Possible(h[start], target)
    ensures OnlySince(g, start, target, extra)
  {
    hide Possible, Present;
    forall i | start <= i < |g| ensures Within(g[start], g[i], target, extra) {
      if i < |h| {
        assert g[i] == h[i];
      } else {
        assert Within(g[|h| - 1], g[i], target, mid);
        assert Within(h[start], h[|h| - 1], target, extra);
      }
    }
  }

  lemma TargetKeptWithin(d: Disk, e: Disk, target: string, extra: set<string>)
    requires TargetKept(d, e, target)
    ensures Within(d, e, target, extra)
  {
    hide Possible, Present;
  }

  class DeploymentService {
    const target: string
    const temporary: string
    var disk: Disk
    /** Every state the disk has been in. */
    var history: seq<Disk>

    constructor (target: string, temporary: string, disk: Disk)
      requires Sound(disk, target, temporary)
      ensures this.target == target && this.temporary == temporary && this.disk == disk && history == [disk]
      ensures Valid()
    {
      this.target, this.temporary, this.disk, history := target, temporary, disk, [disk];
    }

    /** At every moment so far, a crash would have left a whole configuration. */
    ghost predicate Valid()
      reads this
    {
      history != [] && history[|history| - 1] == disk && AllSound(history, target, temporary)
    }

    /** Records the next state of the disk. */
    method Advance(next: Disk, ghost start: nat, ghost extra: set<string>)
      requires Valid() && Sound(next, target, temporary) && Within(disk, next, target, extra)
      requires start < |history| && OnlySince(history, start, target, extra)
      modifies this`disk, this`history
      ensures Valid() && disk == next && history == old(history) + [next]
      ensures OnlySince(history, start, target, extra)
    {
      hide Sound, Within;
      OnlySinceStep(history, start, next, target, temporary, extra);
      disk := next;
      history := history + [next];
    }

    lemma CurrentIsSound()
      requires Valid()
      ensures |history| > 0 && Sound(disk, target, temporary) && disk.images != []
    {
      hide Possible, Present, At, Apart, Whole;
    }

    lemma NothingHappened(extra: set<string>)
      requires Valid()
      ensures |history| > 0 && OnlySince(history, |history| - 1, target, extra) && TargetKept(disk, disk, target)
    {
      OnlySinceNow(history, target, extra);
      hide AllSound, OnlySince, Possible, Present, At;
    }

    /** Creates or empties the temporary file, writes, sets the mode, syncs. */
    method WriteDurable(content: string, fate: WriteFate) returns (ok: bool)
      requires Valid()
      modifies this`disk, this`history
      ensures Valid() && old(history) <= history
      ensures OnlySince(history, |old(history)| - 1, target, {})
      ensures ok <==> fate == Completes
      ensures TargetKept(old(disk), disk, target)
      ensures ok ==> Ready(disk, temporary, content)
    {
      hide Sound, Possible, Present, At, Ready, AllSound, OnlySince, Within, Open;
      NothingHappened({});
      CurrentIsSound();
      ghost var start := |history| - 1;
      if fate == OpenFails { return false; }
      OpenKeeps(disk, target, temporary);
      TargetKeptWithin(disk, Open(disk, temporary), target, {});
      Advance(Open(disk, temporary), start, {});
      var written := if fate.WriteFails? && fate.written < |content| then content[..fate.written] else content;
      WriteKeeps(disk, target, temporary, written);
      TargetKeptWithin(disk, Write(disk, temporary, written), target, {});
      Advance(Write(disk, temporary, written), start, {});
      if fate.WriteFails? || fate == ChmodFails || fate == SyncFails { return false; }
      SyncKeeps(disk, target, temporary);
      TargetKeptWithin(disk, Sync(disk, temporary), target, {});
      Advance(Sync(disk, temporary), start, {});
      return true;
    }

    /** Moves the temporary file into place, then tries the directory barrier, whose failure is ignored. */
    method MoveIntoPlace(ghost content: string, directorySyncs: bool)
      requires Valid() && Ready(disk, temporary, content)
      modifies this`disk, this`history
      ensures Valid() && old(history) <= history
      ensures OnlySince(history, |old(history)| - 1, target, {content})
      ensures At(disk, target) == Some(content)
      ensures directorySyncs ==> Settled(disk, target, content)
    {
      hide Sound, Possible, Present, At, AllSound, OnlySince, Rename, SyncDirectory;
      NothingHappened({content});
      CurrentIsSound();
      ghost var start := |history| - 1;
      RenameKeeps(disk, target, temporary, content);
      Advance(Rename(disk, temporary, target), start, {content});
      if directorySyncs {
        SyncDirectoryKeeps(disk, target, temporary);
        DiskHasImages(disk, target, temporary);
        Advance(SyncDirectory(disk), start, {content});
      }
    }

    /** Writes, renames and tries the directory barrier: how a new file and a rollback are both put in place. */
    method Install(content: string, fate: WriteFate, renames: bool, directorySyncs: bool) returns (installed: bool)
      requires Valid()
      modifies this`disk, this`history
      ensures Valid() && old(history) <= history
      ensures OnlySince(history, |old(history)| - 1, target, {content})
      ensures installed <==> fate == Completes && renames
      ensures installed ==> At(disk, target) == Some(content)
      ensures installed && directorySyncs ==> Settled(disk, target, content)
      ensures !installed ==> TargetKept(old(disk), disk, target)
    {
      hide Sound, Possible, Present, At, Ready, Within, Settled, AllSound, OnlySince;
      NothingHappened({content});
      ghost var start := |history| - 1;
      var written := WriteDurable(content, fate);
      OnlySinceWider(history, start, target, {}, {content});
      if !written || !renames { return false; }
      ghost var before := history;
      MoveIntoPlace(content, directorySyncs);
      OnlySinceExtends(before, history, start, target, {content}, {content});
      return true;
    }

    lemma PreviousIsPossible(plan: Plan)
      requires Valid()
      ensures
        var previous := Previous(disk, target, plan);
        previous.Some? ==> previous.value in Possible(disk, target)
    {
      hide Possible, At;
      if At(disk, target).Some? { CurrentIsPossible(disk, target); }
    }

    /**
     * Deploys `content`. At every step a crash leaves the target absent only if
     * it could be absent before, and otherwise holding, whole, something it could
     * hold before or the new content.
     */
    method Deploy(content: string, plan: Plan) returns (outcome: Outcome)
      requires Valid()
      modifies this`disk, this`history
      ensures Valid() && old(history) <= history
      ensures OnlySince(history, |old(history)| - 1, target, {content})
      ensures outcome.Rejected? <==>
        !(plan.validates && plan.directoryMade && plan.write == Completes && plan.renames)
      ensures outcome.Deployed? <==> !outcome.Rejected? && plan.reload != ReloadFails
      ensures outcome.Deployed? ==> (outcome.reloaded <==> plan.reload == Reloaded)
      ensures outcome.RollbackFailed? <==>
        && !outcome.Rejected? && plan.reload == ReloadFails
        && plan.previousReadable && At(old(disk), target).Some?
        && !(plan.rollbackWrite == Completes && plan.rollbackRenames)
      ensures outcome.Deployed? || outcome.RollbackFailed? ==> At(disk, target) == Some(content)
      ensures outcome.Deployed? && plan.directorySyncs ==> Settled(disk, target, content)
      ensures outcome.Rejected? ==> TargetKept(old(disk), disk, target)
      ensures outcome.RolledBack? ==>
        var restored := if plan.previousReadable then At(old(disk), target) else None;
        && At(disk, target) == (if restored.Some? then restored else Some(content))
        && (restored.Some? && plan.rollbackDirectorySyncs ==> Settled(disk, target, restored.value))
    {
      hide Sound, Possible, Present, At, Ready, Within, Settled, AllSound, OnlySince;
      NothingHappened({content});
      ghost var start := |history| - 1;
      if !plan.validates || !plan.directoryMade { return Rejected; }
      var previous := Previous(disk, target, plan);
      PreviousIsPossible(plan);
      var installed := Install(content, plan.write, plan.renames, plan.directorySyncs);
      if !installed { return Rejected; }
      if plan.reload != ReloadFails { return Deployed(plan.reload == Reloaded); }
      if previous.None? { return RolledBack; }
      ghost var before := history;
      installed := Install(previous.value, plan.rollbackWrite, plan.rollbackRenames, plan.rollbackDirectorySyncs);
      OnlySinceExtends(before, history, start, target, {previous.value}, {content});
      return if installed then RolledBack else RollbackFailed;
    }

    /** The machine stops and starts again; the newest image may survive, or an older one. */
    method CrashAndRestart(image: nat, garbage: map<Inode, string>)
      requires Valid()
      modifies this`disk, this`history
      ensures Valid() && history == old(history) + [disk] && old(disk).images != []
      ensures disk == Crash(old(disk), Surviving(old(disk), image), garbage)
      ensures OnlySince(history, |old(history)| - 1, target, {})
      ensures At(disk, target).Some? ==> At(disk, target).value in Possible(old(disk), target)
      ensures Present(old(disk), target) ==> At(disk, target).Some?
    {
      hide Sound, Possible, Present, At;
      DiskHasImages(disk, target, temporary);
      CrashLeavesWhole(disk, target, temporary, Surviving(disk, image), garbage);
      Advance(Crash(disk, Surviving(disk, image), garbage), |history| - 1, {});
    }

    /**
     * A deployment that gets no further than `steps` of its disk operations before
     * the machine stops: the states after that are never reached.
     */
    method DeployInterrupted(content: string, plan: Plan, steps: nat, image: nat, garbage: map<Inode, string>)
      requires Valid()
      modifies this`disk, this`history
      ensures Valid() && |history| > |old(history)| && old(history) <= history
      ensures OnlySince(history, |old(history)| - 1, target, {content})
      ensures At(disk, target).Some? ==> At(disk, target).value in Possible(old(disk), target) + {content}
      ensures Present(old(disk), target) ==> At(disk, target).Some?
    {
      hide *;
      var before := history;
      CurrentIsLast();
      var outcome := Deploy(content, plan);
      var reached := if |before| + steps < |history| then |before| + steps else |history|;
      StopAt(reached, |before| - 1, {content});
      ghost var cut := history;
      CurrentIsLast();
      CrashAndRestart(image, garbage);
      OnlySinceExtends(cut, history, |before| - 1, target, {}, {content});
      ReachedWithin(before[|before| - 1], cut[reached - 1], disk, target, {content});
    }

    lemma CurrentIsLast()
      requires Valid()
      ensures |history| > 0 && history[|history| - 1] == disk
    {
    }

    /** Only the first `reached` states came to be. */
    method StopAt(reached: nat, ghost start: nat, ghost extra: set<string>)
      requires Valid() && start < reached <= |history| && OnlySince(history, start, target, extra)
      modifies this`disk, this`history
      ensures Valid() && history == old(history)[..reached] && disk == old(history)[reached - 1]
      ensures OnlySince(history, start, target, extra)
      ensures Within(old(history)[start], disk, target, extra)
    {
      OnlySinceShorter(history, start, reached, target, extra);
      SoundShorter(history, reached, target, temporary);
      LastWithin(history[..reached], start, target, extra);
      hide Sound, Possible, Present, At, Within, OnlySince, AllSound;
      history := history[..reached];
      disk := history[reached - 1];
    }
  }

  /** The image a crash leaves: the one asked for, or the newest. */
  function Surviving(d: Disk, image: nat): (i: nat)
    requires d.images != []
    ensures i < |d.images|
  {
    if image < |d.images| then image else |d.images| - 1
  }

  lemma OnlySinceShorter(h: seq<Disk>, start: nat, n: nat, target: string, extra: set<string>)
    requires start < n <= |h| && OnlySince(h, start, target, extra)
    ensures OnlySince(h[..n], start, target, extra)
  {
    hide Possible, Present;
  }

  lemma SoundShorter(h: seq<Disk>, n: nat, target: string, temporary: string)
    requires n <= |h| && AllSound(h, target, temporary)
    ensures AllSound(h[..n], target, temporary)
  {
    hide Sound;
  }

  lemma LastWithin(h: seq<Disk>, start: nat, target: string, extra: set<string>)
    requires start < |h| && OnlySince(h, start, target, extra)
    ensures Within(h[start], h[|h| - 1], target, extra)
  {
    hide Possible, Present;
  }

  lemma ReachedWithin(first: Disk, cut: Disk, last: Disk, target: string, extra: set<string>)
    requires Within(first, cut, target, extra)
    requires At(last, target).Some? ==> At(last, target).value in Possible(cut, target)
    requires Present(cut, target) ==> At(last, target).Some?
    ensures At(last, target).Some? ==> At(last, target).value in Possible(first, target) + extra
    ensures Present(first, target) ==> At(last, target).Some?
  {
    hide Possible, Present, At;
  }

  /** The file that is there and can be read is kept for a rollback. */
  function Previous(d: Disk, target: string, plan: Plan): Option<string> {
    if plan.previousReadable then At(d, target) else None
  }

  lemma OnlySinceWider(h: seq<Disk>, start: nat, target: string, narrow: set<string>, wide: set<string>)
    requires start < |h| && OnlySince(h, start, target, narrow) && narrow <= wide
    ensures OnlySince(h, start, target, wide)
  {
    hide Possible, Present;
  }

  lemma DiskHasImages(d: Disk, target: string, temporary: string)
    requires Sound(d, target, temporary)
    ensures d.images != []
  {
  }

  // ---- Whole runs ------------------------------------------------------------------

  /** A whole deployment, one cut short by a crash after some of its steps, or a crash between deployments. */
  datatype Event =
    | Deployment(content: string, plan: Plan)
    | Interrupted(content: string, plan: Plan, steps: nat, image: nat, garbage: map<Inode, string>)
    | PowerLoss(image: nat, garbage: map<Inode, string>)

  ghost function Contents(events: seq<Event>): set<string> {
    set i | 0 <= i < |events| && !events[i].PowerLoss? :: events[i].content
  }

  /**
   * Over any run of deployments and crashes, within deployments and between them, at
   * every moment a crash would leave the target holding, whole, something it could hold
   * at the start or a content that was deployed; and once a configuration is certain
   * to be there, one always is.
   */
  method Run(service: DeploymentService, events: seq<Event>)
    requires service.Valid()
    modifies service`disk, service`history
    ensures service.Valid() && old(service.history) <= service.history
    ensures OnlySince(service.history, |old(service.history)| - 1, service.target, Contents(events))
  {
    hide Sound, Possible, Present, At, Within, AllSound, OnlySince, Settled, Previous, TargetKept;
    ghost var extra := Contents(events);
    service.NothingHappened(extra);
    ghost var start := |service.history| - 1;
    for k := 0 to |events|
      invariant service.Valid() && old(service.history) <= service.history
      invariant OnlySince(service.history, start, service.target, extra)
    {
      ghost var before := service.history;
      match events[k] {
        case Deployment(content, plan) =>
          assert content in extra;
          var outcome := service.Deploy(content, plan);
          OnlySinceExtends(before, service.history, start, service.target, {content}, extra);
        case Interrupted(content, plan, steps, image, garbage) =>
          assert content in extra;
          service.DeployInterrupted(content, plan, steps, image, garbage);
          OnlySinceExtends(before, service.history, start, service.target, {content}, extra);
        case PowerLoss(image, garbage) =>
          service.CrashAndRestart(image, garbage);
          OnlySinceExtends(before, service.history, start, service.target, {}, extra);
      }
    }
  }
}
