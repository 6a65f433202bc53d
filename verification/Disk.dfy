/**
 * A file system as a crash sees it: which directory images may be on disk, and
 * which file contents are certain to be there.
 */
module Disk {
  import opened Text

  type Inode = nat
  type Directory = map<string, Inode>

  /** Content as the page cache holds it; on disk it is certain only once synced. */
  datatype File = File(content: string, synced: bool)

  /**
   * `images` are the directory states a crash may leave, oldest first; the last
   * is the current one. A rename moves from one image to the next in one step.
   */
  datatype Disk = Disk(images: seq<Directory>, files: map<Inode, File>, next: Inode) {
    function Current(): Directory
      requires images != []
    {
      images[|images| - 1]
    }
  }

  /** Every entry leads to a file, and new inodes are unused. */
  ghost predicate WellFormed(d: Disk) {
    && d.images != []
    && (forall i, p :: 0 <= i < |d.images| && p in d.images[i] ==> d.images[i][p] in d.files)
    && (forall n :: n in d.files ==> n < d.next)
  }

  /** The file being written under `temporary` is not the file any image has under `target`. */
  ghost predicate Apart(d: Disk, target: string, temporary: string)
    requires WellFormed(d)
  {
    && (temporary in d.Current() ==>
      forall i :: 0 <= i < |d.images| && target in d.images[i] ==> d.images[i][target] != d.Current()[temporary])
    && (forall i :: 0 <= i < |d.images| && target in d.images[i] && temporary in d.images[i] ==>
      d.images[i][target] != d.images[i][temporary])
  }

  /** After a crash, whichever image is left, the target is a file whose content is certain. */
  ghost predicate Whole(d: Disk, target: string)
    requires WellFormed(d)
  {
    forall i :: 0 <= i < |d.images| && target in d.images[i] ==> d.files[d.images[i][target]].synced
  }

  /** What every operation keeps. */
  ghost predicate Sound(d: Disk, target: string, temporary: string) {
    target != temporary && WellFormed(d) && Apart(d, target, temporary) && Whole(d, target)
  }

  /** The contents a crash may leave at the target. */
  ghost function Possible(d: Disk, target: string): set<string> {
    set i | 0 <= i < |d.images| && target in d.images[i] && d.images[i][target] in d.files ::
      d.files[d.images[i][target]].content
  }

  /** Some configuration is at the target whichever image a crash leaves. */
  ghost predicate Present(d: Disk, target: string) {
    forall i :: 0 <= i < |d.images| ==> target in d.images[i]
  }

  /** What a reader finds now. */
  function At(d: Disk, path: string): Option<string> {
    if d.images != [] && path in d.Current() && d.Current()[path] in d.files
    then Some(d.files[d.Current()[path]].content)
    else None
  }

  /** The file is written and its content is certain. */
  ghost predicate Ready(d: Disk, path: string, content: string) {
    At(d, path) == Some(content) && d.files[d.Current()[path]].synced
  }

  /** Behind the directory barrier: exactly `content`, whatever happens. */
  ghost predicate Settled(d: Disk, target: string, content: string) {
    Present(d, target) && Possible(d, target) == {content}
  }

  // ---- Operations ------------------------------------------------------------------

  /** `open(path, 'w')`: empties the file there, or creates one. */
  function Open(d: Disk, path: string): Disk
    requires d.images != []
  {
    if path in d.Current() then d.(files := d.files[d.Current()[path] := File("", false)])
    else
      Disk(d.images + [d.Current()[path := d.next]], d.files[d.next := File("", false)], d.next + 1)
  }

  function Write(d: Disk, path: string, content: string): Disk
    requires At(d, path).Some?
  {
    d.(files := d.files[d.Current()[path] := File(content, false)])
  }

  function Sync(d: Disk, path: string): Disk
    requires At(d, path).Some?
  {
    var n := d.Current()[path];
    d.(files := d.files[n := File(d.files[n].content, true)])
  }

  function Rename(d: Disk, from: string, onto: string): Disk
    requires At(d, from).Some?
  {
    d.(images := d.images + [(d.Current() - {from})[onto := d.Current()[from]]])
  }

  /** The directory barrier: only the current image can now survive. */
  function SyncDirectory(d: Disk): Disk
    requires d.images != []
  {
    d.(images := [d.Current()])
  }

  /** A crash: one image survives; unsynced files hold anything. */
  function Crash(d: Disk, image: nat, garbage: map<Inode, string>): Disk
    requires image < |d.images|
  {
    Disk([d.images[image]],
         map n | n in d.files ::
           File(if d.files[n].synced || n !in garbage then d.files[n].content else garbage[n], true),
         d.next)
  }

  // ---- What each operation keeps ---------------------------------------------------

  /** The target is as it was, now and after a crash. */
  ghost predicate TargetKept(d: Disk, e: Disk, target: string) {
    && Possible(e, target) == Possible(d, target)
    && (Present(d, target) ==> Present(e, target))
    && At(e, target) == At(d, target)
  }

  lemma CurrentIsPossible(d: Disk, target: string)
    requires WellFormed(d) && At(d, target).Some?
    ensures At(d, target).value in Possible(d, target)
  {
    assert d.Current() == d.images[|d.images| - 1];
  }

  /** Emptying the temporary file touches nothing the target leads to. */
  lemma EmptyingKeeps(d: Disk, target: string, temporary: string)
    requires Sound(d, target, temporary) && temporary in d.Current()
    ensures Sound(Open(d, temporary), target, temporary)
    ensures TargetKept(d, Open(d, temporary), target) && At(Open(d, temporary), temporary).Some?
  {
    assert Open(d, temporary).images == d.images;
  }

  /** A new file adds an image in which every other entry is as it was. */
  lemma CreatingAdds(d: Disk, temporary: string)
    requires WellFormed(d) && temporary !in d.Current()
    ensures
      var e, n := Open(d, temporary), |d.images|;
      && |e.images| == n + 1
      && (forall i :: 0 <= i < n ==> e.images[i] == d.images[i])
      && e.images[n] == d.images[n - 1][temporary := d.next]
  {
  }

  lemma CreatingIsSound(d: Disk, target: string, temporary: string)
    requires Sound(d, target, temporary) && temporary !in d.Current()
    ensures Sound(Open(d, temporary), target, temporary)
  {
    CreatingAdds(d, temporary);
  }

  lemma CreatingKeepsPossible(d: Disk, target: string, temporary: string, c: string)
    requires Sound(d, target, temporary) && temporary !in d.Current()
    ensures c in Possible(Open(d, temporary), target) <==> c in Possible(d, target)
  {
    var e, n := Open(d, temporary), |d.images|;
    CreatingAdds(d, temporary);
    hide Apart, Whole;
    if c in Possible(e, target) {
      var i :| 0 <= i <= n && target in e.images[i] && e.files[e.images[i][target]].content == c;
      var k := if i == n then n - 1 else i;
      assert target in d.images[k] && d.files[d.images[k][target]].content == c;
    }
    if c in Possible(d, target) {
      var i :| 0 <= i < n && target in d.images[i] && d.files[d.images[i][target]].content == c;
      assert target in e.images[i] && e.files[e.images[i][target]].content == c;
    }
  }

  lemma CreatingKeepsTarget(d: Disk, target: string, temporary: string)
    requires Sound(d, target, temporary) && temporary !in d.Current()
    ensures Present(d, target) ==> Present(Open(d, temporary), target)
    ensures At(Open(d, temporary), target) == At(d, target) && At(Open(d, temporary), temporary).Some?
  {
    CreatingAdds(d, temporary);
    hide Apart, Whole;
  }

  lemma OpenKeeps(d: Disk, target: string, temporary: string)
    requires Sound(d, target, temporary)
    ensures Sound(Open(d, temporary), target, temporary)
    ensures TargetKept(d, Open(d, temporary), target) && At(Open(d, temporary), temporary).Some?
  {
    hide Possible, Present, At, Open, Apart, Whole;
    if temporary in d.Current() {
      EmptyingKeeps(d, target, temporary);
    } else {
      CreatingIsSound(d, target, temporary);
      CreatingKeepsTarget(d, target, temporary);
      forall c ensures c in Possible(Open(d, temporary), target) <==> c in Possible(d, target) {
        CreatingKeepsPossible(d, target, temporary, c);
      }
    }
  }

  lemma WriteKeeps(d: Disk, target: string, temporary: string, content: string)
    requires Sound(d, target, temporary) && At(d, temporary).Some?
    ensures Sound(Write(d, temporary, content), target, temporary)
    ensures TargetKept(d, Write(d, temporary, content), target)
    ensures At(Write(d, temporary, content), temporary) == Some(content)
  {
  }

  lemma SyncKeeps(d: Disk, target: string, temporary: string)
    requires Sound(d, target, temporary) && At(d, temporary).Some?
    ensures Sound(Sync(d, temporary), target, temporary)
    ensures TargetKept(d, Sync(d, temporary), target)
    ensures Ready(Sync(d, temporary), temporary, At(d, temporary).value)
  {
  }

  /** A rename adds an image in which the target is the renamed file. */
  lemma RenamingAdds(d: Disk, target: string, temporary: string)
    requires WellFormed(d) && At(d, temporary).Some?
    ensures
      var e, n := Rename(d, temporary, target), |d.images|;
      && |e.images| == n + 1 && e.files == d.files && e.next == d.next
      && (forall i :: 0 <= i < n ==> e.images[i] == d.images[i])
      && e.images[n] == (d.Current() - {temporary})[target := d.Current()[temporary]]
  {
  }

  lemma RenamingIsSound(d: Disk, target: string, temporary: string, content: string)
    requires Sound(d, target, temporary) && Ready(d, temporary, content)
    ensures Sound(Rename(d, temporary, target), target, temporary)
    ensures At(Rename(d, temporary, target), target) == Some(content)
    ensures Present(d, target) ==> Present(Rename(d, temporary, target), target)
  {
    RenamingAdds(d, target, temporary);
    hide Rename;
  }

  lemma RenamingAddsContent(d: Disk, target: string, temporary: string, content: string, c: string)
    requires Sound(d, target, temporary) && Ready(d, temporary, content)
    ensures c in Possible(Rename(d, temporary, target), target) <==> c in Possible(d, target) + {content}
  {
    var e, n := Rename(d, temporary, target), |d.images|;
    RenamingAdds(d, target, temporary);
    hide Rename, Apart, Whole;
    assert target in e.images[n] && e.files[e.images[n][target]].content == content;
    if c in Possible(e, target) {
      var i :| 0 <= i <= n && target in e.images[i] && e.files[e.images[i][target]].content == c;
      if i < n { assert target in d.images[i] && d.files[d.images[i][target]].content == c; }
    }
    if c in Possible(d, target) {
      var i :| 0 <= i < n && target in d.images[i] && d.files[d.images[i][target]].content == c;
      assert target in e.images[i] && e.files[e.images[i][target]].content == c;
    }
  }

  /** Renaming a synced file adds one possible content and makes it the current one. */
  lemma RenameKeeps(d: Disk, target: string, temporary: string, content: string)
    requires Sound(d, target, temporary) && Ready(d, temporary, content)
    ensures Sound(Rename(d, temporary, target), target, temporary)
    ensures At(Rename(d, temporary, target), target) == Some(content)
    ensures Possible(Rename(d, temporary, target), target) == Possible(d, target) + {content}
    ensures Present(d, target) ==> Present(Rename(d, temporary, target), target)
  {
    hide Sound, Possible, Present, At, Rename;
    RenamingIsSound(d, target, temporary, content);
    forall c ensures c in Possible(Rename(d, temporary, target), target) <==> c in Possible(d, target) + {content} {
      RenamingAddsContent(d, target, temporary, content, c);
    }
  }

  /** Behind the barrier only the current content is possible. */
  lemma SyncDirectoryKeeps(d: Disk, target: string, temporary: string)
    requires Sound(d, target, temporary)
    ensures Sound(SyncDirectory(d), target, temporary) && At(SyncDirectory(d), target) == At(d, target)
    ensures At(d, target).Some? ==> Settled(SyncDirectory(d), target, At(d, target).value)
    ensures Possible(SyncDirectory(d), target) <= Possible(d, target)
    ensures Present(d, target) ==> Present(SyncDirectory(d), target)
  {
    var e := SyncDirectory(d);
    assert e.images[0] == d.images[|d.images| - 1];
    if At(d, target).Some? {
      var content := At(d, target).value;
      forall c ensures c in Possible(e, target) <==> c == content {
        if c == content { assert target in e.images[0] && e.files[e.images[0][target]].content == c; }
      }
    }
  }

  /** A crash leaves one of the possible contents, whole, and a sound disk to go on with. */
  lemma CrashLeavesWhole(d: Disk, target: string, temporary: string, image: nat, garbage: map<Inode, string>)
    requires Sound(d, target, temporary) && image < |d.images|
    ensures
      var e := Crash(d, image, garbage);
      && Sound(e, target, temporary)
      && Possible(e, target) <= Possible(d, target)
      && (At(e, target).Some? ==> At(e, target).value in Possible(d, target))
      && (Present(d, target) ==> Present(e, target) && At(e, target).Some?)
  {
    var e := Crash(d, image, garbage);
    assert e.images[0] == d.images[image];
  }
}
