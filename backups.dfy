/**
 * World backups (scripts/backup.py, scripts/load_backup.py, and the two
 * backup routines inside manager.py).
 *
 * The part of the server's disk these scripts touch is the world directory
 * under each server root and the backup directories, each a listing of named
 * entries. A backup is
 * a copy of the world named `world_backup_<YYYYMMDD_HHMMSS>`; after a copy
 * the oldest entry by name is pruned when there are more than the configured
 * maximum; a restore stops the server, deletes the world and copies in the
 * backup whose name sorts last. Whether a copy succeeds is a parameter
 * (`copyOk`), because it depends on the disk.
 */
module Backups {
  import opened Wrappers
  import opened Text
  import opened Timestamp
  import Config

  /** What a path names: a plain file, or a folder with its entries. */
  datatype Node = File | Folder(entries: seq<Entry>)
  datatype Entry = Entry(name: string, node: Node)

  /** The world directories that exist, by path (`<root>/world`), and every
      backup directory that exists, by path. */
  datatype Disk = Disk(worlds: map<string, Node>, dirs: map<string, seq<Entry>>)

  /** What `path` holds: None when it does not exist. */
  function World(d: Disk, path: string): Option<Node> {
    if path in d.worlds then Some(d.worlds[path]) else None
  }

  const BACKUP_PREFIX := "world_backup_"
  const MILESTONE_PREFIX := "milestone_backup_"

  /** `os.listdir`: the entry names, files and folders alike. */
  function Names(l: seq<Entry>): (ns: seq<string>)
    ensures |ns| == |l|
    ensures forall i :: 0 <= i < |l| ==> ns[i] == l[i].name
  {
    seq(|l|, i requires 0 <= i < |l| => l[i].name)
  }

  /** A directory never holds two entries of the same name. */
  predicate DistinctNames(l: seq<Entry>) {
    forall i, j :: 0 <= i < j < |l| ==> l[i].name != l[j].name
  }

  /** The names `os.path.isdir` accepts: the folders of the listing, in order. */
  function FolderNames(l: seq<Entry>): (ns: seq<string>)
    ensures forall n :: n in ns <==> exists i :: 0 <= i < |l| && l[i].name == n && l[i].node.Folder?
  {
    if l == [] then []
    else
      var rest := FolderNames(l[1..]);
      forall n | n in rest ensures exists i :: 1 <= i < |l| && l[i].name == n && l[i].node.Folder? {
        var i :| 0 <= i < |l[1..]| && l[1..][i].name == n && l[1..][i].node.Folder?;
        assert l[i + 1] == l[1..][i];
      }
      forall i | 1 <= i < |l| && l[i].node.Folder? ensures l[i].name in rest {
        assert l[1..][i - 1] == l[i];
      }
      if l[0].node.Folder? then [l[0].name] + rest else rest
  }

  /** The node stored under a name, if any. */
  function EntryNamed(l: seq<Entry>, name: string): (r: Option<Node>)
    ensures r.Some? <==> name in Names(l)
    ensures r.Some? ==> Entry(name, r.value) in l
  {
    if l == [] then None
    else if l[0].name == name then Some(l[0].node)
    else
      var r := EntryNamed(l[1..], name);
      assert Names(l) == [l[0].name] + Names(l[1..]);
      r
  }

  /** The folder stored under a name, if any. */
  function FolderNamed(l: seq<Entry>, name: string): (r: Option<seq<Entry>>)
    ensures r.Some? <==> name in FolderNames(l)
    ensures r.Some? ==> Entry(name, Folder(r.value)) in l
  {
    if l == [] then None
    else if l[0].name == name && l[0].node.Folder? then Some(l[0].node.entries)
    else
      var r := FolderNamed(l[1..], name);
      assert forall n :: n in FolderNames(l[1..]) ==> n in FolderNames(l) by {
        forall n | n in FolderNames(l[1..]) ensures n in FolderNames(l) {
          var i :| 0 <= i < |l[1..]| && l[1..][i].name == n && l[1..][i].node.Folder?;
          assert l[i + 1] == l[1..][i];
        }
      }
      r
  }

  /** The listing after `shutil.rmtree` of one entry. */
  function Without(l: seq<Entry>, name: string): (r: seq<Entry>)
    ensures forall e :: e in r <==> e in l && e.name != name
    ensures |r| <= |l|
  {
    if l == [] then []
    else if l[0].name == name then Without(l[1..], name)
    else [l[0]] + Without(l[1..], name)
  }

  /** The listing after `os.makedirs(dir, exist_ok=True)`. */
  function Makedirs(d: Disk, dir: string): (r: Disk)
    ensures dir in r.dirs && r.worlds == d.worlds
    ensures dir in d.dirs ==> r == d
    ensures dir !in d.dirs ==> r.dirs == d.dirs[dir := []]
  {
    if dir in d.dirs then d else d.(dirs := d.dirs[dir := []])
  }

  /** Whether `shutil.copytree(world, dir/name)` can copy: the world is a
      folder, the destination does not exist yet, and the disk cooperates. */
  predicate CanCopy(world: Option<Node>, l: seq<Entry>, name: string, copyOk: bool) {
    world.Some? && world.value.Folder? && name !in Names(l) && copyOk
  }

  /** A run of a backup routine: the disk afterwards and whether it completed. */
  datatype Step = Step(disk: Disk, ok: bool)

  // ---------------------------------------------------------------- scripts/backup.py

  /** The steps of `create_minecraft_backup` once the server root and the
      maximum are known, with `world` and `dir` the root's `world` and
      `backups` paths: make the directory, copy the world in, and, when the
      directory then holds more than `max` entries of any kind, delete the
      one whose name sorts first. `rmtree` of a plain file raises, which the
      script reports as a failure. */
  function Backup(d: Disk, world: string, dir: string, max: int, name: string, copyOk: bool): (r: Step)
    ensures r.disk.worlds == d.worlds
    ensures dir in r.disk.dirs && r.disk.dirs - {dir} == d.dirs - {dir}
    ensures var l := Makedirs(d, dir).dirs[dir];
            !CanCopy(World(d, world), l, name, copyOk) ==> r == Step(Makedirs(d, dir), false)
  {
    var d1 := Makedirs(d, dir);
    var l := d1.dirs[dir];
    if !CanCopy(World(d, world), l, name, copyOk) then Step(d1, false)
    else
      var l2 := l + [Entry(name, World(d, world).value)];
      if |l2| <= max then Step(d1.(dirs := d1.dirs[dir := l2]), true)
      else
        var oldest := Smallest(Names(l2));
        if EntryNamed(l2, oldest) == Some(File) then Step(d1.(dirs := d1.dirs[dir := l2]), false)
        else Step(d1.(dirs := d1.dirs[dir := Without(l2, oldest)]), true)
  }

  /** The listing the copy produces, before any pruning. */
  function Copied(d: Disk, world: string, dir: string, name: string): seq<Entry>
    requires World(d, world).Some?
  {
    Makedirs(d, dir).dirs[dir] + [Entry(name, World(d, world).value)]
  }

  /** Removing an entry whose name occurs once takes exactly one entry away. */
  lemma {:induction false} WithoutOne(l: seq<Entry>, name: string)
    requires DistinctNames(l) && name in Names(l)
    ensures |Without(l, name)| == |l| - 1
    ensures DistinctNames(Without(l, name))
  {
    DistinctTail(l);
    var rest := l[1..];
    if l[0].name == name {
      WithoutAbsent(rest, name);
    } else {
      assert name in Names(rest) by {
        var i :| 0 <= i < |l| && Names(l)[i] == name;
        assert Names(rest)[i - 1] == name;
      }
      WithoutOne(rest, name);
      DistinctCons(l[0], Without(rest, name));
    }
  }

  /** The entries after the first of a distinct listing are distinct, and
      none has the first one's name. */
  lemma DistinctTail(l: seq<Entry>)
    requires DistinctNames(l) && l != []
    ensures DistinctNames(l[1..])
    ensures forall i :: 0 <= i < |l[1..]| ==> l[1..][i].name != l[0].name
  {
    forall i, j | 0 <= i < j < |l[1..]| ensures l[1..][i].name != l[1..][j].name {
      assert l[1..][i] == l[i + 1] && l[1..][j] == l[j + 1];
    }
    forall i | 0 <= i < |l[1..]| ensures l[1..][i].name != l[0].name {
      assert l[1..][i] == l[i + 1];
    }
  }

  lemma {:induction false} WithoutAbsent(l: seq<Entry>, name: string)
    requires forall i :: 0 <= i < |l| ==> l[i].name != name
    requires DistinctNames(l)
    ensures Without(l, name) == l
  {
    if l != [] {
      DistinctTail(l);
      WithoutAbsent(l[1..], name);
    }
  }

  /** `[e] + w` has distinct names when `w` does and no entry of `w` has
      `e`'s name. */
  lemma DistinctCons(e: Entry, w: seq<Entry>)
    requires DistinctNames(w)
    requires forall x :: x in w ==> x.name != e.name
    ensures DistinctNames([e] + w)
  {
    forall i, j | 0 <= i < j < |[e] + w| ensures ([e] + w)[i].name != ([e] + w)[j].name {
      assert ([e] + w)[j] == w[j - 1];
      if i > 0 {
        assert ([e] + w)[i] == w[i - 1];
      }
    }
  }

  /** Copying a fresh name keeps the names distinct. */
  lemma AppendFresh(l: seq<Entry>, e: Entry)
    requires DistinctNames(l) && e.name !in Names(l)
    ensures DistinctNames(l + [e])
  {
    forall i | 0 <= i < |l| ensures l[i].name != e.name {
      assert Names(l)[i] == l[i].name;
    }
  }

  /** Retention: a directory holding at most `max` entries before a
      successful run holds at most `max` after it. */
  lemma BackupKeepsLimit(d: Disk, world: string, dir: string, max: int, name: string, copyOk: bool)
    requires dir in d.dirs ==> DistinctNames(d.dirs[dir]) && |d.dirs[dir]| <= max
    requires max >= 0
    requires Backup(d, world, dir, max, name, copyOk).ok
    ensures |Backup(d, world, dir, max, name, copyOk).disk.dirs[dir]| <= max
    ensures DistinctNames(Backup(d, world, dir, max, name, copyOk).disk.dirs[dir])
  {
    var l := Makedirs(d, dir).dirs[dir];
    var l2 := Copied(d, world, dir, name);
    AppendFresh(l, Entry(name, World(d, world).value));
    if |l2| > max {
      var oldest := Smallest(Names(l2));
      WithoutOne(l2, oldest);
    }
  }

  /** Pruning removes nothing unless the count after the copy exceeds the
      maximum, and then exactly the one entry whose name sorts first; every
      entry, files included, is counted. Above the maximum the run fails
      exactly when that entry is a plain file, which `rmtree` refuses. A
      failed copy removes nothing. */
  lemma BackupPrunesSmallest(d: Disk, world: string, dir: string, max: int, name: string, copyOk: bool)
    requires dir in d.dirs ==> DistinctNames(d.dirs[dir])
    ensures var l := Makedirs(d, dir).dirs[dir];
            var w := World(d, world);
            var r := Backup(d, world, dir, max, name, copyOk);
            && (!CanCopy(w, l, name, copyOk) ==> r.disk.dirs[dir] == l && !r.ok)
            && (CanCopy(w, l, name, copyOk) && |l| + 1 <= max ==>
                  r.ok && r.disk.dirs[dir] == Copied(d, world, dir, name))
            && (CanCopy(w, l, name, copyOk) && |l| + 1 > max ==>
                  var oldest := Smallest(Names(Copied(d, world, dir, name)));
                  && (forall n :: n in Names(Copied(d, world, dir, name)) ==> !LexLess(n, oldest))
                  && (r.ok <==> EntryNamed(Copied(d, world, dir, name), oldest) != Some(File))
                  && (r.ok ==> r.disk.dirs[dir] == Without(Copied(d, world, dir, name), oldest)
                               && |r.disk.dirs[dir]| == |l|)
                  && (!r.ok ==> r.disk.dirs[dir] == Copied(d, world, dir, name)))
  {
    var l := Makedirs(d, dir).dirs[dir];
    if CanCopy(World(d, world), l, name, copyOk) && |l| + 1 > max {
      var l2 := Copied(d, world, dir, name);
      AppendFresh(l, Entry(name, World(d, world).value));
      WithoutOne(l2, Smallest(Names(l2)));
    }
  }

  /** When every name in the directory is a backup name with a valid clock
      reading, the entry pruned is the oldest backup. */
  lemma SmallestIsOldest(names: seq<string>, stamps: seq<Stamp>, k: nat)
    requires |names| == |stamps| && k < |names|
    requires forall i :: 0 <= i < |names| ==> Valid(stamps[i]) && names[i] == BACKUP_PREFIX + Format(stamps[i])
    requires names[k] == Smallest(names)
    ensures forall i :: 0 <= i < |names| ==> !Before(stamps[i], stamps[k])
  {
    forall i | 0 <= i < |names| ensures !Before(stamps[i], stamps[k]) {
      NamedOrder(BACKUP_PREFIX, stamps[i], stamps[k]);
    }
  }

  // ---------------------------------------------------------------- scripts/load_backup.py

  /** A run of a restore: the disk afterwards, whether the stop script was
      launched, and whether the restore completed. */
  datatype Restore = Restore(disk: Disk, stopped: bool, ok: bool)

  /** The steps of `load_latest_backup` once the world path and the backup
      directory are known: list the folders (a missing directory raises and
      is reported as a failure), stop the server, delete the world if it
      exists, and copy the backup whose name sorts last into its place. No
      other world is touched. */
  function Load(d: Disk, world: string, dir: string, copyOk: bool): (r: Restore)
    ensures r.disk.dirs == d.dirs
    ensures forall p :: p != world ==> World(r.disk, p) == World(d, p)
    ensures r.stopped <==> dir in d.dirs && FolderNames(d.dirs[dir]) != []
    ensures !r.stopped ==> r.disk == d && !r.ok
    ensures r.ok <==> r.stopped && copyOk && (World(d, world).None? || World(d, world).value.Folder?)
    ensures r.ok ==>
              var latest := Greatest(FolderNames(d.dirs[dir]));
              && World(r.disk, world) == Some(Folder(FolderNamed(d.dirs[dir], latest).value))
              && Entry(latest, World(r.disk, world).value) in d.dirs[dir]
    ensures r.stopped && !r.ok && (World(d, world).None? || World(d, world).value.Folder?) ==> World(r.disk, world).None?
  {
    if dir !in d.dirs || FolderNames(d.dirs[dir]) == [] then Restore(d, false, false)
    else
      var l := d.dirs[dir];
      var latest := Greatest(FolderNames(l));
      if World(d, world).Some? && World(d, world).value.File? then Restore(d, true, false)
      else if !copyOk then Restore(d.(worlds := d.worlds - {world}), true, false)
      else Restore(d.(worlds := d.worlds[world := Folder(FolderNamed(l, latest).value)]), true, true)
  }

  /** The backup restored is the newest one: the greatest folder name, which
      for backup names of valid clock readings is the latest reading. */
  lemma RestoresNewest(names: seq<string>, stamps: seq<Stamp>, k: nat)
    requires |names| == |stamps| && k < |names|
    requires forall i :: 0 <= i < |names| ==> Valid(stamps[i]) && names[i] == BACKUP_PREFIX + Format(stamps[i])
    requires names[k] == Greatest(names)
    ensures forall i :: 0 <= i < |names| ==> !Before(stamps[k], stamps[i])
  {
    forall i | 0 <= i < |names| ensures !Before(stamps[k], stamps[i]) {
      NamedOrder(BACKUP_PREFIX, stamps[k], stamps[i]);
    }
  }

  /** A backup followed by a restore from the same root gives the world
      back, when the new backup's name sorts after every name already in the
      directory (as a later clock reading does, NamedOrder) and the maximum
      keeps at least one backup. `e` is the disk at restore time: the
      backups as the backup left them, the world anything but a file. */
  lemma BackupThenLoad(d: Disk, world: string, dir: string, max: int, name: string, e: Disk)
    requires dir in d.dirs ==> DistinctNames(d.dirs[dir])
    requires forall n :: n in Names(Makedirs(d, dir).dirs[dir]) ==> LexLess(n, name)
    requires max >= 1
    requires Backup(d, world, dir, max, name, true).ok
    requires e.dirs == Backup(d, world, dir, max, name, true).disk.dirs
    requires World(e, world).None? || World(e, world).value.Folder?
    ensures Load(e, world, dir, true).ok
    ensures World(Load(e, world, dir, true).disk, world) == World(d, world)
  {
    var b := Backup(d, world, dir, max, name, true);
    var l := Makedirs(d, dir).dirs[dir];
    NewBackupKept(d, world, dir, max, name);
    forall k | 0 <= k < |l| ensures LexLess(l[k].name, name) {
      assert Names(l)[k] == l[k].name;
    }
    LatestIsNew(b.disk.dirs[dir], Makedirs(d, dir).dirs[dir], name, World(d, world).value);
  }

  /** A successful backup keeps the new entry, and keeps only entries of the
      directory or the new one. */
  lemma NewBackupKept(d: Disk, world: string, dir: string, max: int, name: string)
    requires forall n :: n in Names(Makedirs(d, dir).dirs[dir]) ==> LexLess(n, name)
    requires max >= 1
    requires Backup(d, world, dir, max, name, true).ok
    ensures World(d, world).Some? && World(d, world).value.Folder?
    ensures name !in Names(Makedirs(d, dir).dirs[dir])
    ensures var kept := Backup(d, world, dir, max, name, true).disk.dirs[dir];
            && Entry(name, World(d, world).value) in kept
            && forall e :: e in kept ==> e == Entry(name, World(d, world).value) || e in Makedirs(d, dir).dirs[dir]
  {
    var l := Makedirs(d, dir).dirs[dir];
    var w := World(d, world).value;
    var l2 := Copied(d, world, dir, name);
    assert l2[|l|] == Entry(name, w);
    if |l2| > max {
      var oldest := Smallest(Names(l2));
      assert Names(l)[0] == l[0].name && Names(l2)[0] == l[0].name;
      assert LexLess(l[0].name, name);
      assert Names(l2)[|l|] == name;
      assert oldest != name;
    }
  }

  /** In a listing made of a directory's entries and one new folder whose
      name sorts after all of them, the restore picks the new folder. */
  lemma LatestIsNew(kept: seq<Entry>, l: seq<Entry>, name: string, w: Node)
    requires w.Folder? && Entry(name, w) in kept
    requires forall k :: 0 <= k < |l| ==> LexLess(l[k].name, name)
    requires forall e :: e in kept ==> e == Entry(name, w) || e in l
    ensures FolderNames(kept) != [] && Greatest(FolderNames(kept)) == name
    ensures FolderNamed(kept, name) == Some(w.entries)
  {
    var i :| 0 <= i < |kept| && kept[i] == Entry(name, w);
    assert name in FolderNames(kept);
    var latest := Greatest(FolderNames(kept));
    var j :| 0 <= j < |kept| && kept[j].name == latest && kept[j].node.Folder?;
    OlderOrNew(kept, l, name, w, kept[j]);
    var v := FolderNamed(kept, name).value;
    LexIrreflexive(name);
    OlderOrNew(kept, l, name, w, Entry(name, Folder(v)));
  }

  /** An entry of such a listing is the new one or sorts before it. */
  lemma OlderOrNew(kept: seq<Entry>, l: seq<Entry>, name: string, w: Node, e: Entry)
    requires forall k :: 0 <= k < |l| ==> LexLess(l[k].name, name)
    requires forall e :: e in kept ==> e == Entry(name, w) || e in l
    requires e in kept
    ensures e == Entry(name, w) || LexLess(e.name, name)
  {
  }

  // ---------------------------------------------------------------- manager.py milestone_backup

  /** `milestone_backup`: make the milestone directory, then look up the server
      root (which can raise, after the directory exists; `root` is None then),
      then copy the root's world in; nothing is ever pruned. A failure here is
      an exception. */
  function MilestoneCopy(d: Disk, dir: string, root: Option<string>, name: string, copyOk: bool): (r: Step)
    ensures r.disk.worlds == d.worlds && dir in r.disk.dirs
    ensures r.disk.dirs - {dir} == d.dirs - {dir}
    ensures r.ok <==> root.Some? && CanCopy(World(d, PathJoin(root.value, "world")), Makedirs(d, dir).dirs[dir], name, copyOk)
    ensures r.ok ==> r.disk.dirs[dir] == Copied(d, PathJoin(root.value, "world"), dir, name)
    ensures !r.ok ==> r.disk == Makedirs(d, dir)
  {
    var d1 := Makedirs(d, dir);
    if root.None? || !CanCopy(World(d, PathJoin(root.value, "world")), d1.dirs[dir], name, copyOk) then Step(d1, false)
    else Step(d1.(dirs := d1.dirs[dir := Copied(d, PathJoin(root.value, "world"), dir, name)]), true)
  }

  // ---------------------------------------------------------------- the disk, updated in place

  /** The server's files as the scripts change them. */
  class ServerFiles {
    var worlds: map<string, Node>
    var dirs: map<string, seq<Entry>>

    constructor (initial: Disk)
      ensures Contents() == initial
    {
      worlds := initial.worlds;
      dirs := initial.dirs;
    }

    function Contents(): Disk
      reads this
    {
      Disk(worlds, dirs)
    }

    /** scripts/backup.py `create_minecraft_backup`. The server root and the
        maximum are read before the `try`, so a bad config escapes as an
        exception and nothing is touched. */
    method CreateBackup(cm: Config.ConfigManager, now: Stamp, copyOk: bool) returns (r: Result<bool, Config.ConfigError>)
      modifies this
      ensures cm.ServerRoot().Err? ==> r == Err(cm.ServerRoot().error) && Contents() == old(Contents())
      ensures cm.ServerRoot().Ok? && cm.MaxWorldBackups().Err? ==>
                r == Err(cm.MaxWorldBackups().error) && Contents() == old(Contents())
      ensures cm.ServerRoot().Ok? && cm.MaxWorldBackups().Ok? ==>
                var root := cm.ServerRoot().value;
                var step := Backup(old(Contents()), PathJoin(root, "world"), PathJoin(root, "backups"),
                                   cm.MaxWorldBackups().value, BACKUP_PREFIX + Format(now), copyOk);
                r == Ok(step.ok) && Contents() == step.disk
    {
      var root := cm.ServerRoot();
      if root.Err? {
        return Err(root.error);
      }
      var max := cm.MaxWorldBackups();
      if max.Err? {
        return Err(max.error);
      }
      var ok := CopyAndPrune(PathJoin(root.value, "world"), PathJoin(root.value, "backups"), max.value,
                             BACKUP_PREFIX + Format(now), copyOk);
      return Ok(ok);
    }

    /** The `try` block of `create_minecraft_backup`, with the world, the
        directory, the maximum and the new name already worked out. */
    method CopyAndPrune(world: string, dir: string, max: int, name: string, copyOk: bool) returns (ok: bool)
      modifies this
      ensures Step(Contents(), ok) == Backup(old(Contents()), world, dir, max, name, copyOk)
    {
      var w := World(Contents(), world);
      if dir !in dirs {
        dirs := dirs[dir := []];
      }
      var listing := dirs[dir];
      if !CanCopy(w, listing, name, copyOk) {
        return false;
      }
      listing := listing + [Entry(name, w.value)];
      ok := true;
      if |listing| > max {
        var oldest := Smallest(Names(listing));
        if EntryNamed(listing, oldest) == Some(File) {
          ok := false;
        } else {
          listing := Without(listing, oldest);
        }
      }
      dirs := dirs[dir := listing];
    }

    /** scripts/load_backup.py `load_latest_backup` (`subdir` is `backups`),
        and its copy at manager.py:21-65 with the subdirectory as a parameter.
        `cm` is the config the caller opened. `stopped` is whether the stop
        script was launched; its outcome is not looked at. */
    method LoadLatestBackup(cm: Config.ConfigManager, subdir: string, copyOk: bool)
      returns (r: Result<bool, Config.ConfigError>, stopped: bool)
      modifies this
      ensures cm.ServerRoot().Err? ==> r == Err(cm.ServerRoot().error) && !stopped && Contents() == old(Contents())
      ensures cm.ServerRoot().Ok? ==>
                var root := cm.ServerRoot().value;
                var restore := Load(old(Contents()), PathJoin(root, "world"), PathJoin(root, subdir), copyOk);
                r == Ok(restore.ok) && stopped == restore.stopped && Contents() == restore.disk
    {
      var root := cm.ServerRoot();
      if root.Err? {
        return Err(root.error), false;
      }
      var world := PathJoin(root.value, "world");
      var dir := PathJoin(root.value, subdir);
      if dir !in dirs {
        return Ok(false), false;
      }
      var backups := FolderNames(dirs[dir]);
      if backups == [] {
        return Ok(false), false;
      }
      var latest := Greatest(backups);
      stopped := true;
      if world in worlds {
        if worlds[world].File? {
          return Ok(false), true;
        }
        worlds := worlds - {world};
      }
      if !copyOk {
        return Ok(false), true;
      }
      worlds := worlds[world := Folder(FolderNamed(dirs[dir], latest).value)];
      return Ok(true), true;
    }

    /** manager.py `milestone_backup`; `ok` is false when it raised. */
    method MilestoneBackup(cm: Config.ConfigManager, now: Stamp, copyOk: bool) returns (ok: bool)
      modifies this
      ensures var root := if cm.ServerRoot().Ok? then Some(cm.ServerRoot().value) else None;
              var step := MilestoneCopy(old(Contents()), cm.MilestoneBackupDir(), root,
                                        MILESTONE_PREFIX + Format(now), copyOk);
              ok == step.ok && Contents() == step.disk
    {
      var dir := cm.MilestoneBackupDir();
      var name := MILESTONE_PREFIX + Format(now);
      if dir !in dirs {
        dirs := dirs[dir := []];
      }
      var root := cm.ServerRoot();
      if root.Err? {
        return false;
      }
      var w := World(Contents(), PathJoin(root.value, "world"));
      if !CanCopy(w, dirs[dir], name, copyOk) {
        return false;
      }
      dirs := dirs[dir := dirs[dir] + [Entry(name, w.value)]];
      return true;
    }
  }
}
