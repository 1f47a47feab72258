/** `backup.rs`: write the server's `world` directory, as one tar.gz archive,
    to `backup.tar.gz` in the backup directory. */
module Backup {
  import opened Paths
  import opened Os
  import opened System
  import opened Files

  const WORLD_NAME := "world"

  const ARCHIVE_NAME := "backup.tar.gz"

  /** What the archive holds when nothing was appended to it: the tar
      builder and the gzip encoder still finish the stream when they are
      dropped on the error path. */
  const EMPTY_ARCHIVE := Archive({}, map[])

  /** `<server>/world`. */
  function WorldPath(server: string): string {
    Join(server, WORLD_NAME)
  }

  /** `<backup dir>/backup.tar.gz`: the same name on every run. */
  function ArchivePath(target: string): string {
    Join(target, ARCHIVE_NAME)
  }

  /** The backup directory asked for (lines 21-24): the argument when there
      is one; only without it is the configuration read. */
  function ChooseBackupDir(m: Machine, toml: TomlCodec, server: string, backupDir: Option<string>): (r: Result<string>)
    ensures backupDir.Some? ==> r == Ok(backupDir.value)
    ensures backupDir.None? ==> (r.Ok? <==> LoadConfig(m, toml, server).Ok?)
    ensures backupDir.None? && r.Ok? ==> r.value == LoadConfig(m, toml, server).value.backup.dir
  {
    match backupDir
    case Some(d) => Ok(d)
    case None =>
      var config :- LoadConfig(m, toml, server);
      Ok(config.backup.dir)
  }

  /** Where the backup directory is (lines 25-29): a relative one under the
      server directory, an absolute one as it is. Both cases are what
      `server.join(dir)` alone would give. */
  function BackupDirFor(server: string, dir: string): (r: string)
    ensures IsAbsolute(dir) ==> r == dir
    ensures IsRelative(dir) ==> r == Under(server) + dir
    ensures r == Join(server, dir)
  {
    if IsRelative(dir) then Join(server, dir) else dir
  }

  /** `q` lies strictly inside the directory `root`. */
  predicate Within(root: string, q: string) {
    |q| > |root| && q[..|root|] == root && q[|root|] == '/'
  }

  /** The name of `q`, which lies inside `root`, once `root` is renamed to
      `name`: what `append_dir_all(name, root)` calls the entry. */
  function Rebase(root: string, name: string, q: string): string
    requires Within(root, q)
  {
    name + q[|root|..]
  }

  /** Different paths inside `root` get different entry names. */
  lemma RebaseInjective(root: string, name: string)
    ensures forall q1, q2 {:trigger Rebase(root, name, q1), Rebase(root, name, q2)} ::
      Within(root, q1) && Within(root, q2) && Rebase(root, name, q1) == Rebase(root, name, q2) ==> q1 == q2
  {
    forall q1, q2 | Within(root, q1) && Within(root, q2) && Rebase(root, name, q1) == Rebase(root, name, q2)
      ensures q1 == q2
    {
      assert q1[|root|..] == Rebase(root, name, q1)[|name|..];
      assert q2[|root|..] == Rebase(root, name, q2)[|name|..];
      assert q1 == q1[..|root|] + q1[|root|..];
      assert q2 == q2[..|root|] + q2[|root|..];
    }
  }

  /** The archive `append_dir_all(name, root)` builds: a directory entry
      `name` and, renamed the same way, every directory and file inside
      `root`. */
  function Snapshot(m: Machine, root: string, name: string): Content {
    RebaseInjective(root, name);
    Archive(
      {name} + (set d | d in m.dirs && Within(root, d) :: Rebase(root, name, d)),
      map q | q in m.files && Within(root, q) :: Rebase(root, name, q) := m.files[q])
  }

  /** What `append_dir_all(name, root)` puts in the archive: every entry lies
      inside `name`, and every file under `root` is there, under its renamed
      path, with its content. */
  lemma SnapshotShape(m: Machine, root: string, name: string)
    ensures var a := Snapshot(m, root, name);
            && a.Archive? && name in a.dirs
            && (forall e :: e in a.files ==> Within(name, e))
            && (forall e :: e in a.dirs ==> e == name || Within(name, e))
            && (forall q :: q in m.files && Within(root, q) ==>
                  Rebase(root, name, q) in a.files && a.files[Rebase(root, name, q)] == m.files[q])
  {
    var a := Snapshot(m, root, name);
    RebaseInjective(root, name);
    forall q | q in m.files && Within(root, q)
      ensures Rebase(root, name, q) in a.files && a.files[Rebase(root, name, q)] == m.files[q]
    {
      assert q in m.files && Within(root, q);
    }
  }

  /** The files under `root`, where they are. */
  function Subtree(m: Machine, root: string): map<string, Content> {
    map q | q in m.files && Within(root, q) :: m.files[q]
  }

  /** The directories under `root`, and `root` itself. */
  function SubtreeDirs(m: Machine, root: string): set<string> {
    {root} + set d | d in m.dirs && Within(root, d)
  }

  /** Joining different relative names onto one directory gives different
      paths. */
  lemma JoinInjective(dest: string)
    ensures forall a, b {:trigger Join(dest, a), Join(dest, b)} ::
      IsRelative(a) && IsRelative(b) && Join(dest, a) == Join(dest, b) ==> a == b
  {
    forall a, b | IsRelative(a) && IsRelative(b) && Join(dest, a) == Join(dest, b)
      ensures a == b
    {
      JoinDistinct(dest, a, b);
    }
  }

  /** Extracting an archive's files into `dest`: each relative entry lands at
      `dest` joined with its name. */
  function UnpackFiles(a: Content, dest: string): map<string, Content>
    requires a.Archive?
  {
    JoinInjective(dest);
    map e | e in a.files && IsRelative(e) :: Join(dest, e) := a.files[e]
  }

  /** The directories extracting an archive into `dest` creates. */
  function UnpackDirs(a: Content, dest: string): set<string>
    requires a.Archive?
  {
    set e | e in a.dirs && IsRelative(e) :: Join(dest, e)
  }

  /** `backup(server, backup_dir)`. The directory is created before the
      archive file, and the archive file is created (or truncated) before
      `world` is read, so a missing `world` leaves an empty archive behind. */
  function BackupRun(m: Machine, toml: TomlCodec, server: string, backupDir: Option<string>): (r: Run<()>)
    ensures r.after.locked == m.locked && r.after.requests == m.requests
    ensures m.Consistent() ==> r.after.Consistent()
  {
    var (_, dir) :- Run(m, ChooseBackupDir(m, toml, server, backupDir));
    var target := BackupDirFor(server, dir);
    var (m2, _) :- OpenArchiveRun(m, target);
    var world := WorldPath(server);
    var archive := ArchivePath(target);
    if world in m2.dirs then
      Run(Fill(m2, archive, Snapshot(m2, world, WORLD_NAME)), Ok(()))
    else
      Run(Fill(m2, archive, EMPTY_ARCHIVE), Err(Io(if world in m2.files then NotADirectory else NotFound, world)))
  }

  /** Lines 30 and 39: `create_dir_all(target)`, then `File::create` on the
      archive path. When both succeed the archive is there, empty, and its
      directory exists; when `create_dir_all` fails, its outcome is the
      whole outcome, and no file changes. */
  function OpenArchiveRun(m: Machine, target: string): (r: Run<()>)
    ensures r.after.files.Keys <= m.files.Keys + {ArchivePath(target)}
    ensures forall q :: q != ArchivePath(target) ==> SameFile(m, r.after, q)
    ensures m.dirs <= r.after.dirs <= m.dirs + Chain(target)
    ensures r.after.locked == m.locked && r.after.requests == m.requests
    ensures CreateDirAll(m, target).result.Err? ==> r == CreateDirAll(m, target) && r.after.files == m.files
    ensures r.result.Ok? ==>
      && (target == [] || target in r.after.dirs)
      && ArchivePath(target) in r.after.files
      && r.after.files[ArchivePath(target)] == Text("")
    ensures m.Consistent() ==> r.after.Consistent()
  {
    var (m1, _) :- CreateDirAll(m, target);
    CreateFile(m1, ArchivePath(target))
  }

  /** Every directory `create_dir_all(d)` makes is no longer than `d`. */
  lemma ChainNoLonger(d: string)
    ensures forall x :: x in Chain(d) ==> |x| <= |d|
  {
    forall x | x in Chain(d)
      ensures |x| <= |d|
    {
      if x != d {
        var i :| 0 < i < |d| && d[i] == '/' && x == d[..i];
      }
    }
  }

  /** The backup directory is in place before the archive is created
      (lines 30 and 39): once `create_dir_all` has succeeded on a directory
      written without a trailing separator, creating the archive can fail
      only because a directory stands at its path or its path is refused,
      never for a missing parent. */
  lemma BackupDirReadyForArchive(m: Machine, target: string)
    requires CreateDirAll(m, target).result.Ok?
    requires target == [] || target[|target| - 1] != '/'
    ensures CreateDirAll(m, target).after.ParentExists(ArchivePath(target))
    ensures OpenArchiveRun(m, target).result.Ok? <==> ArchivePath(target) !in m.dirs && ArchivePath(target) !in m.locked
  {
    var m1 := CreateDirAll(m, target).after;
    var archive := ArchivePath(target);
    assert IsName(ARCHIVE_NAME) by {
      forall i | 0 <= i < |ARCHIVE_NAME| ensures ARCHIVE_NAME[i] != '/' {
        assert ARCHIVE_NAME == ['b', 'a', 'c', 'k', 'u', 'p', '.', 't', 'a', 'r', '.', 'g', 'z'];
      }
    }
    ParentOfJoin(target, ARCHIVE_NAME);
    if target != [] {
      assert Under(target) == target + "/";
      assert Parent(archive) == target;
    }
    ChainNoLonger(target);
    assert |archive| > |target|;
    assert archive in m1.dirs <==> archive in m.dirs;
  }

  /** Entries under `world` extract back into the server directory at
      exactly the path they were read from. */
  lemma RebaseJoin(server: string, q: string)
    requires Within(WorldPath(server), q)
    ensures IsRelative(Rebase(WorldPath(server), WORLD_NAME, q))
    ensures Join(server, Rebase(WorldPath(server), WORLD_NAME, q)) == q
  {
    var world := WorldPath(server);
    var e := Rebase(world, WORLD_NAME, q);
    assert e[0] == 'w';
    assert world == Under(server) + WORLD_NAME;
    calc {
      Join(server, e);
      Under(server) + (WORLD_NAME + q[|world|..]);
      (Under(server) + WORLD_NAME) + q[|world|..];
      q[..|world|] + q[|world|..];
      q;
    }
  }

  /** Extracting the archive of `world` into the server directory gives
      back every file under `world`, at its path and with its content, and
      nothing else. */
  lemma {:induction false} BackupFilesRoundTrip(m: Machine, server: string)
    ensures UnpackFiles(Snapshot(m, WorldPath(server), WORLD_NAME), server) == Subtree(m, WorldPath(server))
  {
    var u := UnpackFiles(Snapshot(m, WorldPath(server), WORLD_NAME), server);
    var s := Subtree(m, WorldPath(server));
    forall q | q in s
      ensures q in u && u[q] == s[q]
    {
      FileSurvivesRoundTrip(m, server, q);
    }
    forall p | p in u
      ensures p in s
    {
      EntryComesFromWorld(m, server, p);
    }
  }

  /** A file under `world` comes back out of the archive unchanged. */
  lemma FileSurvivesRoundTrip(m: Machine, server: string, q: string)
    requires q in m.files && Within(WorldPath(server), q)
    ensures var u := UnpackFiles(Snapshot(m, WorldPath(server), WORLD_NAME), server);
            q in u && u[q] == m.files[q]
  {
    var world := WorldPath(server);
    var a := Snapshot(m, world, WORLD_NAME);
    var u := UnpackFiles(a, server);
    RebaseJoin(server, q);
    var e := Rebase(world, WORLD_NAME, q);
    RebaseInjective(world, WORLD_NAME);
    assert e in a.files && a.files[e] == m.files[q];
    assert e in a.files && IsRelative(e) && Join(server, e) == q;
    JoinInjective(server);
    assert u[q] == a.files[e];
  }

  /** Every file the archive extracts was a file under `world`. */
  lemma EntryComesFromWorld(m: Machine, server: string, p: string)
    requires p in UnpackFiles(Snapshot(m, WorldPath(server), WORLD_NAME), server)
    ensures p in m.files && Within(WorldPath(server), p)
  {
    var world := WorldPath(server);
    var a := Snapshot(m, world, WORLD_NAME);
    var e :| e in a.files && IsRelative(e) && Join(server, e) == p;
    var q :| q in m.files && Within(world, q) && Rebase(world, WORLD_NAME, q) == e;
    RebaseJoin(server, q);
  }

  /** The same for the directories: extraction recreates `world` and every
      directory under it. */
  lemma {:induction false} BackupDirsRoundTrip(m: Machine, server: string)
    ensures UnpackDirs(Snapshot(m, WorldPath(server), WORLD_NAME), server) == SubtreeDirs(m, WorldPath(server))
  {
    var world := WorldPath(server);
    var a := Snapshot(m, world, WORLD_NAME);
    var u := UnpackDirs(a, server);
    var s := SubtreeDirs(m, world);
    assert Join(server, WORLD_NAME) == world;
    assert WORLD_NAME in a.dirs && IsRelative(WORLD_NAME);
    forall q | q in s
      ensures q in u
    {
      if q != world {
        RebaseJoin(server, q);
        assert Rebase(world, WORLD_NAME, q) in a.dirs;
      }
    }
    forall p | p in u
      ensures p in s
    {
      var e :| e in a.dirs && IsRelative(e) && Join(server, e) == p;
      if e != WORLD_NAME {
        var q :| q in m.dirs && Within(world, q) && Rebase(world, WORLD_NAME, q) == e;
        RebaseJoin(server, q);
      }
    }
  }

  /** What one backup does once its directory is chosen: which steps must
      succeed for it to succeed, what the archive then holds, what a missing
      `world` leaves behind, and that no file but the archive changes. */
  lemma BackupEffect(m: Machine, toml: TomlCodec, server: string, backupDir: Option<string>, dir: string)
    requires ChooseBackupDir(m, toml, server, backupDir) == Ok(dir)
    ensures var target := BackupDirFor(server, dir);
            var archive := ArchivePath(target);
            var world := WorldPath(server);
            var created := OpenArchiveRun(m, target);
            var r := BackupRun(m, toml, server, backupDir);
            && (r.result.Ok? <==> created.result.Ok? && world in created.after.dirs)
            && (r.result.Ok? ==> archive in r.after.files && r.after.files[archive] == Snapshot(created.after, world, WORLD_NAME))
            && (created.result.Ok? && world !in created.after.dirs ==>
                  archive in r.after.files && r.after.files[archive] == EMPTY_ARCHIVE && r.result.Err?)
            && (created.result.Err? ==> r == created)
            && r.after.dirs == created.after.dirs
            && r.after.files.Keys <= m.files.Keys + {archive}
            && (forall q :: q != archive ==> SameFile(m, r.after, q))
  {
    var target := BackupDirFor(server, dir);
    var archive := ArchivePath(target);
    var world := WorldPath(server);
    var created := OpenArchiveRun(m, target);
    var r := BackupRun(m, toml, server, backupDir);
    if created.result.Err? {
      assert r == created;
    } else {
      var content := if world in created.after.dirs then Snapshot(created.after, world, WORLD_NAME) else EMPTY_ARCHIVE;
      assert r.after == created.after.(files := created.after.files[archive := content]);
      forall q | q != archive
        ensures SameFile(m, r.after, q)
      {
        assert SameFile(m, created.after, q);
      }
    }
  }

  /** The archive always has the same name, so backing up twice into the
      same directory leaves one archive, not two: no file appears but
      `backup.tar.gz`, however many backups run. */
  lemma BackupReplacesPrevious(m: Machine, toml: TomlCodec, server: string, dir: string)
    ensures var r1 := BackupRun(m, toml, server, Some(dir));
            var r2 := BackupRun(r1.after, toml, server, Some(dir));
            && r2.after.files.Keys <= m.files.Keys + {ArchivePath(BackupDirFor(server, dir))}
            && (forall q :: q != ArchivePath(BackupDirFor(server, dir)) ==> SameFile(m, r2.after, q))
  {
    var r1 := BackupRun(m, toml, server, Some(dir));
    var r2 := BackupRun(r1.after, toml, server, Some(dir));
    var archive := ArchivePath(BackupDirFor(server, dir));
    BackupEffect(m, toml, server, Some(dir), dir);
    BackupEffect(r1.after, toml, server, Some(dir), dir);
    forall q | q != archive
      ensures SameFile(m, r2.after, q)
    {
      assert SameFile(m, r1.after, q) && SameFile(r1.after, r2.after, q);
    }
  }

  /** A failure to choose the backup directory changes nothing; a failure
      to create it leaves only the directories `create_dir_all` made before
      it stopped. Either way no file changes, so no archive appears. */
  lemma BackupFailsCleanBeforeArchive(m: Machine, toml: TomlCodec, server: string, backupDir: Option<string>)
    requires
      || ChooseBackupDir(m, toml, server, backupDir).Err?
      || CreateDirAll(m, BackupDirFor(server, ChooseBackupDir(m, toml, server, backupDir).value)).result.Err?
    ensures BackupRun(m, toml, server, backupDir).result.Err?
    ensures BackupRun(m, toml, server, backupDir).after.files == m.files
    ensures ChooseBackupDir(m, toml, server, backupDir).Err? ==> BackupRun(m, toml, server, backupDir).after == m
    ensures ChooseBackupDir(m, toml, server, backupDir).Ok? ==>
              var target := BackupDirFor(server, ChooseBackupDir(m, toml, server, backupDir).value);
              BackupRun(m, toml, server, backupDir) == CreateDirAll(m, target)
  {
  }

  method Backup(h: Host, toml: TomlCodec, server: string, backupDir: Option<string>) returns (r: Result<()>)
    requires h.Valid()
    modifies h
    ensures h.Valid()
    ensures h.State() == BackupRun(old(h.State()), toml, server, backupDir).after
    ensures r == BackupRun(old(h.State()), toml, server, backupDir).result
  {
    var dir: string;
    match backupDir {
      case Some(d) =>
        dir := d;
      case None =>
        var config :- GetConfig(h, toml, server);
        dir := config.backup.dir;
    }
    var target := if IsRelative(dir) then Join(server, dir) else dir;
    var _ :- OpenArchive(h, target);

    var world := Join(server, WORLD_NAME);
    var archive := Join(target, ARCHIVE_NAME);

    if world in h.dirs {
      h.Fill(archive, Snapshot(h.State(), world, WORLD_NAME));
      r := Ok(());
    } else {
      h.Fill(archive, EMPTY_ARCHIVE);
      r := Err(Io(if world in h.files then NotADirectory else NotFound, world));
    }
  }

  /** Lines 30 and 39 of `backup`. */
  method OpenArchive(h: Host, target: string) returns (r: Result<()>)
    requires h.Valid()
    modifies h
    ensures h.Valid()
    ensures h.State() == OpenArchiveRun(old(h.State()), target).after
    ensures r == OpenArchiveRun(old(h.State()), target).result
  {
    var _ :- h.CreateDirAll(target);
    r := h.CreateFile(Join(target, ARCHIVE_NAME));
  }
}
