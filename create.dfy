/** `create.rs`: set up a server directory (management directory,
    configuration, start script, accepted EULA) and then update it to the
    configured version. */
module Create {
  import opened Paths
  import opened Os
  import opened System
  import opened Files
  import opened MinecraftApi
  import opened Update

  const START_SCRIPT_NAME := "start-server.sh"

  const EULA_NAME := "eula.txt"

  const EULA_ACCEPTED := "eula=true"

  /** The start script: a shell line that runs the jar with the initial heap
      size `xms` and then the maximum heap size `xmx`. */
  function StartScript(xms: string, xmx: string): string {
    "#!/bin/sh\njava -jar -Xms" + xms + " -Xmx" + xmx + " minecraft_server.jar nogui"
  }

  /** The start script is a `sh` script whose command runs, in `nogui` mode,
      the very jar that `update` installs, with the initial heap size `xms`
      and then the maximum heap size `xmx`. */
  lemma StartScriptShape(xms: string, xmx: string)
    ensures var r := StartScript(xms, xmx);
            var heap := "-Xms" + xms + " -Xmx" + xmx;
            var tail := " " + JAR_FILE_NAME + " nogui";
            && |r| > 10 && r[..10] == "#!/bin/sh\n"
            && |r| >= 20 + |heap| && r[20..20 + |heap|] == heap
            && |r| >= |tail| && r[|r| - |tail|..] == tail
  {
  }

  function StartScriptPath(server: string): string {
    Join(server, START_SCRIPT_NAME)
  }

  function EulaPath(server: string): string {
    Join(server, EULA_NAME)
  }

  /** `toml::to_string(&config)?`. */
  function Serialize(toml: TomlCodec, config: Config): Result<string> {
    match toml.serialize(config)
    case Some(text) => Ok(text)
    case None => Err(Toml)
  }

  /** The five files `create` touches are five different files. */
  lemma CreateLayoutDistinct(server: string)
    ensures ConfigPath(server) != MarkerPath(server) && ConfigPath(server) != JarPath(server) && MarkerPath(server) != JarPath(server)
    ensures StartScriptPath(server) != EulaPath(server)
    ensures StartScriptPath(server) != ConfigPath(server) && EulaPath(server) != ConfigPath(server)
    ensures StartScriptPath(server) != MarkerPath(server) && EulaPath(server) != MarkerPath(server)
    ensures StartScriptPath(server) != JarPath(server) && EulaPath(server) != JarPath(server)
  {
    LayoutDistinct(server);
    InManagerDir(server, CONFIG_FILE_NAME);
    InManagerDir(server, MARKER_FILE_NAME);
    var config := MANAGER_DIR_NAME + "/" + CONFIG_FILE_NAME;
    var marker := MANAGER_DIR_NAME + "/" + MARKER_FILE_NAME;
    assert |config| == 30 && |marker| == 31 && |JAR_FILE_NAME| == 20;
    assert |START_SCRIPT_NAME| == 15 && |EULA_NAME| == 8;
    JoinDistinct(server, START_SCRIPT_NAME, EULA_NAME);
    JoinDistinct(server, START_SCRIPT_NAME, config);
    JoinDistinct(server, START_SCRIPT_NAME, marker);
    JoinDistinct(server, START_SCRIPT_NAME, JAR_FILE_NAME);
    JoinDistinct(server, EULA_NAME, config);
    JoinDistinct(server, EULA_NAME, marker);
    JoinDistinct(server, EULA_NAME, JAR_FILE_NAME);
  }

  /** `create(server, version, screen, xmx, xms, backup_dir)`: set the
      directory up and then update it, the update running only if the set-up
      succeeded. */
  function CreateRun(
    m: Machine, net: Network, toml: TomlCodec,
    server: string, version: string, screen: string, xmx: string, xms: string, backupDir: string): (r: Run<()>)
    ensures r.after.locked == m.locked
    ensures m.Consistent() ==> r.after.Consistent()
  {
    var (p, _) :- SetUpRun(m, toml, server, version, screen, xmx, xms, backupDir);
    UpdateRun(p, net, toml, server, None)
  }

  /** The first part of `create`: the management directory, then the
      configuration, the start script and the EULA, each step running only
      if the one before it succeeded. */
  function SetUpRun(
    m: Machine, toml: TomlCodec,
    server: string, version: string, screen: string, xmx: string, xms: string, backupDir: string): (r: Run<()>)
    ensures r.after.locked == m.locked && r.after.requests == m.requests
    ensures m.Consistent() ==> r.after.Consistent()
  {
    var (m1, _) :- CreateDirAll(m, ManagerDir(server));
    var (_, text) :- Run(m1, Serialize(toml, Config(server, version, screen, BackupConfig(backupDir))));
    var (m2, _) :- WriteRun(m1, ConfigPath(server), text);
    var (m3, _) :- WriteRun(m2, StartScriptPath(server), StartScript(xms, xmx));
    WriteRun(m3, EulaPath(server), EULA_ACCEPTED)
  }

  /** After the three writes the management directory exists and the three
      files hold exactly the configuration of the arguments, the start
      script and the accepted EULA. */
  lemma SetUpLayout(
    m: Machine, toml: TomlCodec,
    server: string, version: string, screen: string, xmx: string, xms: string, backupDir: string)
    requires SetUpRun(m, toml, server, version, screen, xmx, xms, backupDir).result.Ok?
    ensures var p := SetUpRun(m, toml, server, version, screen, xmx, xms, backupDir).after;
            var config := Config(server, version, screen, BackupConfig(backupDir));
            && ManagerDir(server) in p.dirs
            && p.dirs == m.dirs + (if ManagerDir(server) in m.dirs then {} else Chain(ManagerDir(server)))
            && toml.serialize(config).Some?
            && ConfigPath(server) in p.files && p.files[ConfigPath(server)] == Text(toml.serialize(config).value)
            && StartScriptPath(server) in p.files && p.files[StartScriptPath(server)] == Text(StartScript(xms, xmx))
            && EulaPath(server) in p.files && p.files[EulaPath(server)] == Text(EULA_ACCEPTED)
            && p.requests == m.requests
            && (forall q :: q != ConfigPath(server) && q != StartScriptPath(server) && q != EulaPath(server) ==> SameFile(m, p, q))
  {
    CreateLayoutDistinct(server);
    var config := Config(server, version, screen, BackupConfig(backupDir));
    var s1 := CreateDirAll(m, ManagerDir(server));
    var text := Serialize(toml, config).value;
    var s2 := WriteRun(s1.after, ConfigPath(server), text);
    var s3 := WriteRun(s2.after, StartScriptPath(server), StartScript(xms, xmx));
    var s4 := WriteRun(s3.after, EulaPath(server), EULA_ACCEPTED);
    assert s4 == SetUpRun(m, toml, server, version, screen, xmx, xms, backupDir);
    assert s4.after == s1.after.(files := s1.after.files
      [ConfigPath(server) := Text(text)]
      [StartScriptPath(server) := Text(StartScript(xms, xmx))]
      [EulaPath(server) := Text(EULA_ACCEPTED)]);
    forall q | q != ConfigPath(server) && q != StartScriptPath(server) && q != EulaPath(server)
      ensures SameFile(m, s4.after, q)
    {
      assert q in s4.after.files <==> q in s1.after.files;
      assert s1.after.files == m.files;
    }
  }

  /** `create` is the three writes followed by `update(server, None)`; with a
      TOML library that reads back what it writes, that update chooses the
      `version` argument, so `create` then behaves exactly as an update
      asked for that version. */
  lemma CreateThenUpdatesToGivenVersion(
    m: Machine, net: Network, toml: TomlCodec,
    server: string, version: string, screen: string, xmx: string, xms: string, backupDir: string)
    requires RoundTrips(toml)
    requires SetUpRun(m, toml, server, version, screen, xmx, xms, backupDir).result.Ok?
    ensures var p := SetUpRun(m, toml, server, version, screen, xmx, xms, backupDir).after;
            && LoadConfig(p, toml, server) == Ok(Config(server, version, screen, BackupConfig(backupDir)))
            && CreateRun(m, net, toml, server, version, screen, xmx, xms, backupDir) == UpdateRun(p, net, toml, server, Some(version))
  {
    var p := SetUpRun(m, toml, server, version, screen, xmx, xms, backupDir).after;
    var config := Config(server, version, screen, BackupConfig(backupDir));
    SetUpLayout(m, toml, server, version, screen, xmx, xms, backupDir);
    LoadConfigOfSaved(p, toml, server, config);
    assert ChooseVersion(p, toml, server, None) == ChooseVersion(p, toml, server, Some(version));
    UpdateDependsOnChoiceOnly(p, net, toml, server, None, Some(version));
    assert CreateRun(m, net, toml, server, version, screen, xmx, xms, backupDir) == UpdateRun(p, net, toml, server, None);
  }

  /** A failure in any of the first steps stops everything after it: no
      request is sent and the jar and the marker are untouched; a failure to
      create the management directory is the whole outcome, so no file
      changes and only the directories `create_dir_all` made remain. */
  lemma CreateStopsAtFirstFailure(
    m: Machine, net: Network, toml: TomlCodec,
    server: string, version: string, screen: string, xmx: string, xms: string, backupDir: string)
    requires SetUpRun(m, toml, server, version, screen, xmx, xms, backupDir).result.Err?
    ensures var r := CreateRun(m, net, toml, server, version, screen, xmx, xms, backupDir);
            && r.result.Err?
            && r.after.requests == m.requests
            && SameFile(m, r.after, JarPath(server))
            && SameFile(m, r.after, MarkerPath(server))
            && (CreateDirAll(m, ManagerDir(server)).result.Err? ==>
                  r == CreateDirAll(m, ManagerDir(server)) && r.after.files == m.files)
  {
    CreateLayoutDistinct(server);
    var r := CreateRun(m, net, toml, server, version, screen, xmx, xms, backupDir);
    assert r == SetUpRun(m, toml, server, version, screen, xmx, xms, backupDir);
    SetUpFrame(m, toml, server, version, screen, xmx, xms, backupDir);
  }

  /** Whatever the set-up does, it changes no file but the configuration,
      the start script and the EULA. */
  lemma SetUpFrame(
    m: Machine, toml: TomlCodec,
    server: string, version: string, screen: string, xmx: string, xms: string, backupDir: string)
    ensures var p := SetUpRun(m, toml, server, version, screen, xmx, xms, backupDir).after;
            forall q :: q != ConfigPath(server) && q != StartScriptPath(server) && q != EulaPath(server) ==> SameFile(m, p, q)
  {
    var config := Config(server, version, screen, BackupConfig(backupDir));
    var p := SetUpRun(m, toml, server, version, screen, xmx, xms, backupDir).after;
    var c, st, e := ConfigPath(server), StartScriptPath(server), EulaPath(server);
    var s1 := CreateDirAll(m, ManagerDir(server));
    if s1.result.Err? || Serialize(toml, config).Err? {
      assert p.files == m.files;
    } else {
      var text := Serialize(toml, config).value;
      var s2 := WriteRun(s1.after, c, text);
      var s3 := WriteRun(s2.after, st, StartScript(xms, xmx));
      var s4 := WriteRun(s3.after, e, EULA_ACCEPTED);
      if s2.result.Err? {
        assert p.files == m.files;
      } else if s3.result.Err? {
        assert p.files == m.files[c := Text(text)];
      } else if s4.result.Err? {
        assert p.files == m.files[c := Text(text)][st := Text(StartScript(xms, xmx))];
      } else {
        assert p.files == m.files[c := Text(text)][st := Text(StartScript(xms, xmx))][e := Text(EULA_ACCEPTED)];
      }
      forall q | q != c && q != st && q != e
        ensures SameFile(m, p, q)
      {
      }
    }
  }

  /** `create` stops at the first step that fails: the files are exactly as
      the steps before it left them, so the file that failed and every file
      after it keep what they held. */
  lemma CreateWritesInOrder(
    m: Machine, net: Network, toml: TomlCodec,
    server: string, version: string, screen: string, xmx: string, xms: string, backupDir: string)
    requires SetUpRun(m, toml, server, version, screen, xmx, xms, backupDir).result.Err?
    ensures var r := CreateRun(m, net, toml, server, version, screen, xmx, xms, backupDir);
            var s1 := CreateDirAll(m, ManagerDir(server));
            var text := Serialize(toml, Config(server, version, screen, BackupConfig(backupDir)));
            var s2 := WriteRun(s1.after, ConfigPath(server), if text.Ok? then text.value else "");
            var s3 := WriteRun(s2.after, StartScriptPath(server), StartScript(xms, xmx));
            && r.result.Err?
            && (s1.result.Err? || text.Err? || s2.result.Err? ==> r.after.files == m.files)
            && (s1.result.Ok? && text.Ok? && s2.result.Ok? && s3.result.Err? ==>
                  r.after.files == m.files[ConfigPath(server) := Text(text.value)])
            && (s1.result.Ok? && text.Ok? && s2.result.Ok? && s3.result.Ok? ==>
                  r.after.files == m.files[ConfigPath(server) := Text(text.value)][StartScriptPath(server) := Text(StartScript(xms, xmx))])
  {
    var r := CreateRun(m, net, toml, server, version, screen, xmx, xms, backupDir);
    assert r == SetUpRun(m, toml, server, version, screen, xmx, xms, backupDir);
    var config := Config(server, version, screen, BackupConfig(backupDir));
    var s1 := CreateDirAll(m, ManagerDir(server));
    if s1.result.Err? {
      assert r.after.files == m.files;
    } else if Serialize(toml, config).Err? {
      assert r.after.files == m.files;
    } else {
      var text := Serialize(toml, config).value;
      var s2 := WriteRun(s1.after, ConfigPath(server), text);
      if s2.result.Err? {
        assert r.after.files == m.files;
      } else {
        var s3 := WriteRun(s2.after, StartScriptPath(server), StartScript(xms, xmx));
        if s3.result.Err? {
          assert r.after.files == m.files[ConfigPath(server) := Text(text)];
        } else {
          assert r.after.files == m.files[ConfigPath(server) := Text(text)][StartScriptPath(server) := Text(StartScript(xms, xmx))];
        }
      }
    }
  }

  /** A successful `create` leaves the configuration, start script and EULA
      as written, and the marker holding the resolved form of `version`. */
  lemma CreateSucceeds(
    m: Machine, net: Network, toml: TomlCodec,
    server: string, version: string, screen: string, xmx: string, xms: string, backupDir: string)
    requires RoundTrips(toml)
    requires CreateRun(m, net, toml, server, version, screen, xmx, xms, backupDir).result.Ok?
    ensures var r := CreateRun(m, net, toml, server, version, screen, xmx, xms, backupDir);
            var config := Config(server, version, screen, BackupConfig(backupDir));
            && ManagerDir(server) in r.after.dirs
            && LoadConfig(r.after, toml, server) == Ok(config)
            && StartScriptPath(server) in r.after.files && r.after.files[StartScriptPath(server)] == Text(StartScript(xms, xmx))
            && EulaPath(server) in r.after.files && r.after.files[EulaPath(server)] == Text(EULA_ACCEPTED)
            && ResolveRun(m, net, version).result.Ok?
            && ReadToString(r.after, MarkerPath(server)) == Ok(ResolveRun(m, net, version).result.value)
  {
    var pre := SetUpRun(m, toml, server, version, screen, xmx, xms, backupDir);
    var config := Config(server, version, screen, BackupConfig(backupDir));
    CreateLayoutDistinct(server);
    assert pre.result.Ok?;
    var p := pre.after;
    SetUpLayout(m, toml, server, version, screen, xmx, xms, backupDir);
    CreateThenUpdatesToGivenVersion(m, net, toml, server, version, screen, xmx, xms, backupDir);
    var r := UpdateRun(p, net, toml, server, Some(version));
    UpdateSucceeded(p, net, toml, server, Some(version));
    assert ResolveRun(p, net, version).result == ResolveRun(m, net, version).result;
    UpdateRecordsResolvedVersion(p, net, toml, server, Some(version), version, ResolveRun(m, net, version).result.value);
    assert r.after.dirs == p.dirs;
    assert SameFile(p, r.after, ConfigPath(server));
    assert SameFile(p, r.after, StartScriptPath(server));
    assert SameFile(p, r.after, EulaPath(server));
    LoadConfigReadsOneFile(p, r.after, toml, server);
  }

  method Create(
    h: Host, net: Network, toml: TomlCodec,
    server: string, version: string, screen: string, xmx: string, xms: string, backupDir: string)
    returns (r: Result<()>)
    requires h.Valid()
    modifies h
    ensures h.Valid()
    ensures h.State() == CreateRun(old(h.State()), net, toml, server, version, screen, xmx, xms, backupDir).after
    ensures r == CreateRun(old(h.State()), net, toml, server, version, screen, xmx, xms, backupDir).result
  {
    var managerDir := Join(server, MANAGER_DIR_NAME);
    var _ :- h.CreateDirAll(managerDir);

    var config := Config(server, version, screen, BackupConfig(backupDir));
    var text :- Serialize(toml, config);
    var _ :- WriteFile(h, Join(managerDir, CONFIG_FILE_NAME), text);

    var script := StartScript(xms, xmx);
    var _ :- WriteFile(h, Join(server, START_SCRIPT_NAME), script);

    var _ :- WriteFile(h, Join(server, EULA_NAME), EULA_ACCEPTED);

    r := Update.Update(h, net, toml, server, None);
  }
}
