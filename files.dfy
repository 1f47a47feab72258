/** `files.rs`: the manager's directory name, its configuration record, and
    the helpers that write a file, read one and load the configuration. */
module Files {
  import opened Paths
  import opened Os
  import opened System

  /** The management directory inside every server directory. */
  const MANAGER_DIR_NAME := ".mc-manager"

  const CONFIG_FILE_NAME := "ManagerConfig.toml"

  datatype BackupConfig = BackupConfig(dir: string)

  datatype Config = Config(server: string, version: string, screen: string, backup: BackupConfig)

  /** The `toml` crate, which the model does not see: `to_string` on a
      `Config` and `from_str` back into one, each of which may fail. */
  datatype TomlCodec = TomlCodec(serialize: Config -> Option<string>, parse: string -> Option<Config>)

  /** What serde's derived TOML impls promise: parsing what was serialised
      gives the record back. */
  ghost predicate RoundTrips(toml: TomlCodec) {
    forall c :: toml.serialize(c).Some? ==> toml.parse(toml.serialize(c).value) == Some(c)
  }

  function ManagerDir(server: string): string {
    Join(server, MANAGER_DIR_NAME)
  }

  function ConfigPath(server: string): string {
    Join(ManagerDir(server), CONFIG_FILE_NAME)
  }

  /** `.mc-manager` is a single path component. */
  lemma ManagerDirIsName()
    ensures IsName(MANAGER_DIR_NAME)
  {
    forall i | 0 <= i < |MANAGER_DIR_NAME|
      ensures MANAGER_DIR_NAME[i] != '/'
    {
      assert MANAGER_DIR_NAME == ['.', 'm', 'c', '-', 'm', 'a', 'n', 'a', 'g', 'e', 'r'];
    }
  }

  /** A file of the management directory is one relative path joined onto
      the server directory. */
  lemma InManagerDir(server: string, name: string)
    requires IsRelative(name)
    ensures Join(ManagerDir(server), name) == Join(server, MANAGER_DIR_NAME + "/" + name)
  {
    ManagerDirIsName();
    JoinNested(server, MANAGER_DIR_NAME, name);
  }

  /** `write_file(path, data)`: the file at `path` ends up holding exactly
      `data`, whatever it held before, and nothing else changes; if the file
      cannot be created nothing changes at all. */
  function WriteRun(m: Machine, path: string, data: string): (r: Run<()>)
    ensures r.result.Ok? <==> path !in m.dirs && path !in m.locked && m.ParentExists(path)
    ensures r.result.Ok? ==> r.after == m.(files := m.files[path := Text(data)])
    ensures r.result.Ok? ==> OnlyFileChanged(m, r.after, path)
    ensures r.result.Ok? ==> path in r.after.files && r.after.files[path] == Text(data)
    ensures r.result.Ok? ==> ReadToString(r.after, path) == Ok(data)
    ensures r.result.Err? ==> r.after == m
    ensures m.Consistent() ==> r.after.Consistent()
  {
    var (m1, _) :- CreateFile(m, path);
    Run(Fill(m1, path, Text(data)), Ok(()))
  }

  /** `get_config(server)`: reads `<server>/.mc-manager/ManagerConfig.toml`
      and parses it; a missing, unreadable or unparsable file is an error. */
  function LoadConfig(m: Machine, toml: TomlCodec, server: string): (r: Result<Config>)
    ensures r.Ok? <==>
      && ConfigPath(server) in m.files
      && m.files[ConfigPath(server)].Text?
      && toml.parse(m.files[ConfigPath(server)].text).Some?
    ensures r.Ok? ==> Some(r.value) == toml.parse(m.files[ConfigPath(server)].text)
  {
    var text :- ReadToString(m, ConfigPath(server));
    match toml.parse(text)
    case Some(config) => Ok(config)
    case None => Err(Toml)
  }

  /** `get_config` looks at one file only: two machines that agree on it
      load the same configuration. */
  lemma LoadConfigReadsOneFile(m1: Machine, m2: Machine, toml: TomlCodec, server: string)
    requires SameFile(m1, m2, ConfigPath(server))
    requires ConfigPath(server) in m1.dirs <==> ConfigPath(server) in m2.dirs
    ensures LoadConfig(m1, toml, server) == LoadConfig(m2, toml, server)
  {
    assert ReadToString(m1, ConfigPath(server)) == ReadToString(m2, ConfigPath(server));
  }

  /** A configuration file holding the serialisation of `c` loads as `c`. */
  lemma LoadConfigOfSaved(m: Machine, toml: TomlCodec, server: string, c: Config)
    requires RoundTrips(toml) && toml.serialize(c).Some?
    requires ConfigPath(server) in m.files && m.files[ConfigPath(server)] == Text(toml.serialize(c).value)
    ensures LoadConfig(m, toml, server) == Ok(c)
  {
    assert toml.parse(toml.serialize(c).value) == Some(c);
  }

  method WriteFile(h: Host, path: string, data: string) returns (r: Result<()>)
    requires h.Valid()
    modifies h
    ensures h.Valid()
    ensures h.State() == WriteRun(old(h.State()), path, data).after
    ensures r == WriteRun(old(h.State()), path, data).result
  {
    var _ :- h.CreateFile(path);
    h.Fill(path, Text(data));
    r := Ok(());
  }

  /** `read_file(path)`: the file's exact text; a missing path is an error. */
  method ReadFile(h: Host, path: string) returns (r: Result<string>)
    ensures r.Ok? <==> path in h.files && h.files[path].Text?
    ensures r.Ok? ==> h.files[path] == Text(r.value)
    ensures !h.Exists(path) ==> r == Err(Io(NotFound, path))
    ensures r == ReadToString(h.State(), path)
  {
    r := h.ReadToString(path);
  }

  method GetConfig(h: Host, toml: TomlCodec, server: string) returns (r: Result<Config>)
    ensures r == LoadConfig(h.State(), toml, server)
  {
    var configPath := Join(Join(server, MANAGER_DIR_NAME), CONFIG_FILE_NAME);
    var text :- h.ReadToString(configPath);
    match toml.parse(text)
    case Some(config) => r := Ok(config);
    case None => r := Err(Toml);
  }
}
