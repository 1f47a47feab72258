/** The machine the manager runs on, as the manager sees it through
    `std::fs` and `reqwest`: a file map, a set of directories, the paths the
    operating system refuses to create, and the log of HTTP requests sent.

    Every primitive is given twice: as a function from one `Machine` value to
    the next (a `Run`), which the lemmas reason about, and as a method of
    `Host`, the mutable machine, which performs that function in place. */
module Os {
  import opened Paths

  datatype Option<+T> = None | Some(value: T)

  /** The `std::io::ErrorKind`s the model distinguishes. */
  datatype IoKind =
    | NotFound
    | AlreadyExists
    | IsADirectory
    | NotADirectory
    | PermissionDenied
    | InvalidData

  /** What ends up in the `Box<Error>` the manager's functions return. */
  datatype Error =
    | Io(kind: IoKind, path: string)  // a `std::io::Error` about `path`
    | Toml                            // `toml::to_string` or `toml::from_str` failed
    | Http(url: string)               // a `reqwest::Error` for a request to `url`
    | Abort(message: string)          // a panic (`expect`): the process unwinds

  /** Rust's `Result<T, Box<Error>>`; `:-` plays the part of `?`. */
  datatype Result<+T> = Ok(value: T) | Err(error: Error) {
    predicate IsFailure() {
      Err?
    }

    function PropagateFailure<U>(): Result<U>
      requires Err?
    {
      Err(error)
    }

    function Extract(): T
      requires Ok?
    {
      value
    }
  }

  /** What a file holds. By this model's convention a file is `Text` exactly
      when its bytes are valid UTF-8, which is what `read_to_string` accepts;
      the other forms stand for bytes that are not. Nothing checks the bytes
      of a `Binary` against that convention. */
  datatype Content =
    | Text(text: string)
    | Binary(bytes: seq<bv8>)
    | Archive(dirs: set<string>, files: map<string, Content>)  // a `.tar.gz`: its directory and file entries
    | Partial                                                  // a write that was cut short

  /** The state of the machine. `locked` (the paths where creating a file or
      directory is refused, e.g. for lack of permission) never changes. */
  datatype Machine = Machine(
    files: map<string, Content>,
    dirs: set<string>,
    locked: set<string>,
    requests: seq<string>)
  {
    /** No path is both a file and a directory. */
    predicate Consistent() {
      files.Keys !! dirs
    }

    /** `Path::exists`. */
    predicate Exists(p: string) {
      p in files || p in dirs
    }

    /** `p` is in the directory tree, so a file can be created there. */
    predicate ParentExists(p: string) {
      Parent(p) == [] || Parent(p) in dirs
    }
  }

  /** One step of the manager: the machine afterwards and what it returned.
      Failure-compatible, so that `var (m', x) :- step;` reads like Rust's
      `let x = step?;` with the machine threaded through. */
  datatype Run<+T> = Run(after: Machine, result: Result<T>) {
    predicate IsFailure() {
      result.Err?
    }

    function PropagateFailure<U>(): Run<U>
      requires IsFailure()
    {
      Run(after, Err(result.error))
    }

    function Extract(): (Machine, T)
      requires !IsFailure()
    {
      (after, result.value)
    }
  }

  /** `m2` differs from `m1` at most in the file at `p`. */
  ghost predicate OnlyFileChanged(m1: Machine, m2: Machine, p: string) {
    && m2.dirs == m1.dirs
    && m2.locked == m1.locked
    && m2.requests == m1.requests
    && (forall q :: q != p ==> (q in m2.files <==> q in m1.files))
    && (forall q :: q != p && q in m1.files ==> m2.files[q] == m1.files[q])
  }

  /** `p` holds the same thing (or nothing) in both machines. */
  ghost predicate SameFile(m1: Machine, m2: Machine, p: string) {
    (p in m1.files <==> p in m2.files) && (p in m1.files ==> m1.files[p] == m2.files[p])
  }

  /** `File::open(p)` followed by `read_to_string`: the text of a text file;
      anything else at `p` is an error naming `p`. */
  function ReadToString(m: Machine, p: string): (r: Result<string>)
    ensures r.Ok? <==> p in m.files && m.files[p].Text?
    ensures r.Ok? ==> m.files[p] == Text(r.value)
    ensures r.Err? ==> r.error.Io? && r.error.path == p
    ensures p !in m.files && p !in m.dirs ==> r == Err(Io(NotFound, p))
  {
    if p in m.files then
      match m.files[p]
      case Text(t) => Ok(t)
      case _ => Err(Io(InvalidData, p))
    else if p in m.dirs then Err(Io(IsADirectory, p))
    else Err(Io(NotFound, p))
  }

  /** `File::create(p)`: creates the file, or truncates an existing one to
      nothing. */
  function CreateFile(m: Machine, p: string): (r: Run<()>)
    ensures r.result.Ok? <==> p !in m.dirs && p !in m.locked && m.ParentExists(p)
    ensures r.result.Ok? ==> p in r.after.files && r.after.files[p] == Text("")
    ensures r.result.Ok? ==> OnlyFileChanged(m, r.after, p)
    ensures r.result.Err? ==> r.after == m
    ensures m.Consistent() ==> r.after.Consistent()
  {
    if p in m.dirs then Run(m, Err(Io(IsADirectory, p)))
    else if p in m.locked then Run(m, Err(Io(PermissionDenied, p)))
    else if !m.ParentExists(p) then Run(m, Err(Io(NotFound, p)))
    else Run(m.(files := m.files[p := Text("")]), Ok(()))
  }

  /** Writing the whole of `c` into the file at `p`, already open. */
  function Fill(m: Machine, p: string, c: Content): (m': Machine)
    requires p in m.files
    ensures p in m'.files && m'.files[p] == c
    ensures OnlyFileChanged(m, m', p)
    ensures m.Consistent() ==> m'.Consistent()
  {
    m.(files := m.files[p := c])
  }

  /** The directories `fs::create_dir_all(d)` makes before it stops at a
      missing member of `d`'s chain that may not be created: it makes the
      missing ones shallowest first, so exactly those shallower than every
      refused one. None of them is refused. */
  function Made(m: Machine, d: string): (r: set<string>)
    ensures r <= Chain(d) - m.dirs
    ensures r !! m.locked
  {
    set x | x in Chain(d) - m.dirs && forall y :: y in (Chain(d) - m.dirs) * m.locked ==> |x| < |y|
  }

  /** `fs::create_dir_all(d)`: succeeds at once for the empty path or an
      existing directory; otherwise creates `d` and its missing ancestors.
      A file in its chain fails the first `mkdir`, before anything is made;
      a missing member that may not be created fails it after the shallower
      ones were made. */
  function CreateDirAll(m: Machine, d: string): (r: Run<()>)
    ensures r.result.Ok? <==>
      || d == [] || d in m.dirs
      || (Chain(d) !! m.files.Keys && (Chain(d) - m.dirs) !! m.locked)
    ensures r.after.files == m.files && r.after.locked == m.locked && r.after.requests == m.requests
    ensures r.result.Ok? ==> r.after.dirs == m.dirs + (if d == [] || d in m.dirs then {} else Chain(d))
    ensures r.result.Ok? && d != [] ==> d in r.after.dirs
    ensures r.result.Err? && !(Chain(d) !! m.files.Keys) ==> r.after == m
    ensures r.result.Err? && Chain(d) !! m.files.Keys ==> r.after == m.(dirs := m.dirs + Made(m, d))
    ensures m.Consistent() ==> r.after.Consistent()
  {
    if d == [] || d in m.dirs then Run(m, Ok(()))
    else if !(Chain(d) !! m.files.Keys) then
      Run(m, Err(Io(if d in m.files then AlreadyExists else NotADirectory, d)))
    else if !((Chain(d) - m.dirs) !! m.locked) then
      DisjointFromUnion(m.files.Keys, m.dirs, Made(m, d));
      Run(m.(dirs := m.dirs + Made(m, d)), Err(Io(PermissionDenied, d)))
    else
      DisjointFromUnion(m.files.Keys, m.dirs, Chain(d));
      Run(m.(dirs := m.dirs + Chain(d)), Ok(()))
  }

  /** Adding directories that are not files keeps files and directories
      apart. */
  lemma DisjointFromUnion(files: set<string>, dirs: set<string>, added: set<string>)
    requires added !! files
    ensures files !! dirs ==> files !! dirs + added
  {
  }

  /** Sending an HTTP GET for `url`: it is logged whatever comes back. */
  function Request(m: Machine, url: string): (m': Machine)
    ensures m'.files == m.files && m'.dirs == m.dirs && m'.locked == m.locked
    ensures m'.requests == m.requests + [url]
  {
    m.(requests := m.requests + [url])
  }

}

/** The machine, changed in place: each method performs the `Os` function of
    the same name on the host's state. */
module System {
  import opened Paths
  import opened Os

  class Host {
    var files: map<string, Content>
    var dirs: set<string>
    const locked: set<string>
    var requests: seq<string>

    function State(): Machine
      reads this
    {
      Machine(files, dirs, locked, requests)
    }

    ghost predicate Valid()
      reads this
    {
      State().Consistent()
    }

    constructor (files: map<string, Content>, dirs: set<string>, locked: set<string>)
      requires files.Keys !! dirs
      ensures Valid()
      ensures State() == Machine(files, dirs, locked, [])
    {
      this.files := files;
      this.dirs := dirs;
      this.locked := locked;
      this.requests := [];
    }

    predicate Exists(p: string)
      reads this
    {
      State().Exists(p)
    }

    method ReadToString(p: string) returns (r: Result<string>)
      ensures r == Os.ReadToString(State(), p)
    {
      if p in files {
        match files[p]
        case Text(t) => r := Ok(t);
        case _ => r := Err(Io(InvalidData, p));
      } else if p in dirs {
        r := Err(Io(IsADirectory, p));
      } else {
        r := Err(Io(NotFound, p));
      }
    }

    method CreateFile(p: string) returns (r: Result<()>)
      requires Valid()
      modifies this
      ensures Valid()
      ensures State() == Os.CreateFile(old(State()), p).after
      ensures r == Os.CreateFile(old(State()), p).result
    {
      if p in dirs {
        r := Err(Io(IsADirectory, p));
      } else if p in locked {
        r := Err(Io(PermissionDenied, p));
      } else if !State().ParentExists(p) {
        r := Err(Io(NotFound, p));
      } else {
        files := files[p := Text("")];
        r := Ok(());
      }
    }

    method Fill(p: string, c: Content)
      requires Valid() && p in files
      modifies this
      ensures Valid()
      ensures State() == Os.Fill(old(State()), p, c)
    {
      files := files[p := c];
    }

    method CreateDirAll(d: string) returns (r: Result<()>)
      requires Valid()
      modifies this
      ensures Valid()
      ensures State() == Os.CreateDirAll(old(State()), d).after
      ensures r == Os.CreateDirAll(old(State()), d).result
    {
      if d == [] || d in dirs {
        r := Ok(());
      } else if !(Chain(d) !! files.Keys) {
        r := Err(Io(if d in files then AlreadyExists else NotADirectory, d));
      } else if !((Chain(d) - dirs) !! locked) {
        var made := Made(State(), d);
        DisjointFromUnion(files.Keys, dirs, made);
        dirs := dirs + made;
        r := Err(Io(PermissionDenied, d));
      } else {
        DisjointFromUnion(files.Keys, dirs, Chain(d));
        dirs := dirs + Chain(d);
        r := Ok(());
      }
    }

    method Request(url: string)
      requires Valid()
      modifies this
      ensures Valid()
      ensures State() == Os.Request(old(State()), url)
    {
      requests := requests + [url];
    }
  }
}
