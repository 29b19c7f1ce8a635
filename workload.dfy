/**
 * The workload container as src/sloth.py uses it through the ops
 * `Container` API: a filesystem of files and directories, a fixed set of
 * paths on which the pebble API fails, and the Sloth binary, reached
 * through `exec`.
 *
 * Each container operation is stated twice: as a function on a `World`
 * value (the filesystem and the ordered log of what was done to it), and
 * as a method of the `Container` class that updates its fields and is
 * proved to follow that function.  The Sloth workload's methods are proved
 * against functions built from the former.
 */
module Workload {
  import opened YamlValues
  import opened Text

  /** The container's filesystem: file contents by path, and directories. */
  datatype Fs = Fs(files: map<string, string>, dirs: set<string>)

  /** What the workload does to the container. */
  datatype Action =
    | MadeDir(path: string)
    | Pushed(path: string, content: string)
    | Ran(command: seq<string>)

  /** The filesystem, and everything done to the container so far, in order. */
  datatype World = World(fs: Fs, log: seq<Action>)

  /** What `exec(...).wait_output()` gives: the process's stdout, or an
      `ExecError` (a non-zero exit) or any other failure to run it. */
  datatype GenResult = Generated(stdout: string) | GenFailed

  /** The binary, as a function of its arguments and the files it can read. */
  type Tool = (seq<string>, map<string, string>) -> GenResult

  /** What the container does that its files do not say: the paths on which
      `pull`, `push`, `make_dir` and `list_files` raise a pebble error, and
      the binary. */
  datatype Env = Env(faulty: set<string>, tool: Tool)

  /** `container.exists(p)`. */
  predicate ExistsIn(fs: Fs, p: string) {
    p in fs.files || p in fs.dirs
  }

  /** The directories above an absolute path: each prefix that ends just
      before one of its "/" (the root itself excluded). */
  function Ancestors(p: string): set<string> {
    set i: nat | 0 < i < |p| && p[i] == '/' :: p[..i]
  }

  /** `make_dir(p, make_parents=True)` fails on a faulty path, or where `p`
      or a directory above it is a file. */
  predicate MakeDirFails(w: World, env: Env, p: string) {
    p in env.faulty || p in w.fs.files || !(Ancestors(p) !! w.fs.files.Keys)
  }

  /** `make_dir(p, make_parents=True)`: `p` and every directory above it
      exist afterwards; the flag says it raised, and then nothing changed. */
  function MakeDirIn(w: World, env: Env, p: string): (World, bool) {
    if MakeDirFails(w, env, p) then (w, true)
    else (World(Fs(w.fs.files, w.fs.dirs + Ancestors(p) + {p}), w.log + [MadeDir(p)]), false)
  }

  /** `push(p, content, make_dirs=True)` fails on a faulty path, on a
      directory, or where a directory above `p` is a file. */
  predicate PushFails(w: World, env: Env, p: string) {
    p in env.faulty || p in w.fs.dirs || !(Ancestors(p) !! w.fs.files.Keys)
  }

  /** `push(p, content, make_dirs=True)`: `p` holds `content` and every
      directory above it exists; the flag says it raised, and then nothing
      changed. */
  function PushTo(w: World, env: Env, p: string, content: string): (World, bool) {
    if PushFails(w, env, p) then (w, true)
    else (World(Fs(w.fs.files[p := content], w.fs.dirs + Ancestors(p)), w.log + [Pushed(p, content)]), false)
  }

  /** `pull(p).read()`, or `None` where it raises: on a faulty path, or on
      a path that is not a file. */
  function PullFrom(fs: Fs, env: Env, p: string): Option<string> {
    if p in env.faulty || p !in fs.files then None else Some(fs.files[p])
  }

  /** `exec(cmd)` and its outcome; the run is logged whatever it gives. */
  function RunIn(w: World, env: Env, cmd: seq<string>): (World, GenResult) {
    (World(w.fs, w.log + [Ran(cmd)]), env.tool(cmd, w.fs.files))
  }

  /** `p` is a file or directory directly inside `dir`. */
  predicate IsChildPath(dir: string, p: string) {
    |p| > |dir| + 1 && p[..|dir| + 1] == dir + "/" && '/' !in p[|dir| + 1..]
  }

  /** The names `list_files(dir)` reports. */
  function Children(fs: Fs, dir: string): set<string> {
    set p | p in fs.files.Keys + fs.dirs && IsChildPath(dir, p) :: p[|dir| + 1..]
  }

  /** `names` lists the set `s`, once each, in some order. */
  predicate IsListing(names: seq<string>, s: set<string>) {
    && (forall n :: n in names ==> n in s)
    && (forall n :: n in s ==> n in names)
    && (forall i, j :: 0 <= i < j < |names| ==> names[i] != names[j])
  }

  /** The container, as the workload sees it. */
  class Container {
    var files: map<string, string>
    var dirs: set<string>
    /** What has been done to the container so far. */
    ghost var log: seq<Action>
    /** `can_connect()`: constant over one charm hook. */
    const connected: bool
    const faulty: set<string>
    const tool: Tool

    constructor(files: map<string, string>, dirs: set<string>, connected: bool, faulty: set<string>, tool: Tool)
      ensures this.files == files && this.dirs == dirs && log == []
      ensures this.connected == connected && this.faulty == faulty && this.tool == tool
    {
      this.files := files;
      this.dirs := dirs;
      this.connected := connected;
      this.faulty := faulty;
      this.tool := tool;
      log := [];
    }

    function Environment(): Env {
      Env(faulty, tool)
    }

    function Snapshot(): Fs
      reads this
    {
      Fs(files, dirs)
    }

    ghost function State(): World
      reads this
    {
      World(Fs(files, dirs), log)
    }

    method CanConnect() returns (b: bool)
      ensures b == connected
    {
      b := connected;
    }

    method Exists(p: string) returns (b: bool)
      ensures b == ExistsIn(Snapshot(), p)
    {
      b := p in files || p in dirs;
    }

    method Pull(p: string) returns (content: Option<string>)
      ensures content == PullFrom(Snapshot(), Environment(), p)
    {
      if p in faulty || p !in files {
        content := None;
      } else {
        content := Some(files[p]);
      }
    }

    method Push(p: string, content: string) returns (raised: bool)
      modifies this
      ensures (State(), raised) == PushTo(old(State()), Environment(), p, content)
    {
      if p in faulty || p in dirs || !(Ancestors(p) !! files.Keys) {
        return true;
      }
      files := files[p := content];
      dirs := dirs + Ancestors(p);
      log := log + [Pushed(p, content)];
      raised := false;
    }

    method MakeDir(p: string) returns (raised: bool)
      modifies this
      ensures (State(), raised) == MakeDirIn(old(State()), Environment(), p)
    {
      if p in faulty || p in files || !(Ancestors(p) !! files.Keys) {
        return true;
      }
      dirs := dirs + Ancestors(p) + {p};
      log := log + [MadeDir(p)];
      raised := false;
    }

    method Exec(cmd: seq<string>) returns (result: GenResult)
      modifies this
      ensures (State(), result) == RunIn(old(State()), Environment(), cmd)
    {
      result := tool(cmd, files);
      log := log + [Ran(cmd)];
    }

    /** `list_files(dir)`: the names directly inside `dir`, in an order the
        model leaves open, or `None` where it raises. */
    method ListFiles(dir: string) returns (names: Option<seq<string>>)
      ensures names.None? <==> dir in faulty
      ensures names.Some? ==> IsListing(names.value, Children(Snapshot(), dir))
    {
      if dir in faulty {
        return None;
      }
      var rest := Children(Snapshot(), dir);
      var listed: seq<string> := [];
      while rest != {}
        invariant forall n :: n in listed ==> n !in rest
        invariant forall n :: n in listed || n in rest <==> n in Children(Snapshot(), dir)
        invariant forall i, j :: 0 <= i < j < |listed| ==> listed[i] != listed[j]
        decreases |rest|
      {
        var n :| n in rest;
        listed := listed + [n];
        rest := rest - {n};
      }
      names := Some(listed);
    }
  }
}
