/** The operating-system state the add-on touches: files and directories, the process
    environment, the subprocesses it starts and the downloads it triggers. Whether a subprocess
    exits non-zero is an oracle fixed for the machine: the set `failing` of argument vectors. */
module System {
  import opened Py

  /** What sits at a path: a directory, a text file or an opaque binary file (an image). */
  datatype Node = Dir | Text(text: string) | Binary

  /** The environment a subprocess gets: the parent's (no `env=`) or an explicit mapping. */
  datatype Env = Inherited | Explicit(vars: map<string, string>)

  /** One `subprocess.run` call: its argument vector, its environment and whether `check=True`. */
  datatype Run = Run(argv: seq<string>, env: Env, check: bool)

  /** One remote fetch into a local directory. */
  datatype Download = Download(url: string, target: string)

  const NoUserSiteKey := "PYTHONNOUSERSITE"

  /** `dict(os.environ)` with `PYTHONNOUSERSITE` set to `"1"`: exactly one key is added or
      overridden and every other variable keeps its value. */
  function NoUserSiteEnv(environ: map<string, string>): (e: map<string, string>)
    ensures e.Keys == environ.Keys + {NoUserSiteKey}
    ensures e[NoUserSiteKey] == "1"
    ensures forall k :: k in environ && k != NoUserSiteKey ==> e[k] == environ[k]
  {
    environ[NoUserSiteKey := "1"]
  }

  class Machine {
    var nodes: map<string, Node>
    var environ: map<string, string>
    var runs: seq<Run>
    var downloads: seq<Download>
    const failing: set<seq<string>>

    constructor (nodes0: map<string, Node>, environ0: map<string, string>, failing0: set<seq<string>>)
      ensures nodes == nodes0 && environ == environ0 && failing == failing0
      ensures runs == [] && downloads == []
    {
      nodes, environ, failing := nodes0, environ0, failing0;
      runs, downloads := [], [];
    }

    /** `os.path.exists(p)`. */
    predicate Exists(p: string)
      reads this
    {
      p in nodes
    }

    /** `subprocess.run(argv, env=..., check=...)`: the call is recorded; `ok` is whether it
        exited with status zero. */
    method RunProcess(argv: seq<string>, env: Env, check: bool) returns (ok: bool)
      modifies this`runs
      ensures runs == old(runs) + [Run(argv, env, check)]
      ensures ok == (argv !in failing)
    {
      runs := runs + [Run(argv, env, check)];
      ok := argv !in failing;
    }

    /** `os.makedirs(p)`: creates the directory, or raises when something is already there. */
    method MakeDirs(p: string) returns (res: Result<()>)
      modifies this`nodes
      ensures p in old(nodes) ==> res == Err(FileExistsError(p)) && nodes == old(nodes)
      ensures p !in old(nodes) ==> res == Ok(()) && nodes == old(nodes)[p := Dir]
    {
      if p in nodes {
        res := Err(FileExistsError(p));
      } else {
        nodes := nodes[p := Dir];
        res := Ok(());
      }
    }

    /** A foreign library fetching `url` into the directory `target`: recorded, contents opaque. */
    method Fetch(url: string, target: string)
      modifies this`downloads
      ensures downloads == old(downloads) + [Download(url, target)]
    {
      downloads := downloads + [Download(url, target)];
    }

    /** Writing a file at `p` (creating or replacing it). */
    method Write(p: string, node: Node)
      modifies this`nodes
      ensures nodes == old(nodes)[p := node]
    {
      nodes := nodes[p := node];
    }
  }
}
