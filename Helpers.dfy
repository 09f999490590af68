/** The shared helpers of the add-on (helpers.py): the dependency table, the installed flag,
    the pip-based dependency installer, and the drive-space check. */
module Helpers {
  import opened Py
  import opened Paths
  import opened System
  import opened Lists

  /** One entry of `dependence_dict`: a pip requirement and the extra arguments given to pip. */
  datatype Dependency = Dependency(requirement: string, extraParams: seq<string>)

  /** `dependence_dict`, in insertion order. */
  const DependenceDict: seq<Dependency> := [
    Dependency("fire", []),
    Dependency("numpy", []),
    Dependency("diffusers", []),
    Dependency("transformers", []),
    Dependency("torch==1.12.1+cu116", ["-f", "https://download.pytorch.org/whl/torch_stable.html"])
  ]

  /** `env_size` and `buffer`: 7 GB for the environment and weights, 1 GB of slack. */
  const EnvSize: nat := 7_000_000_000
  const Buffer: nat := 1_000_000_000

  /** `check_drive_space(path)`, given the free bytes `shutil.disk_usage` reports for `path`. */
  function CheckDriveSpace(freeBytes: nat, envSize: nat, buffer: nat): (ok: bool)
    ensures ok <==> freeBytes - envSize > buffer
    ensures ok ==> freeBytes > envSize
  {
    freeBytes > envSize + buffer
  }

  /** With the add-on's constants, the check passes exactly from 8 GB plus one byte upwards:
      exactly 8 GB free is refused. */
  lemma DriveSpaceThreshold(freeBytes: nat)
    ensures CheckDriveSpace(freeBytes, EnvSize, Buffer) <==> freeBytes >= 8_000_000_001
    ensures !CheckDriveSpace(EnvSize + Buffer, EnvSize, Buffer)
  {
  }

  /** More free space never turns a pass into a refusal. */
  lemma DriveSpaceMonotone(freeBytes1: nat, freeBytes2: nat, envSize: nat, buffer: nat)
    requires freeBytes1 <= freeBytes2 && CheckDriveSpace(freeBytes1, envSize, buffer)
    ensures CheckDriveSpace(freeBytes2, envSize, buffer)
  {
  }

  const MakeGlobal := "make_global"

  /** The extra parameters with the first "make_global" marker removed, as `list.remove` does. */
  function StripMarker(params: seq<string>): seq<string> {
    if MakeGlobal in params then RemoveFirst(params, MakeGlobal) else params
  }

  /** The parameters keep their order: only the first marker is cut out. */
  lemma StripMarkerInOrder(params: seq<string>)
    ensures MakeGlobal !in params ==> StripMarker(params) == params
    ensures MakeGlobal in params ==>
      var i := IndexOf(params, MakeGlobal);
      MakeGlobal !in params[..i] && StripMarker(params) == params[..i] + params[i + 1..]
  {
  }

  /** The marker is removed once: every other parameter keeps its multiplicity. */
  lemma StripMarkerRemovesOne(params: seq<string>)
    ensures MakeGlobal in params ==>
      multiset(StripMarker(params)) == multiset(params) - multiset{MakeGlobal}
    ensures MakeGlobal !in params ==> StripMarker(params) == params
    ensures |StripMarker(params)| == |params| - (if MakeGlobal in params then 1 else 0)
  {
  }

  function Stripped(d: Dependency): Dependency {
    Dependency(d.requirement, StripMarker(d.extraParams))
  }

  /** The table after the installer has reached its first `n` dependencies: each of them had
      its own list of extra parameters stripped, one after the other. */
  function StripFirst(deps: seq<Dependency>, n: nat): (r: seq<Dependency>)
    requires n <= |deps|
    ensures |r| == |deps|
  {
    if n == 0 then deps else StripFirst(deps, n - 1)[n - 1 := Stripped(deps[n - 1])]
  }

  /** A dependency not yet reached is untouched. */
  lemma {:induction false} StripFirstUntouched(deps: seq<Dependency>, n: nat, j: nat)
    requires n <= j < |deps|
    ensures StripFirst(deps, n)[j] == deps[j]
  {
    if n > 0 {
      StripFirstUntouched(deps, n - 1, j);
    }
  }

  /** The table after `n` dependencies: those reached have their marker stripped, the rest are
      untouched. */
  lemma {:induction false} StripFirstAt(deps: seq<Dependency>, n: nat)
    requires n <= |deps|
    ensures forall j :: 0 <= j < |deps| ==> StripFirst(deps, n)[j] == if j < n then Stripped(deps[j]) else deps[j]
  {
    if n > 0 {
      StripFirstAt(deps, n - 1);
    }
  }

  /** The interpreter of the virtual environment, `os.path.join(venv_path, "Scripts", "python")`. */
  function VenvPython(venvPath: string): string {
    Join(Join(venvPath, "Scripts"), "python")
  }

  /** The first pip call for a dependency: install it, followed by its stripped extra parameters. */
  function InstallArgv(venvPath: string, d: Dependency): seq<string> {
    [VenvPython(venvPath), "-m", "pip", "install", d.requirement] + StripMarker(d.extraParams)
  }

  /** The second pip call: `--upgrade` the same requirement, without the extra parameters. */
  function UpgradeArgv(venvPath: string, d: Dependency): seq<string> {
    [VenvPython(venvPath), "-m", "pip", "install", "--upgrade", d.requirement]
  }

  /** The subprocess calls made for one dependency: the upgrade only runs when the install
      exited with status zero, and only the upgrade gets `PYTHONNOUSERSITE`. */
  function StepRuns(venvPath: string, environ: map<string, string>, failing: set<seq<string>>, d: Dependency): seq<Run> {
    var install := Run(InstallArgv(venvPath, d), Inherited, true);
    if install.argv in failing then [install]
    else [install, Run(UpgradeArgv(venvPath, d), Explicit(NoUserSiteEnv(environ)), true)]
  }

  /** Both pip calls run the environment's own interpreter as `-m pip install`; the install call
      then names the requirement followed by the extra parameters in their order (`StripMarker`),
      and the upgrade call adds only `--upgrade` and the requirement. */
  lemma PipArgvs(venvPath: string, d: Dependency)
    ensures var install := InstallArgv(venvPath, d);
      var upgrade := UpgradeArgv(venvPath, d);
      && |install| == 5 + |d.extraParams| - (if MakeGlobal in d.extraParams then 1 else 0)
      && install[..4] == upgrade[..4] == [VenvPython(venvPath), "-m", "pip", "install"]
      && install[4] == d.requirement
      && upgrade[4..] == ["--upgrade", d.requirement]
      && multiset(install[5..]) + (if MakeGlobal in d.extraParams then multiset{MakeGlobal} else multiset{}) ==
           multiset(d.extraParams)
    ensures VenvPython(venvPath)[..|venvPath|] == venvPath
    ensures InstallArgv(venvPath, d)[5..] == StripMarker(d.extraParams)
  {
    var install := InstallArgv(venvPath, d);
    assert install[5..] == StripMarker(d.extraParams);
    StripMarkerRemovesOne(d.extraParams);
    PrefixOfPrefix(venvPath, Join(venvPath, "Scripts"), VenvPython(venvPath));
  }

  /** One dependency's calls: the install call always runs, with the inherited environment;
      the upgrade call runs exactly when the install exited with status zero, and runs with
      `PYTHONNOUSERSITE` set to "1" and every other variable kept. Both use `check=True`. */
  lemma StepRunsShape(venvPath: string, environ: map<string, string>, failing: set<seq<string>>, d: Dependency)
    ensures var r := StepRuns(venvPath, environ, failing, d);
      && 1 <= |r| <= 2
      && r[0] == Run(InstallArgv(venvPath, d), Inherited, true)
      && (|r| == 2 <==> InstallArgv(venvPath, d) !in failing)
      && (|r| == 2 ==> r[1].argv == UpgradeArgv(venvPath, d) && r[1].check && r[1].env.Explicit? &&
                       r[1].env.vars[NoUserSiteKey] == "1" &&
                       forall k :: k in environ && k != NoUserSiteKey ==> r[1].env.vars[k] == environ[k])
  {
  }

  /** What one dependency's two `check=True` calls raise. */
  function StepResult(venvPath: string, failing: set<seq<string>>, d: Dependency): Result<()> {
    if InstallArgv(venvPath, d) in failing then Err(CalledProcessError(InstallArgv(venvPath, d)))
    else if UpgradeArgv(venvPath, d) in failing then Err(CalledProcessError(UpgradeArgv(venvPath, d)))
    else Ok(())
  }

  /** What one dependency contributes: the calls it makes and what they raise. */
  datatype Step = Step(runs: seq<Run>, result: Result<()>)

  function StepOf(venvPath: string, environ: map<string, string>, failing: set<seq<string>>, d: Dependency): Step {
    Step(StepRuns(venvPath, environ, failing, d), StepResult(venvPath, failing, d))
  }

  /** The step of every dependency of the table, in table order. */
  function Steps(venvPath: string, environ: map<string, string>, failing: set<seq<string>>,
                 deps: seq<Dependency>): (r: seq<Step>)
    ensures |r| == |deps|
    ensures forall j :: 0 <= j < |deps| ==> r[j] == StepOf(venvPath, environ, failing, deps[j])
  {
    seq(|deps|, j requires 0 <= j < |deps| => StepOf(venvPath, environ, failing, deps[j]))
  }

  /** The effect of installing a list of dependencies: the calls made, what was raised, and how
      many dependencies were reached (their markers stripped). */
  datatype Outcome = Outcome(runs: seq<Run>, result: Result<()>, attempted: nat)

  /** The loop's fail-fast shape: steps in order, stopping after the first that raises. */
  function FailFast(steps: seq<Step>): (o: Outcome)
    ensures o.attempted <= |steps|
    ensures o.result.Ok? ==> o.attempted == |steps|
    ensures o.result.Err? ==> 1 <= o.attempted && o.result == steps[o.attempted - 1].result
  {
    if steps == [] then Outcome([], Ok(()), 0)
    else
      var prev := FailFast(steps[..|steps| - 1]);
      if prev.result.Err? then
        assert steps[..|steps| - 1][prev.attempted - 1] == steps[prev.attempted - 1];
        prev
      else
        var last := steps[|steps| - 1];
        Outcome(prev.runs + last.runs, last.result, prev.attempted + 1)
  }

  /** The run succeeds exactly when every step does. */
  lemma {:induction false} FailFastSucceeds(steps: seq<Step>)
    ensures FailFast(steps).result.Ok? <==> forall j :: 0 <= j < |steps| ==> steps[j].result.Ok?
  {
    if steps != [] {
      var init := steps[..|steps| - 1];
      FailFastSucceeds(init);
      assert FailFast(steps).result ==
        if FailFast(init).result.Err? then FailFast(init).result else steps[|steps| - 1].result;
      assert forall j :: 0 <= j < |init| ==> init[j] == steps[j];
    }
  }

  /** The outcome of the first `i + 1` steps, after the first `i` succeeded. */
  lemma FailFastStep(steps: seq<Step>, i: nat, done: seq<Run>)
    requires i < |steps| && FailFast(steps[..i]) == Outcome(done, Ok(()), i)
    ensures FailFast(steps[..i + 1]) == Outcome(done + steps[i].runs, steps[i].result, i + 1)
  {
    assert steps[..i + 1][..i] == steps[..i];
  }

  /** Once a prefix has raised, later steps change nothing. */
  lemma {:induction false} FailFastStable(steps: seq<Step>, k: nat)
    requires k <= |steps| && FailFast(steps[..k]).result.Err?
    ensures FailFast(steps) == FailFast(steps[..k])
  {
    if k < |steps| {
      var init := steps[..|steps| - 1];
      assert init[..k] == steps[..k];
      FailFastStable(init, k);
    } else {
      assert steps[..k] == steps;
    }
  }

  /** When the first `k` steps succeed and step `k` raises, the run ends there. */
  lemma {:induction false} FailFastStopsAt(steps: seq<Step>, k: nat)
    requires k < |steps| && steps[k].result.Err?
    requires forall j :: 0 <= j < k ==> steps[j].result.Ok?
    ensures FailFast(steps) == Outcome(FailFast(steps[..k]).runs + steps[k].runs, steps[k].result, k + 1)
  {
    var init := steps[..|steps| - 1];
    assert forall j :: 0 <= j < |init| ==> init[j] == steps[j];
    if k == |steps| - 1 {
      assert init == steps[..k];
      FailFastSucceeds(init);
    } else {
      assert init[..k] == steps[..k];
      FailFastStopsAt(init, k);
    }
  }

  /** On success with two calls per step, call `2j` and `2j + 1` are those of step `j`. */
  lemma {:induction false} FailFastPairs(steps: seq<Step>)
    requires FailFast(steps).result.Ok?
    requires forall j :: 0 <= j < |steps| ==> |steps[j].runs| == 2
    ensures var runs := FailFast(steps).runs;
      |runs| == 2 * |steps| &&
      forall j :: 0 <= j < |steps| ==> runs[2 * j] == steps[j].runs[0] && runs[2 * j + 1] == steps[j].runs[1]
  {
    if steps != [] {
      var init, last := steps[..|steps| - 1], steps[|steps| - 1];
      var prev := FailFast(init);
      assert prev.result.Ok? by {
        assert FailFast(steps).result == if prev.result.Err? then prev.result else last.result;
      }
      assert forall j :: 0 <= j < |init| ==> init[j] == steps[j];
      FailFastPairs(init);
      var runs := FailFast(steps).runs;
      assert runs == prev.runs + last.runs;
      forall j | 0 <= j < |steps|
        ensures runs[2 * j] == steps[j].runs[0] && runs[2 * j + 1] == steps[j].runs[1]
      {
        if j < |init| {
          assert runs[2 * j] == prev.runs[2 * j] && runs[2 * j + 1] == prev.runs[2 * j + 1];
        }
      }
    }
  }

  /** The installer loop as a function: dependencies in order, stopping at the first raise. */
  function InstallAll(venvPath: string, environ: map<string, string>, failing: set<seq<string>>,
                      deps: seq<Dependency>): (o: Outcome)
    ensures o.attempted <= |deps|
    ensures o.result.Ok? ==> o.attempted == |deps|
  {
    FailFast(Steps(venvPath, environ, failing, deps))
  }

  /** A failed installation reports the failure of the last dependency it reached. */
  lemma InstallAllFailsWith(venvPath: string, environ: map<string, string>, failing: set<seq<string>>,
                            deps: seq<Dependency>, k: nat)
    requires InstallAll(venvPath, environ, failing, deps).result.Err?
    requires k == InstallAll(venvPath, environ, failing, deps).attempted
    ensures 1 <= k && InstallAll(venvPath, environ, failing, deps).result == StepResult(venvPath, failing, deps[k - 1])
  {
    var steps := Steps(venvPath, environ, failing, deps);
    assert InstallAll(venvPath, environ, failing, deps) == FailFast(steps);
    FailFastFailsAt(steps, k);
    StepResultAt(venvPath, environ, failing, deps, k - 1);
  }

  /** A failed run reports the failure of the last step it reached. */
  lemma FailFastFailsAt(steps: seq<Step>, k: nat)
    requires FailFast(steps).result.Err? && k == FailFast(steps).attempted
    ensures 1 <= k <= |steps| && FailFast(steps).result == steps[k - 1].result
  {
  }

  /** The outcome of a dependency's step is what its pip calls raise. */
  lemma StepResultAt(venvPath: string, environ: map<string, string>, failing: set<seq<string>>,
                     deps: seq<Dependency>, j: nat)
    requires j < |deps|
    ensures Steps(venvPath, environ, failing, deps)[j].result == StepResult(venvPath, failing, deps[j])
  {
  }

  /** The steps of a prefix of the table are the prefix of its steps. */
  lemma StepsPrefix(venvPath: string, environ: map<string, string>, failing: set<seq<string>>,
                    deps: seq<Dependency>, k: nat)
    requires k <= |deps|
    ensures Steps(venvPath, environ, failing, deps[..k]) == Steps(venvPath, environ, failing, deps)[..k]
  {
    assert forall j :: 0 <= j < k ==> deps[..k][j] == deps[j];
  }

  /** Installation succeeds exactly when every dependency's pip calls succeed. */
  lemma InstallAllSucceeds(venvPath: string, environ: map<string, string>,
                           failing: set<seq<string>>, deps: seq<Dependency>)
    ensures InstallAll(venvPath, environ, failing, deps).result.Ok? <==>
      forall j :: 0 <= j < |deps| ==> StepResult(venvPath, failing, deps[j]).Ok?
  {
    FailFastSucceeds(Steps(venvPath, environ, failing, deps));
  }

  /** Fail-fast: when dependency `k` is the first whose pip calls fail, the calls are those of
      the dependencies before it followed by its own, and no later dependency is reached. */
  lemma InstallAllStopsAtFirstFailure(venvPath: string, environ: map<string, string>,
                                      failing: set<seq<string>>, deps: seq<Dependency>, k: nat)
    requires k < |deps| && StepResult(venvPath, failing, deps[k]).Err?
    requires forall j :: 0 <= j < k ==> StepResult(venvPath, failing, deps[j]).Ok?
    ensures InstallAll(venvPath, environ, failing, deps) ==
      Outcome(InstallAll(venvPath, environ, failing, deps[..k]).runs + StepRuns(venvPath, environ, failing, deps[k]),
              StepResult(venvPath, failing, deps[k]), k + 1)
  {
    var steps := Steps(venvPath, environ, failing, deps);
    FailFastStopsAt(steps, k);
    StepsPrefix(venvPath, environ, failing, deps, k);
  }

  /** When every dependency installs, the calls alternate install, upgrade, in table order. */
  lemma InstallAllRunsInOrder(venvPath: string, environ: map<string, string>,
                              failing: set<seq<string>>, deps: seq<Dependency>)
    requires InstallAll(venvPath, environ, failing, deps).result.Ok?
    ensures var runs := InstallAll(venvPath, environ, failing, deps).runs;
      |runs| == 2 * |deps| &&
      forall j :: 0 <= j < |deps| ==>
        runs[2 * j] == Run(InstallArgv(venvPath, deps[j]), Inherited, true) &&
        runs[2 * j + 1] == Run(UpgradeArgv(venvPath, deps[j]), Explicit(NoUserSiteEnv(environ)), true)
  {
    var steps := Steps(venvPath, environ, failing, deps);
    FailFastSucceeds(steps);
    FailFastPairs(steps);
  }

  /** A record of the `namedtuple("Dependency", ["module", "name", "extra_params"])` built
      inside `install_and_import_module`. */
  datatype Record = Record(moduleField: string, name: Option<string>, extraParams: seq<string>)

  const RecordFields: seq<string> := ["module", "name", "extra_params"]

  /** The members every `namedtuple` instance has besides its fields and the special
      `__...__` methods: those of `tuple` and the helpers `namedtuple` adds. */
  const TupleMembers: set<string> := {"count", "index", "_fields", "_field_defaults", "_asdict", "_replace", "_make"}

  predicate IsDunder(attr: string) {
    |attr| >= 4 && attr[..2] == "__" && attr[|attr| - 2..] == "__"
  }

  /** What an attribute name finds on a record. */
  datatype Attribute = Field(index: nat) | TupleMember

  /** Attribute lookup on a record: one of its three fields, a member of every tuple, or
      `AttributeError`. */
  function GetAttr(attr: string): (r: Result<Attribute>)
    ensures r.Ok? && r.value.Field? <==> attr in RecordFields
    ensures r.Ok? && r.value.Field? ==> r.value.index < |RecordFields| && RecordFields[r.value.index] == attr
    ensures r.Err? <==> attr !in RecordFields && attr !in TupleMembers && !IsDunder(attr)
    ensures r.Err? ==> r == Err(AttributeError(attr))
  {
    if attr == "module" then Ok(Field(0))
    else if attr == "name" then Ok(Field(1))
    else if attr == "extra_params" then Ok(Field(2))
    else if attr in TupleMembers || IsDunder(attr) then Ok(TupleMember)
    else Err(AttributeError(attr))
  }

  /** The two names the loop reads are neither fields nor tuple members. */
  lemma MisreadNamesMissing()
    ensures GetAttr("module_name") == Err(AttributeError("module_name"))
    ensures GetAttr("global_name") == Err(AttributeError("global_name"))
  {
    NotDunder("module_name");
    NotDunder("global_name");
  }

  /** A name that does not start with an underscore is not a dunder name. */
  lemma NotDunder(attr: string)
    requires attr != [] && attr[0] != '_'
    ensures !IsDunder(attr)
  {
    if |attr| >= 4 {
      assert attr[..2][0] == attr[0];
    }
  }

  function ToRecords(deps: seq<Dependency>): (rs: seq<Record>)
    ensures |rs| == |deps|
  {
    seq(|deps|, i requires 0 <= i < |deps| => Record(deps[i].requirement, None, deps[i].extraParams))
  }

  /** The loop's bookkeeping after `i` of the `steps` of `deps`: the fail-fast outcome of the
      first `i` steps so far, the calls made since `runs0`, and the table with exactly the
      first `i` markers stripped. */
  ghost predicate Progress(deps: seq<Dependency>, steps: seq<Step>, runs0: seq<Run>, runs: seq<Run>,
                           dict: seq<Dependency>, done: seq<Run>, res: Result<()>, i: nat)
  {
    i <= |deps| == |steps| && FailFast(steps[..i]) == Outcome(done, res, i) &&
    runs == runs0 + done && dict == StripFirst(deps, i)
  }

  /** After a successful prefix the next dependency is still untouched, and taking its step
      advances the bookkeeping by one. */
  lemma ProgressStep(deps: seq<Dependency>, steps: seq<Step>, runs0: seq<Run>, runs: seq<Run>,
                     dict: seq<Dependency>, done: seq<Run>, i: nat)
    requires i < |deps| && Progress(deps, steps, runs0, runs, dict, done, Ok(()), i)
    ensures dict[i] == deps[i]
    ensures Progress(deps, steps, runs0, runs + steps[i].runs, dict[i := Stripped(deps[i])],
                     done + steps[i].runs, steps[i].result, i + 1)
  {
    StripFirstUntouched(deps, i, i);
    FailFastStep(steps, i, done);
    AppendAssoc(runs0, done, steps[i].runs);
  }

  /** The state of helpers.py: the dependency table (whose parameter lists the installer edits
      in place) and the module global `dependencies_installed`, which nothing binds at import time. */
  class Installer {
    var dependenceDict: seq<Dependency>
    var dependenciesInstalled: Option<bool>
    const venvPath: string

    constructor (venvPath0: string)
      ensures dependenceDict == DependenceDict && dependenciesInstalled == None && venvPath == venvPath0
    {
      dependenceDict := DependenceDict;
      dependenciesInstalled := None;
      venvPath := venvPath0;
    }

    /** `are_dependencies_installed()`: the flag, or `NameError` while it was never set. */
    method AreDependenciesInstalled() returns (r: Result<bool>)
      ensures dependenciesInstalled.None? ==> r == Err(NameError("dependencies_installed"))
      ensures dependenciesInstalled.Some? ==> r == Ok(dependenciesInstalled.value)
    {
      match dependenciesInstalled
      case None => r := Err(NameError("dependencies_installed"));
      case Some(b) => r := Ok(b);
    }

    /** `set_dependencies_installed(b)`: a later read returns `b`. */
    method SetDependenciesInstalled(b: bool)
      modifies this`dependenciesInstalled
      ensures dependenciesInstalled == Some(b)
    {
      dependenciesInstalled := Some(b);
    }

    /** `install_and_import_module()` as written: the records are built with the fields
        `module`, `name` and `extra_params`, but the loop reads `module_name`, so the first
        iteration raises before any pip call; the installer runs only on an empty table. */
    method InstallAndImportModuleAsWritten() returns (res: Result<()>)
      ensures |dependenceDict| > 0 ==> res == Err(AttributeError("module_name"))
      ensures |dependenceDict| == 0 ==> res == Ok(())
    {
      var dependencies := ToRecords(dependenceDict);
      res := Ok(());
      if |dependencies| > 0 {
        // first iteration: `dependency.module_name`
        var attr := GetAttr("module_name");
        if attr.Err? {
          res := Err(attr.error);
        }
      }
    }

    /** One iteration of the installer with the attributes it evidently means (`module`,
        `name`): strip the marker from the table's own list, install, then upgrade. */
    method InstallDependency(m: Machine, i: nat) returns (makeGlobal: bool, res: Result<()>)
      requires i < |dependenceDict|
      modifies this`dependenceDict, m`runs
      ensures makeGlobal == (MakeGlobal in old(dependenceDict[i].extraParams))
      ensures dependenceDict == old(dependenceDict)[i := Stripped(old(dependenceDict[i]))]
      ensures m.runs == old(m.runs) + StepRuns(venvPath, m.environ, m.failing, old(dependenceDict[i]))
      ensures res == StepResult(venvPath, m.failing, old(dependenceDict[i]))
    {
      var d := dependenceDict[i];
      var extraParams := d.extraParams;
      makeGlobal := false;
      if MakeGlobal in extraParams {
        extraParams := RemoveFirst(extraParams, MakeGlobal);
        makeGlobal := true;
      }
      dependenceDict := dependenceDict[i := Dependency(d.requirement, extraParams)];
      var environCopy := NoUserSiteEnv(m.environ);
      var install := [VenvPython(venvPath), "-m", "pip", "install", d.requirement];
      if extraParams != [] {
        install := install + extraParams;
      }
      assert install == InstallArgv(venvPath, d);
      var ok := m.RunProcess(install, Inherited, true);
      if !ok {
        res := Err(CalledProcessError(install));
        return;
      }
      var upgrade := [VenvPython(venvPath), "-m", "pip", "install", "--upgrade", d.requirement];
      ok := m.RunProcess(upgrade, Explicit(environCopy), true);
      res := if ok then Ok(()) else Err(CalledProcessError(upgrade));
    }

    /** The state of the corrected loop after `i` dependencies: the calls so far are those of
        the first `i` steps, and exactly those dependencies had their marker stripped. */
    ghost predicate Reached(m: Machine, deps: seq<Dependency>, steps: seq<Step>, runs0: seq<Run>,
                            done: seq<Run>, res: Result<()>, i: nat)
      reads this, m
    {
      steps == Steps(venvPath, m.environ, m.failing, deps) &&
      Progress(deps, steps, runs0, m.runs, dependenceDict, done, res, i)
    }

    /** One iteration of the corrected loop. */
    method InstallNext(m: Machine, i: nat, ghost deps: seq<Dependency>, ghost steps: seq<Step>,
                       ghost runs0: seq<Run>, ghost done: seq<Run>)
      returns (res: Result<()>, ghost done': seq<Run>)
      requires i < |deps| && Reached(m, deps, steps, runs0, done, Ok(()), i)
      modifies this`dependenceDict, m`runs
      ensures Reached(m, deps, steps, runs0, done', res, i + 1)
    {
      ProgressStep(deps, steps, runs0, m.runs, dependenceDict, done, i);
      ghost var step := steps[i];
      assert step == StepOf(venvPath, m.environ, m.failing, deps[i]);
      var makeGlobal;
      makeGlobal, res := InstallDependency(m, i);
      done' := done + step.runs;
    }

    /** `install_and_import_module()` corrected: every dependency in table order, stopping
        at the first `CalledProcessError`; the dependencies reached have their marker stripped. */
    method InstallDependencies(m: Machine) returns (res: Result<()>)
      modifies this`dependenceDict, m`runs
      ensures var o := InstallAll(venvPath, m.environ, m.failing, old(dependenceDict));
        m.runs == old(m.runs) + o.runs && res == o.result &&
        dependenceDict == StripFirst(old(dependenceDict), o.attempted)
    {
      ghost var deps := dependenceDict;
      ghost var steps := Steps(venvPath, m.environ, m.failing, deps);
      ghost var runs0 := m.runs;
      ghost var done: seq<Run> := [];
      res := Ok(());
      var i := 0;
      while i < |dependenceDict| && res.Ok?
        invariant Reached(m, deps, steps, runs0, done, res, i)
        decreases |deps| - i
      {
        res, done := InstallNext(m, i, deps, steps, runs0, done);
        i := i + 1;
      }
      if res.Err? {
        FailFastStable(steps, i);
      } else {
        assert steps[..i] == steps;
      }
    }
  }
}
