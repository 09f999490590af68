/** The Blender add-on entry point (__init__.py): the dependency table, importing modules into
    the add-on's globals, installing pip and the dependencies, the install operator, and the
    register/unregister lifecycle with its `dependencies_installed` flag. Blender's class registry
    is a sequence of class identities; the UI classes themselves are opaque. */
module AddOn {
  import opened Py
  import opened System
  import opened Lists

  /** `Dependency(module, package, name)`: `package` and `name` default to `module`. */
  datatype Dependency = Dependency(moduleName: string, package: Option<string>, name: Option<string>)

  /** `dependencies`, in declared order. */
  const Dependencies: seq<Dependency> := [
    Dependency("diffusers", None, None),
    Dependency("gdown", None, None),
    Dependency("torch", None, None)
  ]

  /** The global name a dependency is bound to. */
  function GlobalName(d: Dependency): (r: string)
    ensures d.name.None? ==> r == d.moduleName
    ensures d.name.Some? ==> r == d.name.value
  {
    d.name.GetOr(d.moduleName)
  }

  /** The pip requirement a dependency is installed from. */
  function PackageName(d: Dependency): (r: string)
    ensures d.package.None? ==> r == d.moduleName
    ensures d.package.Some? ==> r == d.package.value
  {
    d.package.GetOr(d.moduleName)
  }

  /** The classes the add-on hands to `bpy.utils.register_class`. */
  datatype ClassId =
    | InputProperties   // CAT_PGT_Input_Properties
    | CreateTextures    // CreateTextures
    | MainPanel         // CAT_PT_Main
    | WarningPanel      // CATPRE_PT_warning_panel
    | InstallOperator   // CATPRE_OT_install_dependencies
    | Preferences       // CATPRE_preferences

  /** `classes`: registered once the dependencies are present. */
  const Classes: seq<ClassId> := [InputProperties, CreateTextures, MainPanel]

  /** `pre_dependency_classes`: always registered. */
  const PreDependencyClasses: seq<ClassId> := [WarningPanel, InstallOperator, Preferences]

  /** What a global name of the add-on is bound to. */
  datatype Binding = ModuleObject(moduleName: string) | OtherObject

  /** The globals of the add-on module and the modules reloaded so far. */
  datatype ImportState = ImportState(globals: map<string, Binding>, reloads: seq<string>)

  /** `import_module` succeeds: the name is bound to a module (which is reloaded), or is unbound
      and the module can be found. */
  predicate CanImport(globals: map<string, Binding>, importable: set<string>, moduleName: string, globalName: string) {
    if globalName in globals then globals[globalName].ModuleObject? else moduleName in importable
  }

  /** `import_module(module_name, global_name)` on the add-on's globals: a bound name is reloaded
      and never rebound, an unbound name is bound to the imported module, and nothing else
      changes. */
  function ImportOne(s: ImportState, importable: set<string>, moduleName: string, globalName: string): (r: (Result<()>, ImportState))
    ensures r.0.Ok? <==> CanImport(s.globals, importable, moduleName, globalName)
    ensures r.0.Err? ==> r.1 == s
    ensures r.0.Ok? ==> globalName in r.1.globals && r.1.globals[globalName].ModuleObject?
    ensures globalName !in s.globals && r.0.Ok? ==>
      r.1.globals[globalName] == ModuleObject(moduleName) && r.1.reloads == s.reloads
    ensures globalName in s.globals && r.0.Ok? ==>
      r.1.reloads == s.reloads + [s.globals[globalName].moduleName]
    ensures r.0.Err? ==>
      r.0.error == if globalName in s.globals then TypeError else ModuleNotFoundError(moduleName)
    ensures r.1.globals.Keys == s.globals.Keys + (if r.0.Ok? then {globalName} else {})
    ensures forall k :: k in s.globals ==> r.1.globals[k] == s.globals[k]
  {
    if globalName in s.globals then
      match s.globals[globalName]
      case ModuleObject(loaded) => (Ok(()), ImportState(s.globals, s.reloads + [loaded]))
      case OtherObject => (Err(TypeError), s)
    else if moduleName in importable then
      (Ok(()), ImportState(s.globals[globalName := ModuleObject(moduleName)], s.reloads))
    else
      (Err(ModuleNotFoundError(moduleName)), s)
  }

  /** `register`'s import loop: each dependency in order, stopping at the first raise. */
  function ImportAll(s: ImportState, importable: set<string>, deps: seq<Dependency>): (r: (Result<()>, ImportState))
    decreases deps
    ensures forall k :: k in s.globals ==> k in r.1.globals && r.1.globals[k] == s.globals[k]
    ensures forall k :: k in r.1.globals && k !in s.globals ==> r.1.globals[k].ModuleObject?
  {
    if deps == [] then (Ok(()), s)
    else
      var step := ImportOne(s, importable, deps[0].moduleName, GlobalName(deps[0]));
      if step.0.Err? then step else ImportAll(step.1, importable, deps[1..])
  }

  /** No two dependencies share a global name. */
  predicate DistinctGlobalNames(deps: seq<Dependency>) {
    forall i, j :: 0 <= i < j < |deps| ==> GlobalName(deps[i]) != GlobalName(deps[j])
  }

  /** When no earlier dependency shares its global name, a dependency's import succeeds exactly
      as it would on the initial globals. */
  lemma {:induction false} ImportAllSucceeds(s: ImportState, importable: set<string>, deps: seq<Dependency>)
    requires DistinctGlobalNames(deps)
    decreases deps
    ensures ImportAll(s, importable, deps).0.Ok? <==>
      forall j :: 0 <= j < |deps| ==> CanImport(s.globals, importable, deps[j].moduleName, GlobalName(deps[j]))
  {
    if deps != [] {
      var step := ImportOne(s, importable, deps[0].moduleName, GlobalName(deps[0]));
      if step.0.Ok? {
        var rest := deps[1..];
        assert DistinctGlobalNames(rest) by {
          forall i, j | 0 <= i < j < |rest| ensures GlobalName(rest[i]) != GlobalName(rest[j]) {
            assert rest[i] == deps[i + 1] && rest[j] == deps[j + 1];
          }
        }
        ImportAllSucceeds(step.1, importable, rest);
        forall j | 1 <= j < |deps|
          ensures CanImport(step.1.globals, importable, deps[j].moduleName, GlobalName(deps[j])) ==
                  CanImport(s.globals, importable, deps[j].moduleName, GlobalName(deps[j]))
        {
          assert GlobalName(deps[0]) != GlobalName(deps[j]);
        }
        forall j | 0 <= j < |rest| ensures rest[j] == deps[j + 1] {
        }
      }
    }
  }

  /** The argument vector of `pip --version`. */
  function PipProbe(executable: string): seq<string> {
    [executable, "-m", "pip", "--version"]
  }

  const PipReqTracker := "PIP_REQ_TRACKER"
  const PipConfigFile := "PIP_CONFIG_FILE"

  /** A variable `ensurepip` deletes before bootstrapping: its name starts with `PIP_`. */
  predicate IsPipVar(k: string) {
    |k| >= 4 && k[..4] == "PIP_"
  }

  /** `ensurepip`'s `_disable_pip_configuration_settings()`: every `PIP_*` variable is deleted
      from `os.environ`, then `PIP_CONFIG_FILE` is pointed at `os.devnull`. */
  function PipDisabled(environ: map<string, string>, devNull: string): (e: map<string, string>)
    ensures PipConfigFile in e && e[PipConfigFile] == devNull
    ensures forall k :: k in e && k != PipConfigFile ==> !IsPipVar(k) && k in environ && e[k] == environ[k]
    ensures forall k :: k in environ && !IsPipVar(k) ==> k in e && e[k] == environ[k]
  {
    assert IsPipVar(PipConfigFile) by {
      assert PipConfigFile[..4] == "PIP_";
    }
    (map k | k in environ && !IsPipVar(k) :: environ[k])[PipConfigFile := devNull]
  }

  /** The program `ensurepip` hands to a fresh interpreter to install its bundled pip wheel; its
      text (a `runpy` call over a temporary directory) is not modelled. */
  const EnsurepipProgram := "runpy.run_module('pip')"

  /** The subprocess of `ensurepip.bootstrap()`: `sys.executable -W ignore::DeprecationWarning
      -c <program>`, run with `check=True` in the (already altered) process environment. */
  function BootstrapArgv(executable: string): seq<string> {
    [executable, "-W", "ignore::DeprecationWarning", "-c", EnsurepipProgram]
  }

  /** `install_pip()` as the rest of the add-on sees it: the result, the environment afterwards
      and the subprocess calls made. */
  function PipSetup(executable: string, devNull: string, environ: map<string, string>,
                    failing: set<seq<string>>): (Result<()>, map<string, string>, seq<Run>)
  {
    var probe := Run(PipProbe(executable), Inherited, true);
    if probe.argv !in failing then (Ok(()), environ, [probe])
    else
      var boot := Run(BootstrapArgv(executable), Inherited, true);
      var disabled := PipDisabled(environ, devNull);
      if boot.argv in failing then (Err(CalledProcessError(boot.argv)), disabled, [probe, boot])
      else (Ok(()), disabled - {PipReqTracker}, [probe, boot])
  }

  /** A working pip is left alone: one probe, same environment. A missing pip is bootstrapped:
      the probe and the bootstrap run in that order, pip's configuration variables are gone
      (`PIP_REQ_TRACKER` included) except `PIP_CONFIG_FILE`, which names the null device, every
      other variable is kept, and a failing bootstrap raises `CalledProcessError`. */
  lemma PipSetupOutcome(executable: string, devNull: string, environ: map<string, string>, failing: set<seq<string>>)
    ensures var r := PipSetup(executable, devNull, environ, failing);
      var probe, boot := Run(PipProbe(executable), Inherited, true), Run(BootstrapArgv(executable), Inherited, true);
      && (r.0.Ok? <==> probe.argv !in failing || boot.argv !in failing)
      && (r.0.Err? ==> r.0.error == CalledProcessError(boot.argv))
      && (probe.argv !in failing ==> r.1 == environ && r.2 == [probe])
      && (probe.argv in failing ==>
            && r.2 == [probe, boot]
            && PipReqTracker !in r.1
            && PipConfigFile in r.1 && r.1[PipConfigFile] == devNull
            && (forall k :: k in r.1 && k != PipConfigFile ==> !IsPipVar(k) && k in environ && r.1[k] == environ[k])
            && (forall k :: k in environ && !IsPipVar(k) && k != PipReqTracker ==> k in r.1 && r.1[k] == environ[k]))
  {
    assert IsPipVar(PipReqTracker) by {
      assert PipReqTracker[..4] == "PIP_";
    }
  }

  /** The pip call of `install_and_import_module`: `sys.executable -m pip install <package>`,
      with `PYTHONNOUSERSITE` added to a copy of the environment. */
  function InstallRun(executable: string, environ: map<string, string>, d: Dependency): Run {
    Run([executable, "-m", "pip", "install", PackageName(d)], Explicit(NoUserSiteEnv(environ)), true)
  }

  /** The import of a module that can be found succeeds exactly when its global name is unbound
      or bound to a module. */
  predicate CanBind(globals: map<string, Binding>, globalName: string) {
    globalName !in globals || globals[globalName].ModuleObject?
  }

  /** `install_and_import_module(module, package, name)`: pip install, then `import_module`
      only when pip exited with status zero; the package pip installed provides the module, so
      the import finds it. */
  function InstallOne(executable: string, environ: map<string, string>, failing: set<seq<string>>,
                      s: ImportState, d: Dependency): (Result<()>, ImportState)
  {
    var run := InstallRun(executable, environ, d);
    if run.argv in failing then (Err(CalledProcessError(run.argv)), s)
    else ImportOne(s, {d.moduleName}, d.moduleName, GlobalName(d))
  }

  /** The pip call names the package after `-m pip install`, with `check=True` and a copy of the
      environment where `PYTHONNOUSERSITE` is "1" and every other variable is kept. */
  lemma InstallRunShape(executable: string, environ: map<string, string>, d: Dependency)
    ensures var r := InstallRun(executable, environ, d);
      && |r.argv| == 5 && r.argv[..4] == [executable, "-m", "pip", "install"]
      && r.argv[4] == PackageName(d)
      && r.check && r.env.Explicit? && r.env.vars[NoUserSiteKey] == "1"
      && forall k :: k in environ && k != NoUserSiteKey ==> r.env.vars[k] == environ[k]
  {
  }

  /** One dependency: the import is attempted only after pip exited with status zero, so the call
      succeeds exactly when pip succeeds and the global name is free or holds a module; a failed
      pip call raises `CalledProcessError` and leaves the globals alone; after a successful pip
      call only a name bound to a non-module fails, with `TypeError`; no binding is replaced. */
  lemma InstallOneOutcome(executable: string, environ: map<string, string>, failing: set<seq<string>>,
                          s: ImportState, d: Dependency)
    ensures var run := InstallRun(executable, environ, d);
      var r := InstallOne(executable, environ, failing, s, d);
      && (r.0.Ok? <==> run.argv !in failing && CanBind(s.globals, GlobalName(d)))
      && (run.argv in failing ==> r.0 == Err(CalledProcessError(run.argv)) && r.1 == s)
      && (run.argv !in failing && r.0.Err? ==> r.0.error == TypeError)
      && r.1.globals.Keys == s.globals.Keys + (if r.0.Ok? then {GlobalName(d)} else {})
      && (forall k :: k in s.globals ==> r.1.globals[k] == s.globals[k])
  {
  }

  /** The install operator's loop: each dependency in order, stopping at the first raise; the
      pip calls made are those of the dependencies reached, in order. */
  function InstallAll(executable: string, environ: map<string, string>, failing: set<seq<string>>,
                      s: ImportState, deps: seq<Dependency>): (Result<()>, ImportState, seq<Run>)
    decreases deps
  {
    if deps == [] then (Ok(()), s, [])
    else
      var step := InstallOne(executable, environ, failing, s, deps[0]);
      var run := InstallRun(executable, environ, deps[0]);
      if step.0.Err? then (step.0, step.1, [run])
      else
        var rest := InstallAll(executable, environ, failing, step.1, deps[1..]);
        (rest.0, rest.1, [run] + rest.2)
  }

  /** Fail-fast and ordered: the pip calls made are those of the first dependencies, one each
      and in declared order, all of them when installation succeeds and at least the first
      otherwise. */
  lemma {:induction false} InstallAllRunsInOrder(executable: string, environ: map<string, string>, failing: set<seq<string>>,
                                                 s: ImportState, deps: seq<Dependency>)
    decreases deps
    ensures var r := InstallAll(executable, environ, failing, s, deps);
      |r.2| <= |deps| && (deps != [] ==> 1 <= |r.2|) && (r.0.Ok? ==> |r.2| == |deps|) &&
      forall j :: 0 <= j < |r.2| ==> r.2[j] == InstallRun(executable, environ, deps[j])
  {
    if deps != [] {
      var step := InstallOne(executable, environ, failing, s, deps[0]);
      if step.0.Ok? {
        var rest := InstallAll(executable, environ, failing, step.1, deps[1..]);
        InstallAllRunsInOrder(executable, environ, failing, step.1, deps[1..]);
        var runs := [InstallRun(executable, environ, deps[0])] + rest.2;
        forall j | 1 <= j < |runs| ensures runs[j] == InstallRun(executable, environ, deps[j]) {
          assert runs[j] == rest.2[j - 1] && deps[1..][j - 1] == deps[j];
        }
      }
    }
  }

  /** Installation succeeds exactly when every pip call exits with status zero and every
      dependency can then be imported. */
  lemma {:induction false} InstallAllSucceeds(executable: string, environ: map<string, string>, failing: set<seq<string>>,
                                              s: ImportState, deps: seq<Dependency>)
    requires DistinctGlobalNames(deps)
    decreases deps
    ensures InstallAll(executable, environ, failing, s, deps).0.Ok? <==>
      forall j :: 0 <= j < |deps| ==>
        InstallRun(executable, environ, deps[j]).argv !in failing &&
        CanBind(s.globals, GlobalName(deps[j]))
  {
    if deps != [] {
      var step := InstallOne(executable, environ, failing, s, deps[0]);
      if step.0.Ok? {
        var rest := deps[1..];
        assert DistinctGlobalNames(rest) by {
          forall i, j | 0 <= i < j < |rest| ensures GlobalName(rest[i]) != GlobalName(rest[j]) {
            assert rest[i] == deps[i + 1] && rest[j] == deps[j + 1];
          }
        }
        InstallAllSucceeds(executable, environ, failing, step.1, rest);
        forall j | 1 <= j < |deps|
          ensures CanBind(step.1.globals, GlobalName(deps[j])) ==
                  CanBind(s.globals, GlobalName(deps[j]))
        {
          assert GlobalName(deps[0]) != GlobalName(deps[j]);
        }
        forall j | 0 <= j < |rest| ensures rest[j] == deps[j + 1] {
        }
      }
    }
  }

  /** Dropping the first dependency keeps the global names distinct. */
  lemma DistinctGlobalNamesTail(deps: seq<Dependency>)
    requires deps != [] && DistinctGlobalNames(deps)
    ensures DistinctGlobalNames(deps[1..])
  {
    var rest := deps[1..];
    forall i, j | 0 <= i < j < |rest| ensures GlobalName(rest[i]) != GlobalName(rest[j]) {
      assert rest[i] == deps[i + 1] && rest[j] == deps[j + 1];
    }
  }

  /** Installing `d0` first does not change what installing a dependency with another global
      name does. */
  lemma InstallOneUnaffected(executable: string, environ: map<string, string>, failing: set<seq<string>>,
                             s: ImportState, d0: Dependency, d: Dependency)
    requires GlobalName(d0) != GlobalName(d)
    requires InstallOne(executable, environ, failing, s, d0).0.Ok?
    ensures var s' := InstallOne(executable, environ, failing, s, d0).1;
      CanBind(s'.globals, GlobalName(d)) ==
        CanBind(s.globals, GlobalName(d)) &&
      InstallOne(executable, environ, failing, s', d).0 ==
        InstallOne(executable, environ, failing, s, d).0
  {
    var s' := InstallOne(executable, environ, failing, s, d0).1;
    var g := GlobalName(d);
    assert g in s'.globals <==> g in s.globals;
    if g in s.globals {
      assert s'.globals[g] == s.globals[g];
    }
  }

  /** Fail-fast: when every dependency before `k` installs and imports and dependency `k` does
      not, the loop ends with `k`. Its error is the one installing `k` alone would raise, the
      globals are those the dependencies before it left, and the calls are theirs plus its own;
      no later dependency is tried. */
  lemma {:induction false} InstallAllStopsAtFirstFailure(executable: string, environ: map<string, string>,
                                                         failing: set<seq<string>>,
                                                         s: ImportState, deps: seq<Dependency>, k: nat)
    requires DistinctGlobalNames(deps) && k < |deps|
    requires forall j :: 0 <= j < k ==>
      InstallRun(executable, environ, deps[j]).argv !in failing &&
      CanBind(s.globals, GlobalName(deps[j]))
    requires !(InstallRun(executable, environ, deps[k]).argv !in failing &&
               CanBind(s.globals, GlobalName(deps[k])))
    decreases k
    ensures var r := InstallAll(executable, environ, failing, s, deps);
      var pre := InstallAll(executable, environ, failing, s, deps[..k]);
      r.0.Err? && pre.0.Ok? && |pre.2| == k && |r.2| == k + 1 &&
      r == (InstallOne(executable, environ, failing, s, deps[k]).0, pre.1,
            pre.2 + [InstallRun(executable, environ, deps[k])])
  {
    var d := deps[0];
    var step := InstallOne(executable, environ, failing, s, d);
    if k == 0 {
      assert step.0.Err? && step.1 == s;
      assert deps[..k] == [];
      assert [] + [InstallRun(executable, environ, d)] == [InstallRun(executable, environ, d)];
      assert |InstallAll(executable, environ, failing, s, deps[..k]).2| == 0;
    } else {
      var rest := deps[1..];
      DistinctGlobalNamesTail(deps);
      forall j | 0 <= j < k - 1
        ensures InstallRun(executable, environ, rest[j]).argv !in failing &&
                CanBind(step.1.globals, GlobalName(rest[j]))
      {
        assert rest[j] == deps[j + 1];
        InstallOneUnaffected(executable, environ, failing, s, d, deps[j + 1]);
      }
      assert rest[k - 1] == deps[k];
      InstallOneUnaffected(executable, environ, failing, s, d, deps[k]);
      InstallAllStopsAtFirstFailure(executable, environ, failing, step.1, rest, k - 1);
      var pre' := InstallAll(executable, environ, failing, step.1, rest[..k - 1]);
      assert deps[..k][0] == d && deps[..k][1..] == rest[..k - 1];
      assert InstallAll(executable, environ, failing, s, deps[..k]) ==
        (pre'.0, pre'.1, [InstallRun(executable, environ, d)] + pre'.2);
      assert |InstallAll(executable, environ, failing, s, deps[..k]).2| == k;
      AppendAssoc([InstallRun(executable, environ, d)], pre'.2, [InstallRun(executable, environ, deps[k])]);
    }
  }

  /** `bpy.utils.register_class` over a tuple, in order: registering a class twice raises
      `ValueError`, which stops the loop. */
  function RegisterAll(reg: seq<ClassId>, cs: seq<ClassId>): (r: (Result<()>, seq<ClassId>))
    decreases cs
    ensures r.0.Ok? ==> r.1 == reg + cs
    ensures r.0.Err? ==> r.0 == Err(ValueError)
  {
    if cs == [] then (Ok(()), reg)
    else if cs[0] in reg then (Err(ValueError), reg)
    else
      var rest := RegisterAll(reg + [cs[0]], cs[1..]);
      assert rest.0.Ok? ==> reg + [cs[0]] + cs[1..] == reg + cs;
      rest
  }

  /** `bpy.utils.unregister_class` over a tuple, in order: unregistering a class that is not
      registered raises `RuntimeError`, which stops the loop. */
  function UnregisterAll(reg: seq<ClassId>, cs: seq<ClassId>): (r: (Result<()>, seq<ClassId>))
    decreases cs
    ensures r.0.Err? ==> r.0 == Err(RuntimeError)
  {
    if cs == [] then (Ok(()), reg)
    else if cs[0] !in reg then (Err(RuntimeError), reg)
    else UnregisterAll(RemoveFirst(reg, cs[0]), cs[1..])
  }

  /** Registering a tuple succeeds exactly when its classes are pairwise distinct and none is
      registered yet. */
  lemma {:induction false} RegisterAllSucceeds(reg: seq<ClassId>, cs: seq<ClassId>)
    decreases cs
    ensures RegisterAll(reg, cs).0.Ok? <==> Distinct(cs) && forall c :: c in cs ==> c !in reg
  {
    if cs != [] {
      var c, t := cs[0], cs[1..];
      assert cs == [c] + t;
      DistinctCons(c, t);
      RegisterAllSucceeds(reg + [c], t);
      assert forall x :: x in reg + [c] <==> x in reg || x == c;
    }
  }

  /** Unregistering the leading block `a` of `r + a + b` in order leaves `r + b`. */
  lemma {:induction false} UnregisterLeading(r: seq<ClassId>, a: seq<ClassId>, b: seq<ClassId>)
    requires Distinct(a)
    requires forall c :: c in a ==> c !in r && c !in b
    decreases a
    ensures UnregisterAll(r + a + b, a) == (Ok(()), r + b)
  {
    if a != [] {
      var rest := a[1..];
      UnregisterLeadingStep(r, a, b);
      UnregisterLeading(r, rest, b);
    } else {
      assert r + a + b == r + b;
    }
  }

  /** The first class of the leading block is registered, and unregistering it leaves the rest
      of the block leading, still distinct and disjoint from `r` and `b`. */
  lemma UnregisterLeadingStep(r: seq<ClassId>, a: seq<ClassId>, b: seq<ClassId>)
    requires a != [] && Distinct(a)
    requires forall c :: c in a ==> c !in r && c !in b
    ensures Distinct(a[1..]) && forall c :: c in a[1..] ==> c !in r && c !in b
    ensures UnregisterAll(r + a + b, a) == UnregisterAll(r + a[1..] + b, a[1..])
  {
    var c, rest := a[0], a[1..];
    assert a == [c] + rest;
    DistinctCons(c, rest);
    assert forall x :: x in rest ==> x in a;
    assert r + a + b == r + [c] + (rest + b);
    RemoveFirstAt(r, c, rest + b);
    assert r + (rest + b) == r + rest + b;
    assert RemoveFirst(r + a + b, c) == r + rest + b;
  }

  /** Unregistering a block in reverse order of registration removes it again. */
  lemma {:induction false} UnregisterReversed(r: seq<ClassId>, cs: seq<ClassId>)
    requires Distinct(cs)
    requires forall c :: c in cs ==> c !in r
    decreases cs
    ensures UnregisterAll(r + cs, Reversed(cs)) == (Ok(()), r)
  {
    if cs == [] {
      assert r + cs == r;
    } else {
      var last, init := cs[|cs| - 1], cs[..|cs| - 1];
      RemoveLast(r, cs);
      UnregisterReversed(r, init);
      UnregisterStep(r + cs, last, Reversed(init));
    }
  }

  /** The last class of a block registered after `r` is registered, and removing it leaves `r`
      followed by the rest of the block, which is again a distinct block disjoint from `r`. */
  lemma RemoveLast(r: seq<ClassId>, cs: seq<ClassId>)
    requires cs != [] && Distinct(cs)
    requires forall c :: c in cs ==> c !in r
    ensures var last, init := cs[|cs| - 1], cs[..|cs| - 1];
      Distinct(init) && (forall x :: x in init ==> x !in r) &&
      last in r + cs && RemoveFirst(r + cs, last) == r + init
  {
    var last, init := cs[|cs| - 1], cs[..|cs| - 1];
    assert Distinct(init) && last !in init by {
      assert cs == init + [last];
      DistinctSnoc(init, last);
    }
    assert last !in r + init && last in r + cs by {
      assert last in cs;
      assert (r + cs)[|r| + |init|] == last;
    }
    assert forall x :: x in init ==> x !in r by {
      assert forall x :: x in init ==> x in cs;
    }
    assert RemoveFirst(r + cs, last) == r + init by {
      assert r + cs == (r + init) + [last] + [];
      RemoveFirstAt(r + init, last, []);
    }
  }

  /** One unfolding of `UnregisterAll` on a leading class that is registered. */
  lemma UnregisterStep(reg: seq<ClassId>, c: ClassId, rest: seq<ClassId>)
    requires c in reg
    ensures UnregisterAll(reg, [c] + rest) == UnregisterAll(RemoveFirst(reg, c), rest)
  {
    assert ([c] + rest)[0] == c && ([c] + rest)[1..] == rest;
  }

  /** A `register` that imports every dependency, starting with none of the add-on's classes
      registered, registers the pre-dependency classes and then the main classes, in order. */
  lemma RegisterFromEmpty()
    ensures RegisterAll([], PreDependencyClasses) == (Ok(()), PreDependencyClasses)
    ensures RegisterAll(PreDependencyClasses, Classes) == (Ok(()), PreDependencyClasses + Classes)
  {
    assert Distinct(PreDependencyClasses) && Distinct(Classes);
    RegisterAllSucceeds([], PreDependencyClasses);
    assert [] + PreDependencyClasses == PreDependencyClasses;
    RegisterAllSucceeds(PreDependencyClasses, Classes);
  }

  /** The `unregister` that follows removes the pre-dependency classes from the front of the
      registry, leaving the main classes. */
  lemma UnregisterPreDependencyAfterRegister()
    ensures UnregisterAll(PreDependencyClasses + Classes, PreDependencyClasses) == (Ok(()), Classes)
  {
    assert Distinct(PreDependencyClasses);
    forall c | c in PreDependencyClasses ensures c !in [] && c !in Classes {
    }
    assert [] + PreDependencyClasses + Classes == PreDependencyClasses + Classes;
    assert [] + Classes == Classes;
    UnregisterLeading([], PreDependencyClasses, Classes);
  }

  /** Then the main classes, unregistered in reverse order, leave none registered. */
  lemma UnregisterMainAfterRegister()
    ensures UnregisterAll(Classes, Reversed(Classes)) == (Ok(()), [])
  {
    assert Distinct(Classes);
    assert [] + Classes == Classes;
    UnregisterReversed([], Classes);
  }

  /** The modules the install loop's pip calls provide: the module of every dependency reached
      whose pip call exits with status zero, the one that stops the loop included. */
  function ProvidedAll(executable: string, environ: map<string, string>, failing: set<seq<string>>,
                       s: ImportState, deps: seq<Dependency>): set<string>
    decreases deps
  {
    if deps == [] then {}
    else
      var step := InstallOne(executable, environ, failing, s, deps[0]);
      var mine := if InstallRun(executable, environ, deps[0]).argv in failing then {} else {deps[0].moduleName};
      if step.0.Err? then mine else mine + ProvidedAll(executable, environ, failing, step.1, deps[1..])
  }

  /** A module is provided exactly when a dependency the loop reaches names it and that
      dependency's pip call exits with status zero. */
  lemma {:induction false} ProvidedAllExactly(executable: string, environ: map<string, string>, failing: set<seq<string>>,
                                              s: ImportState, deps: seq<Dependency>, moduleName: string)
    decreases deps
    ensures var r := InstallAll(executable, environ, failing, s, deps);
      |r.2| <= |deps| &&
      (moduleName in ProvidedAll(executable, environ, failing, s, deps) <==>
        exists j :: 0 <= j < |r.2| && deps[j].moduleName == moduleName &&
          InstallRun(executable, environ, deps[j]).argv !in failing)
  {
    if deps != [] {
      var step := InstallOne(executable, environ, failing, s, deps[0]);
      if step.0.Ok? {
        var r := InstallAll(executable, environ, failing, s, deps);
        var rest := InstallAll(executable, environ, failing, step.1, deps[1..]);
        ProvidedAllExactly(executable, environ, failing, step.1, deps[1..], moduleName);
        assert r.2 == [InstallRun(executable, environ, deps[0])] + rest.2;
        if exists j :: 0 <= j < |rest.2| && deps[1..][j].moduleName == moduleName &&
             InstallRun(executable, environ, deps[1..][j]).argv !in failing {
          var j :| 0 <= j < |rest.2| && deps[1..][j].moduleName == moduleName &&
             InstallRun(executable, environ, deps[1..][j]).argv !in failing;
          assert deps[j + 1] == deps[1..][j];
        }
        if exists j :: 0 <= j < |r.2| && deps[j].moduleName == moduleName &&
             InstallRun(executable, environ, deps[j]).argv !in failing {
          var j :| 0 <= j < |r.2| && deps[j].moduleName == moduleName &&
             InstallRun(executable, environ, deps[j]).argv !in failing;
          if j > 0 {
            assert deps[1..][j - 1] == deps[j];
          }
        }
      }
    }
  }

  /** When the loop installs everything, it provides every dependency's module. */
  lemma {:induction false} ProvidedAllWhenInstalled(executable: string, environ: map<string, string>,
                                                    failing: set<seq<string>>, s: ImportState, deps: seq<Dependency>)
    requires InstallAll(executable, environ, failing, s, deps).0.Ok?
    decreases deps
    ensures forall j :: 0 <= j < |deps| ==> deps[j].moduleName in ProvidedAll(executable, environ, failing, s, deps)
  {
    if deps != [] {
      var step := InstallOne(executable, environ, failing, s, deps[0]);
      ProvidedAllWhenInstalled(executable, environ, failing, step.1, deps[1..]);
      forall j | 1 <= j < |deps| ensures deps[j] == deps[1..][j - 1] {
      }
    }
  }

  /** What the install operator's `execute` returns. */
  datatype Status = Finished | Cancelled

  /** The state __init__.py keeps: the module global `dependencies_installed`, the module's
      globals, Blender's class registry, whether `Scene.input_tool` is set, and the modules the
      interpreter can find, which grow with every package pip installs. `sys.executable` and
      `os.devnull` are fixed. */
  class AddOnState {
    var dependenciesInstalled: bool
    var globals: map<string, Binding>
    var reloads: seq<string>
    var registered: seq<ClassId>
    var inputTool: bool
    var importable: set<string>
    const executable: string
    const devNull: string

    /** Loading the module: `dependencies_installed = False`. */
    constructor (globals0: map<string, Binding>, registered0: seq<ClassId>, executable0: string,
                 devNull0: string, importable0: set<string>)
      ensures !dependenciesInstalled && globals == globals0 && reloads == [] && registered == registered0
      ensures !inputTool && executable == executable0 && devNull == devNull0 && importable == importable0
    {
      dependenciesInstalled := false;
      globals, reloads, registered := globals0, [], registered0;
      inputTool := false;
      executable, devNull, importable := executable0, devNull0, importable0;
    }

    /** The `poll` of the install operator and of the warning panel: both are shown only while
        the dependencies are not installed. */
    predicate NeedsInstall()
      reads this
    {
      !dependenciesInstalled
    }

    /** `import_module(module_name, global_name)`. */
    method ImportModule(moduleName: string, globalName: Option<string>) returns (res: Result<()>)
      modifies this`globals, this`reloads
      ensures (res, ImportState(globals, reloads)) ==
        ImportOne(ImportState(old(globals), old(reloads)), importable, moduleName, globalName.GetOr(moduleName))
    {
      var name := globalName.GetOr(moduleName);
      if name in globals {
        match globals[name]
        case ModuleObject(loaded) =>
          reloads := reloads + [loaded];
          res := Ok(());
        case OtherObject =>
          res := Err(TypeError);
      } else if moduleName in importable {
        globals := globals[name := ModuleObject(moduleName)];
        res := Ok(());
      } else {
        res := Err(ModuleNotFoundError(moduleName));
      }
    }

    /** `install_pip()`: probe with `pip --version`; only when that exits non-zero, bootstrap
        pip with `ensurepip`, which first strips pip's configuration from the environment and
        raises when its own pip run fails, and then drop `PIP_REQ_TRACKER`, present or not. */
    method InstallPip(m: Machine) returns (res: Result<()>)
      modifies m`runs, m`environ
      ensures var p := PipSetup(executable, devNull, old(m.environ), m.failing);
        res == p.0 && m.environ == p.1 && m.runs == old(m.runs) + p.2
    {
      var probe := PipProbe(executable);
      var ok := m.RunProcess(probe, Inherited, true);
      if ok {
        return Ok(());
      }
      m.environ := PipDisabled(m.environ, devNull);
      var boot := BootstrapArgv(executable);
      var booted := m.RunProcess(boot, Inherited, true);
      assert m.runs == old(m.runs) + [Run(probe, Inherited, true), Run(boot, Inherited, true)];
      if !booted {
        return Err(CalledProcessError(boot));
      }
      m.environ := m.environ - {PipReqTracker};
      res := Ok(());
    }

    /** `install_and_import_module(module_name, package_name, global_name)`: a pip call that
        exits with status zero makes the module importable. */
    method InstallAndImportModule(m: Machine, moduleName: string, packageName: Option<string>, globalName: Option<string>)
      returns (res: Result<()>)
      modifies this`globals, this`reloads, this`importable, m`runs
      ensures var d := Dependency(moduleName, packageName, globalName);
        var run := InstallRun(executable, m.environ, d);
        m.runs == old(m.runs) + [run] &&
        (res, ImportState(globals, reloads)) ==
          InstallOne(executable, m.environ, m.failing, ImportState(old(globals), old(reloads)), d) &&
        importable == old(importable) + (if run.argv in m.failing then {} else {moduleName})
    {
      var package := packageName.GetOr(moduleName);
      var environCopy := NoUserSiteEnv(m.environ);
      var argv := [executable, "-m", "pip", "install", package];
      var ok := m.RunProcess(argv, Explicit(environCopy), true);
      if !ok {
        res := Err(CalledProcessError(argv));
        return;
      }
      importable := importable + {moduleName};
      res := ImportModule(moduleName, globalName);
    }

    /** `for cls in <tuple>: bpy.utils.register_class(cls)`. */
    method RegisterClasses(cs: seq<ClassId>) returns (res: Result<()>)
      modifies this`registered
      ensures (res, registered) == RegisterAll(old(registered), cs)
    {
      ghost var reg0 := registered;
      var i := 0;
      while i < |cs|
        invariant i <= |cs|
        invariant RegisterAll(reg0, cs) == RegisterAll(registered, cs[i..])
      {
        assert cs[i..][0] == cs[i] && cs[i..][1..] == cs[i + 1..];
        if cs[i] in registered {
          return Err(ValueError);
        }
        registered := registered + [cs[i]];
        i := i + 1;
      }
      assert cs[i..] == [];
      res := Ok(());
    }

    /** `for cls in <tuple>: bpy.utils.unregister_class(cls)`. */
    method UnregisterClasses(cs: seq<ClassId>) returns (res: Result<()>)
      modifies this`registered
      ensures (res, registered) == UnregisterAll(old(registered), cs)
    {
      ghost var reg0 := registered;
      var i := 0;
      while i < |cs|
        invariant i <= |cs|
        invariant UnregisterAll(reg0, cs) == UnregisterAll(registered, cs[i..])
      {
        assert cs[i..][0] == cs[i] && cs[i..][1..] == cs[i + 1..];
        if cs[i] !in registered {
          return Err(RuntimeError);
        }
        registered := RemoveFirst(registered, cs[i]);
        i := i + 1;
      }
      assert cs[i..] == [];
      res := Ok(());
    }

    /** `register`'s loop `import_module(dependency.module, dependency.name)`. */
    method ImportDependencies() returns (res: Result<()>)
      modifies this`globals, this`reloads
      ensures (res, ImportState(globals, reloads)) == ImportAll(ImportState(old(globals), old(reloads)), importable, Dependencies)
    {
      ghost var s0 := ImportState(globals, reloads);
      var i := 0;
      while i < |Dependencies|
        invariant i <= |Dependencies|
        invariant ImportAll(s0, importable, Dependencies) == ImportAll(ImportState(globals, reloads), importable, Dependencies[i..])
      {
        var d := Dependencies[i];
        assert Dependencies[i..][0] == d && Dependencies[i..][1..] == Dependencies[i + 1..];
        res := ImportModule(d.moduleName, d.name);
        if res.Err? {
          return;
        }
        i := i + 1;
      }
      assert Dependencies[i..] == [];
      res := Ok(());
    }

    /** `execute`'s loop `install_and_import_module(...)` over the dependencies: every pip call
        reached that exits with status zero adds its module to the importable ones. */
    method InstallDependencies(m: Machine, deps: seq<Dependency>) returns (res: Result<()>)
      modifies this`globals, this`reloads, this`importable, m`runs
      ensures var s0 := ImportState(old(globals), old(reloads));
        var o := InstallAll(executable, m.environ, m.failing, s0, deps);
        res == o.0 && ImportState(globals, reloads) == o.1 && m.runs == old(m.runs) + o.2 &&
        importable == old(importable) + ProvidedAll(executable, m.environ, m.failing, s0, deps)
    {
      ghost var whole := InstallAll(executable, m.environ, m.failing, ImportState(globals, reloads), deps);
      ghost var provided := ProvidedAll(executable, m.environ, m.failing, ImportState(globals, reloads), deps);
      ghost var done: seq<Run> := [];
      ghost var added: set<string> := {};
      var i := 0;
      assert deps[i..] == deps && done + whole.2 == whole.2 && added + provided == provided;
      while i < |deps|
        invariant i <= |deps|
        invariant m.runs == old(m.runs) + done
        invariant importable == old(importable) + added
        invariant var rest := InstallAll(executable, m.environ, m.failing, ImportState(globals, reloads), deps[i..]);
          whole == (rest.0, rest.1, done + rest.2)
        invariant provided == added + ProvidedAll(executable, m.environ, m.failing, ImportState(globals, reloads), deps[i..])
      {
        var d := deps[i];
        assert deps[i..][0] == d && deps[i..][1..] == deps[i + 1..];
        ghost var run := InstallRun(executable, m.environ, d);
        ghost var mine: set<string> := if run.argv in m.failing then {} else {d.moduleName};
        res := InstallAndImportModule(m, d.moduleName, d.package, d.name);
        added := added + mine;
        if res.Err? {
          return;
        }
        ghost var rest := InstallAll(executable, m.environ, m.failing, ImportState(globals, reloads), deps[i + 1..]);
        AppendAssoc(done, [run], rest.2);
        done := done + [run];
        i := i + 1;
      }
      assert deps[i..] == [];
      res := Ok(());
    }

    /** `CATPRE_OT_install_dependencies.execute`: install pip, then install and import every
        dependency in order. A `CalledProcessError` or `ImportError` cancels with the flag and
        the registry untouched; any other exception propagates. Otherwise the flag is set, the
        main classes are registered in order and `input_tool` is set. */
    method Execute(m: Machine) returns (res: Result<Status>)
      modifies this`dependenciesInstalled, this`registered, this`globals, this`reloads, this`inputTool,
               this`importable, m`runs, m`environ
      ensures var p := PipSetup(executable, devNull, old(m.environ), m.failing);
        m.environ == p.1 &&
        (p.0.Err? ==>
          res == Ok(Cancelled) && m.runs == old(m.runs) + p.2 &&
          globals == old(globals) && reloads == old(reloads) && importable == old(importable) &&
          dependenciesInstalled == old(dependenciesInstalled) && registered == old(registered) && inputTool == old(inputTool))
      ensures var p := PipSetup(executable, devNull, old(m.environ), m.failing);
        var o := InstallAll(executable, p.1, m.failing, ImportState(old(globals), old(reloads)), Dependencies);
        p.0.Ok? ==>
          m.runs == old(m.runs) + p.2 + o.2 && ImportState(globals, reloads) == o.1 &&
          importable == old(importable) + ProvidedAll(executable, p.1, m.failing, ImportState(old(globals), old(reloads)), Dependencies)
      ensures var p := PipSetup(executable, devNull, old(m.environ), m.failing);
        var o := InstallAll(executable, p.1, m.failing, ImportState(old(globals), old(reloads)), Dependencies);
        p.0.Ok? && o.0.Err? ==>
          dependenciesInstalled == old(dependenciesInstalled) && registered == old(registered) && inputTool == old(inputTool) &&
          res == if o.0.error.CalledProcessError? || IsImportError(o.0.error) then Ok(Cancelled) else Err(o.0.error)
      ensures var p := PipSetup(executable, devNull, old(m.environ), m.failing);
        var o := InstallAll(executable, p.1, m.failing, ImportState(old(globals), old(reloads)), Dependencies);
        var reg := RegisterAll(old(registered), Classes);
        p.0.Ok? && o.0.Ok? ==>
          !NeedsInstall() && registered == reg.1 &&
          (reg.0.Ok? ==> res == Ok(Finished) && inputTool) &&
          (reg.0.Err? ==> res == Err(reg.0.error) && inputTool == old(inputTool))
    {
      var piped := InstallPip(m);
      if piped.Err? {
        return Ok(Cancelled);
      }
      res := InstallAndFinish(m);
    }

    /** `execute` once pip is present: the dependency loop, then either the cancel of its
        `except` or the end of `execute`. */
    method InstallAndFinish(m: Machine) returns (res: Result<Status>)
      modifies this`dependenciesInstalled, this`registered, this`globals, this`reloads, this`inputTool,
               this`importable, m`runs
      ensures var o := InstallAll(executable, m.environ, m.failing, ImportState(old(globals), old(reloads)), Dependencies);
        m.runs == old(m.runs) + o.2 && ImportState(globals, reloads) == o.1 &&
        importable == old(importable) + ProvidedAll(executable, m.environ, m.failing, ImportState(old(globals), old(reloads)), Dependencies)
      ensures var o := InstallAll(executable, m.environ, m.failing, ImportState(old(globals), old(reloads)), Dependencies);
        o.0.Err? ==>
          dependenciesInstalled == old(dependenciesInstalled) && registered == old(registered) && inputTool == old(inputTool) &&
          res == if o.0.error.CalledProcessError? || IsImportError(o.0.error) then Ok(Cancelled) else Err(o.0.error)
      ensures var o := InstallAll(executable, m.environ, m.failing, ImportState(old(globals), old(reloads)), Dependencies);
        var reg := RegisterAll(old(registered), Classes);
        o.0.Ok? ==>
          !NeedsInstall() && registered == reg.1 &&
          (reg.0.Ok? ==> res == Ok(Finished) && inputTool) &&
          (reg.0.Err? ==> res == Err(reg.0.error) && inputTool == old(inputTool))
    {
      ghost var o := InstallAll(executable, m.environ, m.failing, ImportState(globals, reloads), Dependencies);
      var installed := InstallDependencies(m, Dependencies);
      assert installed == o.0;
      if installed.Err? {
        if installed.error.CalledProcessError? || IsImportError(installed.error) {
          res := Ok(Cancelled);
        } else {
          res := Err(installed.error);
        }
      } else {
        res := FinishInstall();
      }
    }

    /** The end of `execute` once every dependency is installed: set the flag, register the
        main classes in order, then set `input_tool`. */
    method FinishInstall() returns (res: Result<Status>)
      modifies this`dependenciesInstalled, this`registered, this`inputTool
      ensures var reg := RegisterAll(old(registered), Classes);
        !NeedsInstall() && registered == reg.1 &&
        (reg.0.Ok? ==> res == Ok(Finished) && inputTool) &&
        (reg.0.Err? ==> res == Err(reg.0.error) && inputTool == old(inputTool))
    {
      dependenciesInstalled := true;
      var registeredAll := RegisterClasses(Classes);
      if registeredAll.Err? {
        res := Err(registeredAll.error);
      } else {
        inputTool := true;
        res := Ok(Finished);
      }
    }

    /** `register()`: reset the flag, register the pre-dependency classes, import every
        dependency; a `ModuleNotFoundError` ends registration quietly, otherwise the flag is
        set and the main classes are registered, then `input_tool` is set. */
    method Register() returns (res: Result<()>)
      modifies this`dependenciesInstalled, this`registered, this`globals, this`reloads, this`inputTool
      ensures var pre := RegisterAll(old(registered), PreDependencyClasses);
        pre.0.Err? ==>
          res == pre.0 && registered == pre.1 && NeedsInstall() &&
          globals == old(globals) && reloads == old(reloads) && inputTool == old(inputTool)
      ensures var pre := RegisterAll(old(registered), PreDependencyClasses);
        var imp := ImportAll(ImportState(old(globals), old(reloads)), importable, Dependencies);
        pre.0.Ok? && imp.0.Err? ==>
          ImportState(globals, reloads) == imp.1 && NeedsInstall() &&
          registered == pre.1 && inputTool == old(inputTool) &&
          res == if imp.0.error.ModuleNotFoundError? then Ok(()) else imp.0
      ensures var pre := RegisterAll(old(registered), PreDependencyClasses);
        var imp := ImportAll(ImportState(old(globals), old(reloads)), importable, Dependencies);
        var main := RegisterAll(pre.1, Classes);
        pre.0.Ok? && imp.0.Ok? ==>
          ImportState(globals, reloads) == imp.1 && !NeedsInstall() &&
          registered == main.1 && res == main.0 && inputTool == (main.0.Ok? || old(inputTool))
    {
      dependenciesInstalled := false;
      res := RegisterClasses(PreDependencyClasses);
      if res.Err? {
        return;
      }
      res := ImportThenRegister();
    }

    /** The rest of `register` once the pre-dependency classes are in: import every dependency;
        a `ModuleNotFoundError` returns quietly with the flag still clear, otherwise the flag is
        set and the main classes are registered, then `input_tool` is set. */
    method ImportThenRegister() returns (res: Result<()>)
      requires NeedsInstall()
      modifies this`dependenciesInstalled, this`registered, this`globals, this`reloads, this`inputTool
      ensures var imp := ImportAll(ImportState(old(globals), old(reloads)), importable, Dependencies);
        imp.0.Err? ==>
          ImportState(globals, reloads) == imp.1 && NeedsInstall() &&
          registered == old(registered) && inputTool == old(inputTool) &&
          res == if imp.0.error.ModuleNotFoundError? then Ok(()) else imp.0
      ensures var imp := ImportAll(ImportState(old(globals), old(reloads)), importable, Dependencies);
        var main := RegisterAll(old(registered), Classes);
        imp.0.Ok? ==>
          ImportState(globals, reloads) == imp.1 && !NeedsInstall() &&
          registered == main.1 && res == main.0 && inputTool == (main.0.Ok? || old(inputTool))
    {
      var imported := ImportDependencies();
      if imported.Err? {
        if imported.error.ModuleNotFoundError? {
          return Ok(());
        }
        return imported;
      }
      dependenciesInstalled := true;
      res := RegisterClasses(Classes);
      if res.Err? {
        return;
      }
      inputTool := true;
    }

    /** `unregister()`: unregister the pre-dependency classes, then the main classes in reverse
        order when the flag is set, then delete `input_tool`, which raises `AttributeError` when
        it is not set. */
    method Unregister() returns (res: Result<()>)
      modifies this`registered, this`inputTool
      ensures var pre := UnregisterAll(old(registered), PreDependencyClasses);
        pre.0.Err? ==> res == pre.0 && registered == pre.1 && inputTool == old(inputTool)
      ensures var pre := UnregisterAll(old(registered), PreDependencyClasses);
        var main := if dependenciesInstalled then UnregisterAll(pre.1, Reversed(Classes)) else (Ok(()), pre.1);
        pre.0.Ok? ==>
          registered == main.1 &&
          (main.0.Err? ==> res == main.0 && inputTool == old(inputTool)) &&
          (main.0.Ok? ==> !inputTool && res == if old(inputTool) then Ok(()) else Err(AttributeError("input_tool")))
    {
      res := UnregisterClasses(PreDependencyClasses);
      if res.Err? {
        return;
      }
      if dependenciesInstalled {
        res := UnregisterClasses(Reversed(Classes));
        if res.Err? {
          return;
        }
      }
      if !inputTool {
        return Err(AttributeError("input_tool"));
      }
      inputTool := false;
      res := Ok(());
    }
  }

  /** The declared dependencies have pairwise distinct global names, so `register` sets the flag
      exactly when each of them is importable or already bound to a module. */
  lemma RegisterImportsAll(s: ImportState, importable: set<string>)
    ensures ImportAll(s, importable, Dependencies).0.Ok? <==>
      forall j :: 0 <= j < |Dependencies| ==>
        CanImport(s.globals, importable, Dependencies[j].moduleName, GlobalName(Dependencies[j]))
  {
    assert DistinctGlobalNames(Dependencies);
    ImportAllSucceeds(s, importable, Dependencies);
  }

  /** The first session: `register` finds `diffusers` missing and stops with only the
      pre-dependency classes registered; every dependency's global name is then still free or a
      module, so when every pip install exits with status zero the install loop succeeds and the
      main classes register after the pre-dependency ones. */
  lemma FirstRunInstalls(s: ImportState, importable: set<string>, executable: string,
                         environ: map<string, string>, failing: set<seq<string>>)
    requires forall j :: 0 <= j < |Dependencies| ==> CanBind(s.globals, GlobalName(Dependencies[j]))
    requires forall j :: 0 <= j < |Dependencies| ==> InstallRun(executable, environ, Dependencies[j]).argv !in failing
    ensures "diffusers" !in importable && "diffusers" !in s.globals ==>
      ImportAll(s, importable, Dependencies) == (Err(ModuleNotFoundError("diffusers")), s)
    ensures InstallAll(executable, environ, failing, ImportAll(s, importable, Dependencies).1, Dependencies).0.Ok?
    ensures RegisterAll([], PreDependencyClasses) == (Ok(()), PreDependencyClasses)
    ensures RegisterAll(PreDependencyClasses, Classes).0.Ok?
  {
    var imp := ImportAll(s, importable, Dependencies);
    forall j | 0 <= j < |Dependencies| ensures CanBind(imp.1.globals, GlobalName(Dependencies[j])) {
    }
    assert DistinctGlobalNames(Dependencies);
    InstallAllSucceeds(executable, environ, failing, imp.1, Dependencies);
    RegisterFromEmpty();
  }

  /** A first session end to end: Blender holds none of the add-on's classes, no dependency is
      bound or importable, pip is present or bootstraps, and every pip install exits with status
      zero. `register` then returns quietly, and the install operator's `execute` installs all
      three dependencies, registers the main classes and returns FINISHED. */
  method FirstRun(m: Machine, executable: string, devNull: string)
    returns (a: AddOnState, registered: Result<()>, executed: Result<Status>)
    requires PipSetup(executable, devNull, m.environ, m.failing).0.Ok?
    requires forall j :: 0 <= j < |Dependencies| ==>
      InstallRun(executable, PipSetup(executable, devNull, m.environ, m.failing).1, Dependencies[j]).argv !in m.failing
    modifies m
    ensures registered == Ok(()) && executed == Ok(Finished)
    ensures a.registered == PreDependencyClasses + Classes && !a.NeedsInstall() && a.inputTool
    ensures forall j :: 0 <= j < |Dependencies| ==> Dependencies[j].moduleName in a.importable
  {
    a := new AddOnState(map[], [], executable, devNull, {});
    registered := a.Register();
    ghost var p := PipSetup(executable, devNull, m.environ, m.failing);
    FirstRunInstalls(ImportState(map[], []), {}, executable, p.1, m.failing);
    executed := a.Execute(m);
    ProvidedAllWhenInstalled(executable, p.1, m.failing, ImportState(map[], []), Dependencies);
  }
}
