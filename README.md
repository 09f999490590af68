# Cozy Auto Texture — a Dafny model of its core

Cozy Auto Texture is a Blender add-on. It turns a text prompt into an image texture with Stable Diffusion, which runs in a separate virtual environment. This project models the deterministic machinery around that bridge:

- **Collision-free output naming.** `uniquify` appends ` (n)` before the extension until the path is free. The three identical copies in `src/helpers.py`, `src/sd_interface.py` and `src/main.py` are modelled once, in module `Naming`.
- **The cross-process bridge.** `modify_execute_bat` (module `ExecutionHandler`) builds the `--name "value"` argument string and the two-line command block, rewrites `activate.bat`, then dispatches on the platform. The duplicate `execution_handler` in `src/helpers.py` is the same code.
- **Dependency installation.** In `src/helpers.py` (module `Helpers`): the pip argument vectors, the `make_global` marker removed in place, the environment copy with `PYTHONNOUSERSITE=1`, and the fail-fast loop.
- **The add-on lifecycle.** In `__init__.py` (module `AddOn`): importing into the module's globals, bootstrapping pip, the install operator's `execute`, `register`/`unregister`, and the `dependencies_installed` flag behind both `poll`s.
- **Two guards.** The drive-space check, and the skip-if-present fetch of the model weights (module `SdInterface`).

Supporting modules:

- `Py` holds the Python values passed around (`None`, the exceptions raised, and a call's outcome).
- `Paths` holds the Windows flavour of `os.path`:
  - `splitext` and `join` with both slashes as separators;
  - `pathlib`'s drive;
  - `str` of a counter.
- `Lists` holds `list.remove` and `reversed`.
- `System` holds the machine state:
  - files, as a map from path to node;
  - `os.environ`;
  - the log of `subprocess.run` calls;
  - downloads.

Whether a subprocess exits non-zero is an oracle fixed per machine (`Machine.failing`). Whether a module can be imported is the set `AddOnState.importable`, which grows by a dependency's module whenever its `pip install` exits with status zero. Classes whose fields the source updates in place are Dafny classes: the machine, the helpers state and the add-on state. Their loops are methods proved against recursive specification functions, and the properties are lemmas about those functions.

Three behaviours of the code that a caller may not expect:

- `check_drive_space` is strict. Exactly `env_size + buffer` free bytes is refused.
- The bat rewrite opens the file for writing (which truncates it) before reading it. The rewritten script therefore holds only the command block, and what it held before is lost (`ExecutionHandler.RewriteLosesPreamble`).
- Argument values are inserted unescaped. A value holding a double quote does not read back (`ExecutionHandler.QuoteInValueCutsIt`).

## Model

| member | source | states |
|---|---|---|
| Paths.SplitExt | src/helpers.py:259 | `splitext` splits the path into root and extension that concatenate back to it; the extension is empty or a dot followed by characters that are neither dots nor separators |
| Paths.SplitExtInsert | src/helpers.py:259-263 | a tag without dots or separators placed between root and extension leaves the extension as it was and becomes the end of the root |
| Paths.SplitExtAppendExt | src/sd_interface.py:61 | appending a non-empty well-formed extension to a path whose last component has a non-dot character makes exactly that the extension |
| Paths.DecimalString | src/helpers.py:263 | `str(counter)` is a non-empty string of decimal digits, at least two of them from 10 upwards |
| Paths.DecimalRoundTrip | src/helpers.py:263 | reading the decimal string of a counter gives the counter back |
| Paths.DecimalStringInjective | src/helpers.py:263 | different counters have different decimal strings |
| Paths.WindowsDrive | src/execution_handler.py:22 | a path has a drive exactly when it starts with an ASCII letter and a colon, and the drive is then those two characters |
| Paths.Join | src/execution_handler.py:20-21 | `os.path.join` keeps the first part as prefix and the second as suffix, with one backslash between them unless the first part is empty, a bare `ntpath` drive (any character and a colon, such as `C:` or `1:`), or already ends in a separator |
| Paths.NtDrive | src/execution_handler.py:20-21 | the drive `ntpath` splits off is present exactly when the second character is a colon, and is then the first two characters |
| Paths.JoinBareDrive | src/execution_handler.py:20-21 | joining onto a bare drive, letter or not, adds no separator |
| Lists.RemoveFirst | src/helpers.py:130-131 | `list.remove` drops exactly one occurrence: one element fewer, the same multiset minus that value |
| Lists.RemoveFirstAt | src/helpers.py:130-131 | when the marker does not occur earlier, `list.remove` removes exactly that occurrence and keeps the rest in order |
| Lists.Reversed | __init__.py:437 | `reversed(classes)` has the same length and holds element `n-1-i` at position `i` |
| System.NoUserSiteEnv | src/helpers.py:147-148 | the environment copy has the keys of `os.environ` plus `PYTHONNOUSERSITE`, that key is `"1"`, and every other variable keeps its value |
| Naming.Tag | src/helpers.py:263 | the tag ` (n)` holds no dot and no separator, so it never changes where the extension starts |
| Naming.TagInjective | src/helpers.py:263 | equal tags come from equal counters |
| Naming.AttemptsDistinct | src/sd_interface.py:17-22 | different rounds of the loop try different paths |
| Naming.AttemptsFit | src/main.py:28-30 | when the first `n+1` attempts all exist, the file system holds at least `n+1` paths, which bounds the loop |
| Naming.Uniquify | src/helpers.py:252-266 | the result does not exist; it is the attempt after exactly `rounds` rounds, where every earlier attempt exists: the first absent candidate over counters 1, 2, … built from the original root and extension (the copies at src/sd_interface.py:10-24 and src/main.py:24-32 are the same code) |
| Naming.AbsentPathUnchanged | src/sd_interface.py:20-24 | a path that does not exist comes back unchanged after zero rounds |
| Naming.FirstFreeUnique | src/main.py:28-32 | the number of rounds is determined by the file system and the path |
| Naming.RoundsBounded | src/helpers.py:262-264 | the loop runs at most as many rounds as there are paths |
| Naming.CandidateSplits | src/main.py:25-29 | suffixes do not stack: every candidate splits into the original root plus one tag, and the original extension |
| Naming.NextCallUsesLaterCounter | src/sd_interface.py:61-62 | after the returned path is saved, asking again for the same path gives a later counter, and every counter in between was already taken |
| ExecutionHandler.ArgsString | src/execution_handler.py:34-36 | the accumulated string is one space followed by one `--name "value" ` chunk per entry, in iteration order |
| ExecutionHandler.ChunksCons | src/execution_handler.py:35-36 | the chunks of a list are the first entry's chunk followed by the chunks of the rest |
| ExecutionHandler.ReadChunkOf | src/execution_handler.py:35-36 | one `--name "value" ` chunk, followed by anything, reads back to its entry and leaves exactly what followed, when the name has no space and the value no double quote |
| ExecutionHandler.ArgsRoundTrip | src/execution_handler.py:34-36 | when no name holds a space and no value a double quote, the args string reads back to exactly the entries, in order |
| ExecutionHandler.ChunksRoundTrip | src/execution_handler.py:35-36 | the chunks alone read back to the entries under the same condition |
| ExecutionHandler.QuoteInValueCutsIt | src/execution_handler.py:36 | values are not escaped: a value holding a double quote does not read back as itself |
| ExecutionHandler.SdInterfacePath | src/execution_handler.py:24-31 | the interface script lies under Blender's `LOCAL` directory and its path ends in `sd_interface.py` |
| ExecutionHandler.Drive | src/execution_handler.py:22 | the drive is empty on every system but Windows; on Windows it is present exactly for a letter-colon path and is then its first two characters |
| ExecutionHandler.CommandCarriesArgs | src/execution_handler.py:38-43 | the first command is the drive of the bat path; the second is the quoted interpreter, quoted script and operation, then the args string, which reads back to the entries |
| ExecutionHandler.Lines | src/execution_handler.py:48 | iterating a text file yields lines whose concatenation is the file's text |
| ExecutionHandler.LinesAreLines | src/execution_handler.py:48 | every line is non-empty with no newline before its last character, and every line but the last ends in a newline |
| ExecutionHandler.WriteBat | src/execution_handler.py:48-52 | the written text is every line read, in order, followed by `"\n" + command` for each command |
| ExecutionHandler.RewriteBat | src/execution_handler.py:46-52 | a missing script (or a directory at its path) raises `FileNotFoundError` and changes nothing; for any file there, the script afterwards holds exactly the prefixed command block (the text is taken to be encodable, see Left out) |
| ExecutionHandler.RewriteLosesPreamble | src/execution_handler.py:46-47 | whatever the script held before (not starting with a newline) is not a prefix of the rewritten text |
| ExecutionHandler.Activate | src/execution_handler.py:55-62 | Windows runs the script unchecked; Darwin and Linux run `["source", venv/bin/activate]` with `check=True`; any other platform raises `OSError` with the source's message and runs nothing |
| ExecutionHandler.ModifyExecuteBat | src/execution_handler.py:18-62 | the rewrite happens first (so an unsupported platform still finds the script rewritten); the bat content and the one run per platform are stated exactly; only the files and the run log may change; the text is taken to be encodable, as for `RewriteBat` (the duplicate `execution_handler` at src/helpers.py:179-232 is the same code) |
| Helpers.CheckDriveSpace | src/helpers.py:237-249 | the check passes exactly when what remains after the environment is more than the buffer, so a pass always leaves room for the environment |
| Helpers.DriveSpaceThreshold | src/helpers.py:237-249 | with 7 GB plus a 1 GB buffer, the check passes exactly from 8 000 000 001 free bytes; exactly 8 GB is refused |
| Helpers.DriveSpaceMonotone | src/helpers.py:246 | more free space never turns a pass into a refusal |
| Helpers.StripMarkerRemovesOne | src/helpers.py:130-132 | exactly one `make_global` is removed when present (multiset minus one, length minus one), and the list is unchanged otherwise |
| Helpers.StripMarkerInOrder | src/helpers.py:130-131 | the extra parameters keep their order: only the first `make_global` is cut out, and nothing changes without one |
| Helpers.PipArgvs | src/helpers.py:152-168 | both pip calls run the environment's `Scripts\python` as `-m pip install`; the install call names the requirement then exactly the stripped extra parameters (`StripMarker`); the upgrade call adds only `--upgrade` and the requirement |
| Helpers.StepRunsShape | src/helpers.py:147-171 | the install call always runs with the inherited environment; the upgrade call runs exactly when the install exited with status zero, with `PYTHONNOUSERSITE` "1" and every other variable kept; both use `check=True` |
| Helpers.GetAttr | src/helpers.py:119-126 | attribute lookup on the `namedtuple` record finds a field exactly for `module`, `name` and `extra_params`, at its position; it raises `AttributeError` exactly for a name that is no field, no tuple member and no dunder name |
| Helpers.MisreadNamesMissing | src/helpers.py:125-126 | `module_name` and `global_name`, the names the loop reads, raise `AttributeError` on the record |
| Helpers.FailFast | src/helpers.py:124-171 | the loop's shape: at most every step is reached, all of them on success, and a failure is the failure of the last step reached |
| Helpers.FailFastSucceeds | src/helpers.py:124-171 | the loop succeeds exactly when every step succeeds |
| Helpers.FailFastStable | src/helpers.py:163-171 | once a prefix of the steps has raised, the steps after it change nothing |
| Helpers.FailFastStopsAt | src/helpers.py:163-171 | when step `k` is the first to raise, the loop ends with it: the calls of the steps before it plus its own, its error, `k + 1` steps reached |
| Helpers.FailFastPairs | src/helpers.py:152-171 | on success, when every step makes two calls, calls `2j` and `2j + 1` are those of step `j` |
| Helpers.InstallAll | src/helpers.py:124-171 | at most every dependency is reached, and all of them on success |
| Helpers.InstallAllFailsWith | src/helpers.py:163-171 | a failed installation reports the error of the install or upgrade call of the last dependency reached |
| Helpers.InstallAllSucceeds | src/helpers.py:163-171 | installation succeeds exactly when every dependency's install and upgrade calls exit with status zero |
| Helpers.InstallAllStopsAtFirstFailure | src/helpers.py:124-171 | when dependency `k` is the first to fail, the calls are those of the dependencies before it plus its own, and no later one is reached |
| Helpers.InstallAllRunsInOrder | src/helpers.py:152-171 | on success the calls alternate install (extra params appended, inherited env) and upgrade (no extras, `PYTHONNOUSERSITE` env), in table order |
| Helpers.StripFirstAt | src/helpers.py:130-131 | the table after the first `n` dependencies were reached: those have their marker stripped, the rest are untouched |
| Helpers.Installer.constructor | src/helpers.py:30-36 | the table starts as `dependence_dict` in insertion order and the flag global is unbound |
| Helpers.Installer.AreDependenciesInstalled | src/helpers.py:48-50 | returns the flag, or raises `NameError` while it was never set |
| Helpers.Installer.SetDependenciesInstalled | src/helpers.py:53-55 | afterwards the flag holds the value given, so the next read returns it |
| Helpers.Installer.InstallAndImportModuleAsWritten | src/helpers.py:119-126 | as written: with a non-empty table the first iteration raises `AttributeError("module_name")`; no pip call is made |
| Helpers.Installer.InstallDependency | src/helpers.py:125-171 | one iteration: `make_global` reports the marker, the table's own list loses its first marker, and the install and upgrade calls are made as `StepRuns` states |
| Helpers.Installer.InstallNext | src/helpers.py:124-171 | one more iteration of the corrected loop keeps the recorded calls and outcome equal to those of `InstallAll` over the dependencies reached so far |
| Helpers.Installer.InstallDependencies | src/helpers.py:99-174 | corrected loop: the calls and the outcome are those of `InstallAll`, and exactly the dependencies reached have their marker stripped |
| SdInterface.ImportStableDiffusion | src/sd_interface.py:29-39 | for a URL `CloudPath` accepts (see Left out): afterwards the path exists; when it already existed nothing changes (so a second call is a no-op), otherwise the directory is created and then one download goes into it |
| SdInterface.Text2Img | src/sd_interface.py:41-64 | the path chosen is the first free variant of `join(save_path, texture_name) + texture_format`, which did not exist before; when the lower-cased extension of that path is one the image library can save, the image is written there and the path is returned, otherwise `image.save` raises (`UnknownFileExtension`, PIL's `ValueError`) and no file is written |
| SdInterface.SaveFormatOfRequest | src/sd_interface.py:61-62 | every variant `uniquify` may pick keeps the requested extension, so whether `image.save` accepts the format depends on the request alone, not on which names are taken |
| SdInterface.FormatIsKeptAsExtension | src/sd_interface.py:61 | a format such as `.png` stays the extension, so the counter goes between the texture name and the format |
| MainScript.Text2Img | src/main.py:21-36 | the image is written at the first free variant of the fixed image path, which did not exist before |
| MainScript.ImagePathExtension | src/main.py:17-21 | the fixed path's extension is `.png` even though the prompt ends in a dot; counters go between `boat.` and `.png` |
| AddOn.ImportOne | __init__.py:91-108 | importing succeeds exactly when the name is bound to a module or is unbound and importable; existing bindings are never rebound, only the one name is added, and a failure changes nothing; a fresh name is bound to the module itself with no reload, a bound module is reloaded once, and the error is `TypeError` for a bound non-module and `ModuleNotFoundError` otherwise (a module that is found but fails while loading is not modelled, see Left out) |
| AddOn.AddOnState.ImportModule | __init__.py:91-108 | the global name defaults to the module name; the globals and reload log change as `ImportOne` states |
| AddOn.GlobalName | __init__.py:100-101 | the global name is the dependency's `name`, or the module name when that is `None` |
| AddOn.PackageName | __init__.py:143-144 | the package is the dependency's `package`, or the module name when that is `None` |
| AddOn.InstallRunShape | __init__.py:157-160 | the pip call is `sys.executable -m pip install <package>` with `check=True` and an environment copy where `PYTHONNOUSERSITE` is "1" and every other variable is kept |
| AddOn.InstallOneOutcome | __init__.py:157-163 | one dependency succeeds exactly when pip succeeds and its global name is free or bound to a module (the installed package provides the module); a failed pip call raises `CalledProcessError` and leaves the globals alone; after a successful pip call only a name bound to a non-module fails, with `TypeError`; no binding is replaced |
| AddOn.ImportAll | __init__.py:416-419 | the import loop never rebinds or removes a global that existed before, and every global it adds is bound to a module |
| AddOn.ImportAllSucceeds | __init__.py:416-419 | with distinct global names, every import succeeds exactly when each dependency could be imported on the initial globals |
| AddOn.RegisterImportsAll | __init__.py:56-61 | the declared dependencies have distinct names, so `register` gets past its imports exactly when each is importable or bound to a module |
| AddOn.AddOnState.ImportDependencies | __init__.py:417-418 | the loop's outcome and new globals are those of `ImportAll` over the declared dependencies |
| AddOn.AddOnState.InstallPip | __init__.py:111-129 | the result, the environment afterwards and the calls made are those of `PipSetup`: the `pip --version` probe, and only when it fails the bootstrap run, with pip's configuration stripped from the environment first and `PIP_REQ_TRACKER` dropped after a successful bootstrap |
| AddOn.PipSetupOutcome | __init__.py:111-129 | a working pip leaves the environment alone after one probe; otherwise the probe and the bootstrap run follow in order, `CalledProcessError` is raised exactly when the bootstrap run fails, every `PIP_*` variable (`PIP_REQ_TRACKER` included) is gone except `PIP_CONFIG_FILE`, which names the null device, and every other variable keeps its value |
| AddOn.PipDisabled | __init__.py:126-128 | the environment `ensurepip.bootstrap()` leaves: `PIP_CONFIG_FILE` is the null device, no other `PIP_*` variable remains, and every other variable keeps its value |
| AddOn.AddOnState.InstallAndImportModule | __init__.py:132-163 | the package defaults to the module name; `sys.executable -m pip install <package>` runs with the `PYTHONNOUSERSITE` copy; the import happens only if it succeeded, and then the module has become importable |
| AddOn.InstallAllRunsInOrder | __init__.py:318-323 | the pip calls are those of the first dependencies, one each in declared order, all of them on success and at least one otherwise |
| AddOn.InstallAllSucceeds | __init__.py:318-326 | installation succeeds exactly when every pip call succeeds and every dependency's global name is free or bound to a module |
| AddOn.InstallAllStopsAtFirstFailure | __init__.py:318-326 | when dependency `k` is the first whose pip call or import fails, the loop raises that dependency's error with exactly `k + 1` pip calls, those of the dependencies before it plus its own, and the globals those before it left |
| AddOn.InstallOneUnaffected | __init__.py:318-323 | with distinct global names, installing one dependency does not change whether another's name can take its module or whether installing it succeeds |
| AddOn.AddOnState.InstallDependencies | __init__.py:320-323 | the calls, outcome and new globals are those of `InstallAll`, and the modules that became importable are those of `ProvidedAll` |
| AddOn.ProvidedAllExactly | __init__.py:160-163 | a module becomes importable exactly when a dependency the loop reaches names it and that dependency's pip call exits with status zero |
| AddOn.ProvidedAllWhenInstalled | __init__.py:318-323 | when the loop installs everything, every dependency's module has become importable |
| AddOn.AddOnState.Execute | __init__.py:316-344 | the environment is the one `PipSetup` leaves; a failing pip bootstrap gives CANCELLED with nothing else changed and no pip install run; then a `CalledProcessError` or `ImportError` from the loop gives CANCELLED with the flag, registry and `input_tool` untouched; other exceptions propagate; on success the flag is set (so `NeedsInstall`, both polls, turns false), the main classes are registered in order and `input_tool` is set |
| AddOn.AddOnState.InstallAndFinish | __init__.py:318-344 | once pip is present: the calls, globals and newly importable modules of the loop, then CANCELLED for its `CalledProcessError` or `ImportError` with the flag, registry and `input_tool` untouched, or the end of `execute` |
| AddOn.FirstRunInstalls | __init__.py:316-344 | in a first session `register` stops at `ModuleNotFoundError("diffusers")` with its globals untouched and only the pre-dependency classes registered; when every pip install then exits with status zero, the install loop succeeds and the main classes register |
| AddOn.FirstRun | __init__.py:409-424 | end to end from an empty registry and no importable dependency: `register` returns quietly, then `execute`, with pip present or bootstrapped and every pip install succeeding, returns FINISHED with both class tuples registered, the flag set, `input_tool` set and all three modules importable |
| AddOn.AddOnState.FinishInstall | __init__.py:335-344 | once every dependency is installed: the flag is set (so `NeedsInstall` turns false), the main classes are registered in order, and `input_tool` is set only when that registration succeeds |
| AddOn.RegisterAll | __init__.py:339-340 | registering a tuple either succeeds and appends it in order, or raises `ValueError` |
| AddOn.RegisterAllSucceeds | __init__.py:413-414 | registering succeeds exactly when the classes are distinct and none is registered yet |
| AddOn.UnregisterAll | __init__.py:433-434 | unregistering either succeeds or raises `RuntimeError` |
| AddOn.UnregisterLeading | __init__.py:433-434 | unregistering the leading block of the registry in order removes exactly that block |
| AddOn.UnregisterLeadingStep | __init__.py:433-434 | the first class of a leading block is registered, and unregistering it leaves the rest of the block leading |
| AddOn.UnregisterReversed | __init__.py:436-438 | unregistering the last-registered block in reverse order removes exactly that block |
| AddOn.AddOnState.RegisterClasses | __init__.py:413-414 | the registry and outcome are those of `RegisterAll` |
| AddOn.AddOnState.UnregisterClasses | __init__.py:433-434 | the registry and outcome are those of `UnregisterAll` |
| AddOn.AddOnState.constructor | __init__.py:63 | loading the module leaves `dependencies_installed` False |
| AddOn.AddOnState.ImportThenRegister | __init__.py:416-429 | after the pre-dependency classes: the imports of `ImportAll`; a `ModuleNotFoundError` returns quietly with the flag clear and the registry untouched, another exception propagates; otherwise the flag is set and the main classes registered, then `input_tool` |
| AddOn.AddOnState.Register | __init__.py:409-429 | for imports that either succeed or find no module (see Left out): the flag is reset; a failing pre-dependency registration, a `ModuleNotFoundError` (swallowed) or another exception (propagated) leaves it False (`NeedsInstall` holds, so both polls show) with the main classes unregistered; only when every import succeeds is it set and the main classes registered, then `input_tool` |
| AddOn.RegisterFromEmpty | __init__.py:409-429 | starting from an empty registry, a successful `register` registers the pre-dependency classes and then the main classes, in order |
| AddOn.UnregisterPreDependencyAfterRegister | __init__.py:432-434 | the following `unregister` removes the pre-dependency classes and leaves the main classes |
| AddOn.UnregisterMainAfterRegister | __init__.py:436-438 | the main classes, unregistered in reverse, leave the registry empty again |
| AddOn.AddOnState.Unregister | __init__.py:432-440 | pre-dependency classes are unregistered first, the main classes in reverse only when the flag is set; deleting an unset `input_tool` raises `AttributeError` |

## Left out

- Paths.Join: `os.path.join` is modelled for relative second components joined with a backslash, including after a bare `ntpath` drive such as `C:` or `1:`. A rooted or drive-bearing second component (which discards the first), UNC prefixes and the forward slash of `posixpath` on Darwin and Linux are not modelled.
- Paths.WindowsDrive: UNC drives (`\\server\share`) are not modelled; only a letter followed by a colon.
- ExecutionHandler.RewriteBat: text-mode newline translation is not modelled. A directory at the script's path is reported as the same error as a missing file. The text is assumed encodable in the locale's code page: a prompt, name or path it cannot encode (such as `猫` under cp1252) raises `UnicodeEncodeError` after the file was truncated and before anything is run, which the model does not capture.
- ExecutionHandler.ModifyExecuteBat: inherits the encodability assumption of `RewriteBat`; in the encoding-failure case the real code leaves an emptied script and runs nothing.
- ExecutionHandler.Activate: whether a `source` executable can be started is part of the oracle. Without a shell, such a call raises at start-up rather than with a non-zero exit.
- SdInterface.ImportStableDiffusion: `CloudPath.download_to` is a recorded download, not its contents.
- SdInterface.ImportStableDiffusion: the URL is assumed accepted by `CloudPath`, which is built before the existence test; a URL it rejects raises even when `sd_path` already exists, and the weights URL at `src/helpers.py:15` is an `https://` URL rather than an `s3://` one.
- SdInterface.ImportStableDiffusion: the file map has no parent-child structure, so the missing ancestor directories that `os.makedirs` also creates are not modelled; only `sd_path` itself is added.
- Helpers.GetAttr: every `__name__`-shaped attribute is treated as present, as `object` and `tuple` provide most of them; which dunder names a `namedtuple` really lacks is not modelled.
- SdInterface.Text2Img: the diffusion pipeline (`model_path`, `device`, prompt) is opaque floating-point GPU work. Only the path the image is saved to is modelled. The extensions the image library can save are a parameter (`savable`), since they depend on its installed plugins; the extension is lower-cased in ASCII only, and a registered extension without a save handler, or an I/O error while writing, is not modelled.
- MainScript.Text2Img: the same pipeline and its hard-coded model path and device are left out.
- AddOn.AddOnState.InstallPip: `ensurepip.bootstrap` is foreign code. Its environment change (every `PIP_*` variable deleted, `PIP_CONFIG_FILE` set to the null device) and its one checked subprocess, which can fail with `CalledProcessError`, are modelled. The program text that subprocess runs (`EnsurepipProgram`), its temporary wheel directory and the `-I` flag of an isolated interpreter are not. The null device (`os.devnull`) is a parameter of the state.
- AddOn.InstallOne: a `pip install` that exits with status zero is taken to provide the dependency's module under its module name, as it does for `diffusers`, `gdown` and `torch`. A package that installs but provides no such module, and a stale import-system cache, are not modelled.
- AddOn.AddOnState.ImportModule: a reload is a recorded event. Re-executing the module is not modelled, and the unused `reload` parameter has no effect.
- AddOn.ImportOne: an import either succeeds or finds no module (`ModuleNotFoundError`); a module that is found but fails while loading (an `ImportError` or `OSError` from a broken native library) is not modelled.
- AddOn.AddOnState.Register: because of that, its `except ModuleNotFoundError` swallows every modelled import failure; in the code a load failure of a found module propagates out of `register` with the pre-dependency classes still registered. `execute`'s `except (CalledProcessError, ImportError)` would catch it.
- The Blender UI (`bl_info`, the property group, panels and their `draw`, preferences, `CreateTextures.execute`) is UI glue around opaque Blender calls. Classes are identities in the registry.
- `import_stable_diffusion` in `__init__.py` (a gdown download that first deletes the folder) is a foreign network download and is never called.
- `src/async_loop.py` is an asyncio and Blender-timer driver, which is cooperative concurrency.
- `src/Remove_dependencies_for_test.py` is a developer script that only uninstalls packages.
- `import_module` and `install_pip` in `src/helpers.py` are the same code as in `__init__.py` and are modelled once, in `AddOn`.
- The module-level paths of `src/helpers.py` (home drive, environment folder, weights URL) are inputs (`venvPath`, `sdPath`, `sdUrl`).
- The float literals `7e+9` and `1e+9` are exact whole numbers, modelled as `nat` byte counts.
- Real file-system, subprocess, pip and import effects are replaced by the machine state and its oracles.

## Findings

| source | as written | input that shows it | evidently intended | confidence | as-written member | corrected member |
|---|---|---|---|---|---|---|
| src/helpers.py:125-126 | the loop reads `dependency.module_name` and `dependency.global_name`, but the record built at line 119 has only the fields `module`, `name` and `extra_params` | the shipped five-entry `dependence_dict`: the first iteration raises `AttributeError` before any pip call, so nothing is ever installed | read `dependency.module` and `dependency.name`, then install and upgrade each dependency in order | high; not executed | Helpers.Installer.InstallAndImportModuleAsWritten | Helpers.Installer.InstallDependencies |
