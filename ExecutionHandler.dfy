/** The cross-process bridge `modify_execute_bat(venv_path, operation_function, user_input)`
    (execution_handler.py; helpers.py's `execution_handler` is the same code): it writes the
    command that runs `sd_interface.py` into the virtual environment's `activate.bat`, then runs
    that script on Windows, sources the POSIX activation script on Darwin and Linux, and refuses
    any other platform. `user_input` is a Python dict, modelled by its items in iteration order. */
module ExecutionHandler {
  import opened Py
  import opened Paths
  import opened System
  import opened Lists

  function ActivateBatPath(venvPath: string): string {
    Join(Join(venvPath, "Scripts"), "activate.bat")
  }

  function PythonExePath(venvPath: string): string {
    Join(Join(venvPath, "Scripts"), "python.exe")
  }

  function PosixActivatePath(venvPath: string): string {
    Join(Join(venvPath, "bin"), "activate")
  }

  /** The add-on's interface script: it lies under Blender's `LOCAL` resource directory and
      is named `sd_interface.py`. */
  function SdInterfacePath(blenderLocal: string): (r: string)
    ensures |r| > |blenderLocal| + |"sd_interface.py"|
    ensures r[..|blenderLocal|] == blenderLocal
    ensures r[|r| - |"sd_interface.py"|..] == "sd_interface.py"
  {
    var scripts := Join(blenderLocal, "scripts");
    var addons := Join(scripts, "addons");
    var addon := Join(addons, "Cozy-Auto-Texture");
    var src := Join(addon, "src");
    PrefixOfPrefix(blenderLocal, scripts, addons);
    PrefixOfPrefix(blenderLocal, addons, addon);
    PrefixOfPrefix(blenderLocal, addon, src);
    var r := Join(src, "sd_interface.py");
    PrefixOfPrefix(blenderLocal, src, r);
    r
  }

  /** `pathlib.Path(p).drive` on the running system: a drive letter on Windows, nothing elsewhere. */
  function Drive(system: string, p: string): (r: string)
    ensures system != "Windows" ==> r == ""
    ensures system == "Windows" ==> (r != [] <==> |p| >= 2 && IsAsciiLetter(p[0]) && p[1] == ':')
    ensures r != [] ==> r == p[..2]
  {
    if system == "Windows" then WindowsDrive(p) else ""
  }

  /** The chunk one `user_input` entry contributes: `--name "value" `, the value unescaped. */
  function Chunk(arg: (string, string)): string {
    "--" + arg.0 + " \"" + arg.1 + "\" "
  }

  /** The chunks of all entries, in iteration order. */
  function Chunks(args: seq<(string, string)>): string {
    if args == [] then "" else Chunks(args[..|args| - 1]) + Chunk(args[|args| - 1])
  }

  /** The loop that accumulates `args_string` with `+=`: one space, then one chunk per entry. */
  method ArgsString(userInput: seq<(string, string)>) returns (s: string)
    ensures s == " " + Chunks(userInput)
  {
    s := " ";
    for i := 0 to |userInput|
      invariant s == " " + Chunks(userInput[..i])
    {
      assert userInput[..i + 1][..i] == userInput[..i];
      s := s + Chunk(userInput[i]);
    }
    assert userInput[..|userInput|] == userInput;
  }

  lemma {:induction false} ChunksCons(a: (string, string), rest: seq<(string, string)>)
    ensures Chunks([a] + rest) == Chunk(a) + Chunks(rest)
    decreases |rest|
  {
    if rest != [] {
      var last := |rest| - 1;
      assert ([a] + rest)[..|rest|] == [a] + rest[..last];
      ChunksCons(a, rest[..last]);
    }
  }

  /** The first index of `c` in `s`, or `|s|` when there is none. */
  function FirstIndex(s: string, c: char): (i: nat)
    ensures i <= |s| && c !in s[..i] && (i < |s| ==> s[i] == c)
  {
    if s == [] then 0 else if s[0] == c then 0 else 1 + FirstIndex(s[1..], c)
  }

  lemma FirstIndexAfter(a: string, c: char, b: string)
    requires c !in a
    ensures FirstIndex(a + [c] + b, c) == |a|
  {
    var s := a + [c] + b;
    assert s[|a|] == c && s[..|a|] == a;
    FirstIndexUnique(s, c, |a|);
  }

  lemma FirstIndexUnique(s: string, c: char, i: nat)
    requires i < |s| && s[i] == c && c !in s[..i]
    ensures FirstIndex(s, c) == i
  {
  }

  /** Reads one `--name "value" ` chunk off the front of `t`: a name runs to the first space, a
      value from the opening quote to the next quote. This reader is the inverse of the string
      built here and nothing more: it is not how `cmd.exe` (with its `%VAR%` expansion and `^`
      escapes) or the child's argument parser (which may evaluate a value as a literal) read the
      line, so a round trip through it says what was written, not what the child receives. */
  function ReadChunk(t: string): (r: Option<((string, string), string)>)
    ensures r.Some? ==> |r.value.1| < |t|
  {
    if |t| < 2 || t[..2] != "--" then None
    else
      var rest := t[2..];
      var i := FirstIndex(rest, ' ');
      if i + 1 >= |rest| || rest[i + 1] != '"' then None
      else
        var after := rest[i + 2..];
        var j := FirstIndex(after, '"');
        if j + 1 >= |after| || after[j + 1] != ' ' then None
        else Some(((rest[..i], after[..j]), after[j + 2..]))
  }

  /** Reads chunks until the text is used up. */
  function ReadChunks(t: string): Option<seq<(string, string)>>
    decreases |t|
  {
    if t == [] then Some([])
    else
      match ReadChunk(t)
      case None => None
      case Some(r) =>
        match ReadChunks(r.1)
        case None => None
        case Some(more) => Some([r.0] + more)
  }

  /** Reads a whole `args_string`. */
  function ReadArgs(s: string): Option<seq<(string, string)>> {
    if s != [] && s[0] == ' ' then ReadChunks(s[1..]) else None
  }

  /** Names without spaces and values without double quotes survive the quoting. */
  predicate Quotable(args: seq<(string, string)>) {
    forall k :: 0 <= k < |args| ==> ' ' !in args[k].0 && '"' !in args[k].1
  }

  lemma ReadChunkOf(a: (string, string), tail: string)
    requires ' ' !in a.0 && '"' !in a.1
    ensures ReadChunk(Chunk(a) + tail) == Some((a, tail))
  {
    var t := Chunk(a) + tail;
    var rest := t[2..];
    assert t[..2] == "--";
    assert rest == a.0 + [' '] + ("\"" + a.1 + "\" " + tail);
    FirstIndexAfter(a.0, ' ', "\"" + a.1 + "\" " + tail);
    var i := |a.0|;
    assert rest[..i] == a.0 && rest[i + 1] == '"';
    var after := rest[i + 2..];
    assert after == a.1 + ['"'] + (" " + tail);
    FirstIndexAfter(a.1, '"', " " + tail);
    var j := |a.1|;
    assert after[..j] == a.1 && after[j + 1] == ' ' && after[j + 2..] == tail;
  }

  /** The receiving side gets exactly the entries the caller built, in order, when no name holds
      a space and no value a double quote. */
  lemma {:induction false} ArgsRoundTrip(args: seq<(string, string)>)
    requires Quotable(args)
    ensures ReadArgs(" " + Chunks(args)) == Some(args)
  {
    assert (" " + Chunks(args))[1..] == Chunks(args);
    ChunksRoundTrip(args);
  }

  lemma {:induction false} ChunksRoundTrip(args: seq<(string, string)>)
    requires Quotable(args)
    ensures ReadChunks(Chunks(args)) == Some(args)
    decreases |args|
  {
    if args != [] {
      assert args == [args[0]] + args[1..];
      ChunksCons(args[0], args[1..]);
      ChunksRoundTrip(args[1..]);
      ReadChunkOf(args[0], Chunks(args[1..]));
    }
  }

  /** Values are not escaped: a value holding a double quote is cut at that quote on the
      receiving side. */
  lemma QuoteInValueCutsIt(a: (string, string), tail: string)
    requires ' ' !in a.0 && '"' in a.1
    ensures ReadChunk(Chunk(a) + tail) == None || ReadChunk(Chunk(a) + tail).value.0 != a
  {
    var t := Chunk(a) + tail;
    var rest := t[2..];
    assert t[..2] == "--";
    assert rest == a.0 + [' '] + ("\"" + a.1 + "\" " + tail);
    FirstIndexAfter(a.0, ' ', "\"" + a.1 + "\" " + tail);
    var after := rest[|a.0| + 2..];
    assert after[..|a.1|] == a.1;
    var q :| 0 <= q < |a.1| && a.1[q] == '"';
    assert after[q] == '"';
    assert FirstIndex(after, '"') < |a.1|;
  }

  const Indent := "            "

  /** The two command lines written to the script: the drive of the script's path, then the
      quoted interpreter, the quoted `sd_interface.py`, the operation name and the arguments. */
  function CommandBlock(drive: string, pythonExe: string, sdInterface: string, operation: string, args: string): seq<string> {
    [drive, CommandHead(pythonExe, sdInterface, operation) + args + CommandTail]
  }

  /** The second command up to the arguments: a newline, the indentation of the source line,
      the quoted interpreter, the quoted script and the operation name. */
  function CommandHead(pythonExe: string, sdInterface: string, operation: string): string {
    "\n" + Indent + "\"" + pythonExe + "\" \"" + sdInterface + "\" " + operation
  }

  /** The second command after the arguments: a space, a newline and the indentation. */
  const CommandTail := " \n" + Indent

  function Concat(ss: seq<string>): string {
    if ss == [] then "" else Concat(ss[..|ss| - 1]) + ss[|ss| - 1]
  }

  /** Each command as written: `"\n" + command`. */
  function Prefixed(commands: seq<string>): seq<string> {
    seq(|commands|, k requires 0 <= k < |commands| => "\n" + commands[k])
  }

  /** Iterating a text file: the pieces together make up the text (`LinesAreLines` says they
      are its lines). */
  function Lines(text: string): (r: seq<string>)
    ensures Concat(r) == text
    decreases |text|
  {
    if text == [] then []
    else
      var i := FirstIndex(text, '\n');
      if i == |text| then [text]
      else
        var r := [text[..i + 1]] + Lines(text[i + 1..]);
        ConcatCons(text[..i + 1], Lines(text[i + 1..]));
        assert text[..i + 1] + text[i + 1..] == text;
        r
  }

  /** A line as iteration yields it: non-empty, with no newline before its last character. */
  predicate IsLine(l: string) {
    l != [] && '\n' !in l[..|l| - 1]
  }

  predicate EndsInNewline(l: string) {
    l != [] && l[|l| - 1] == '\n'
  }

  /** The pieces of `Lines` are lines, and all but the last end in the newline that ends them;
      so an empty text has no lines at all. */
  lemma {:induction false} LinesAreLines(text: string)
    decreases |text|
    ensures forall k :: 0 <= k < |Lines(text)| ==> IsLine(Lines(text)[k])
    ensures forall k :: 0 <= k < |Lines(text)| - 1 ==> EndsInNewline(Lines(text)[k])
  {
    if text != [] {
      var i := FirstIndex(text, '\n');
      if i == |text| {
        assert text[..|text|] == text;
      } else {
        var head, rest := text[..i + 1], Lines(text[i + 1..]);
        LinesAreLines(text[i + 1..]);
        var r := Lines(text);
        assert r == [head] + rest;
        assert head[..|head| - 1] == text[..i];
        assert forall k :: 1 <= k < |r| ==> r[k] == rest[k - 1];
      }
    }
  }

  lemma {:induction false} ConcatCons(a: string, rest: seq<string>)
    ensures Concat([a] + rest) == a + Concat(rest)
    decreases |rest|
  {
    if rest != [] {
      assert ([a] + rest)[..|rest|] == [a] + rest[..|rest| - 1];
      ConcatCons(a, rest[..|rest| - 1]);
    }
  }

  /** The two write loops of the rewrite: every line read, as it was, then `"\n" + command` for
      every command, in order. */
  method WriteBat(linesRead: seq<string>, commands: seq<string>) returns (text: string)
    ensures text == Concat(linesRead) + Concat(Prefixed(commands))
  {
    text := "";
    for i := 0 to |linesRead|
      invariant text == Concat(linesRead[..i])
    {
      assert linesRead[..i + 1][..i] == linesRead[..i];
      text := text + linesRead[i];
    }
    assert linesRead[..|linesRead|] == linesRead;
    ghost var copied := text;
    for i := 0 to |commands|
      invariant text == copied + Concat(Prefixed(commands[..i]))
    {
      assert Prefixed(commands[..i + 1])[..i] == Prefixed(commands[..i]);
      text := text + "\n" + commands[i];
    }
    assert commands[..|commands|] == commands;
  }

  const Unsupported := "OS not supported. Cozy Auto Texture only support Darwin, Linux, and Windows operating systems."

  /** The command block the bridge writes for these inputs. */
  function CommandsFor(system: string, venvPath: string, blenderLocal: string, operation: string,
                       userInput: seq<(string, string)>): seq<string> {
    CommandBlock(Drive(system, ActivateBatPath(venvPath)), PythonExePath(venvPath),
                 SdInterfacePath(blenderLocal), operation, " " + Chunks(userInput))
  }

  /** The `with open(bat, "rt") ... with open(bat, "wt")` block. Opening for writing truncates
      the file before the first line is read, so the lines read are those of the empty file and
      the script ends up holding the command block alone. */
  method RewriteBat(m: Machine, bat: string, commands: seq<string>) returns (res: Result<()>)
    modifies m`nodes
    ensures bat !in old(m.nodes) || old(m.nodes)[bat].Dir? ==>
      res == Err(FileNotFoundError(bat)) && m.nodes == old(m.nodes)
    ensures bat in old(m.nodes) && !old(m.nodes)[bat].Dir? ==>
      res == Ok(()) && m.nodes == old(m.nodes)[bat := Text(Concat(Prefixed(commands)))]
  {
    if bat !in m.nodes || m.nodes[bat].Dir? {
      return Err(FileNotFoundError(bat));
    }
    m.Write(bat, Text(""));
    var linesRead := Lines(m.nodes[bat].text);
    assert linesRead == [];
    var text := WriteBat(linesRead, commands);
    assert text == Concat(Prefixed(commands));
    m.Write(bat, Text(text));
    res := Ok(());
  }

  predicate IsPosix(system: string) {
    system == "Darwin" || system == "Linux"
  }

  /** Running the environment: the script itself on Windows (its exit status is not checked),
      `source <venv>/bin/activate` with `check=True` on Darwin and Linux, and `OSError` elsewhere. */
  method Activate(m: Machine, venvPath: string, system: string) returns (res: Result<()>)
    modifies m`runs
    ensures system == "Windows" ==>
      m.runs == old(m.runs) + [Run([ActivateBatPath(venvPath)], Inherited, false)] && res == Ok(())
    ensures IsPosix(system) ==>
      var argv := ["source", PosixActivatePath(venvPath)];
      m.runs == old(m.runs) + [Run(argv, Inherited, true)] &&
      res == if argv in m.failing then Err(CalledProcessError(argv)) else Ok(())
    ensures system != "Windows" && !IsPosix(system) ==>
      m.runs == old(m.runs) && res == Err(OSError(Unsupported))
  {
    if system == "Windows" {
      var _ := m.RunProcess([ActivateBatPath(venvPath)], Inherited, false);
      res := Ok(());
    } else if system in ["Darwin", "Linux"] {
      var argv := ["source", PosixActivatePath(venvPath)];
      var ok := m.RunProcess(argv, Inherited, true);
      res := if ok then Ok(()) else Err(CalledProcessError(argv));
    } else {
      res := Err(OSError(Unsupported));
    }
  }

  lemma CommandsForArgs(system: string, venvPath: string, blenderLocal: string, operation: string,
                        userInput: seq<(string, string)>, args: string)
    requires args == " " + Chunks(userInput)
    ensures CommandBlock(Drive(system, ActivateBatPath(venvPath)), PythonExePath(venvPath),
                         SdInterfacePath(blenderLocal), operation, args)
            == CommandsFor(system, venvPath, blenderLocal, operation, userInput)
  {
  }

  /** `modify_execute_bat`. `system` is `platform.system()` and `blenderLocal` is
      `bpy.utils.resource_path("LOCAL")`. The script is rewritten before the platform is looked
      at, so an unsupported platform still finds it rewritten. */
  method ModifyExecuteBat(m: Machine, venvPath: string, operation: string, userInput: seq<(string, string)>,
                          blenderLocal: string, system: string) returns (res: Result<()>)
    modifies m`nodes, m`runs
    ensures var bat := ActivateBatPath(venvPath);
      bat !in old(m.nodes) || old(m.nodes)[bat].Dir? ==>
        res == Err(FileNotFoundError(bat)) && m.nodes == old(m.nodes) && m.runs == old(m.runs)
    ensures var bat := ActivateBatPath(venvPath);
      bat in old(m.nodes) && !old(m.nodes)[bat].Dir? ==>
        m.nodes == old(m.nodes)[bat := Text(Concat(Prefixed(CommandsFor(system, venvPath, blenderLocal, operation, userInput))))]
    ensures var bat := ActivateBatPath(venvPath);
      bat in old(m.nodes) && !old(m.nodes)[bat].Dir? && system == "Windows" ==>
        m.runs == old(m.runs) + [Run([bat], Inherited, false)] && res == Ok(())
    ensures var bat := ActivateBatPath(venvPath);
      bat in old(m.nodes) && !old(m.nodes)[bat].Dir? && IsPosix(system) ==>
        var argv := ["source", PosixActivatePath(venvPath)];
        m.runs == old(m.runs) + [Run(argv, Inherited, true)] &&
        res == if argv in m.failing then Err(CalledProcessError(argv)) else Ok(())
    ensures var bat := ActivateBatPath(venvPath);
      bat in old(m.nodes) && !old(m.nodes)[bat].Dir? && system != "Windows" && !IsPosix(system) ==>
        m.runs == old(m.runs) && res == Err(OSError(Unsupported))
  {
    var activateBat := ActivateBatPath(venvPath);
    var pythonExe := PythonExePath(venvPath);
    var drive := Drive(system, activateBat);
    var sdInterface := SdInterfacePath(blenderLocal);
    var args := ArgsString(userInput);
    var commands := CommandBlock(drive, pythonExe, sdInterface, operation, args);
    CommandsForArgs(system, venvPath, blenderLocal, operation, userInput, args);
    res := RewriteBat(m, activateBat, commands);
    if res.Err? {
      return;
    }
    res := Activate(m, venvPath, system);
  }

  /** What the script held before the rewrite is gone afterwards: the new text starts with the
      newline of the first written command. */
  lemma RewriteLosesPreamble(preamble: string, commands: seq<string>)
    requires commands != [] && preamble != [] && preamble[0] != '\n'
    ensures !(preamble <= Concat(Prefixed(commands)))
  {
    ConcatCons(Prefixed(commands)[0], Prefixed(commands)[1..]);
    assert Prefixed(commands) == [Prefixed(commands)[0]] + Prefixed(commands)[1..];
  }

  /** `head + mid + tail` gives `mid` back between the two. */
  lemma Middle(head: string, mid: string, tail: string)
    ensures var w := head + mid + tail;
      |w| == |head| + |mid| + |tail| && w[..|head|] == head && w[|w| - |tail|..] == tail &&
      w[|head|..|w| - |tail|] == mid
  {
  }

  /** The written command carries the arguments: after the quoted interpreter, the quoted
      script and the operation name comes the args string, which reads back to `userInput`. */
  lemma CommandCarriesArgs(system: string, venvPath: string, blenderLocal: string, operation: string,
                           userInput: seq<(string, string)>)
    requires Quotable(userInput)
    ensures var cmds := CommandsFor(system, venvPath, blenderLocal, operation, userInput);
      var head := CommandHead(PythonExePath(venvPath), SdInterfacePath(blenderLocal), operation);
      && |cmds| == 2 && cmds[0] == Drive(system, ActivateBatPath(venvPath))
      && |cmds[1]| >= |head| + |CommandTail|
      && cmds[1][..|head|] == head
      && cmds[1][|cmds[1]| - |CommandTail|..] == CommandTail
      && ReadArgs(cmds[1][|head|..|cmds[1]| - |CommandTail|]) == Some(userInput)
  {
    var head := CommandHead(PythonExePath(venvPath), SdInterfacePath(blenderLocal), operation);
    Middle(head, " " + Chunks(userInput), CommandTail);
    ArgsRoundTrip(userInput);
  }
}
