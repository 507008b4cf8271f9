/**
 * The eSpeak phoneme audio generator (scripts/generate-phonemes-espeak.js):
 * for each entry of a fixed file-to-phoneme table it builds an eSpeak
 * command, skipping files that already exist unless forced, and tallies
 * how many files were generated, skipped or failed.
 *
 * The file system and the shell are parameters: the set of existing files,
 * whether each eSpeak installation answers, and what running a command
 * does (whether it throws and whether the output file exists afterwards).
 */
module EspeakGenerator {
  import opened Wrappers
  import opened Text

  /** The number of entries of `ARPABET_TO_ESPEAK`. */
  const EspeakTableSize: nat := 39

  /**
   * Entry `i` of `ARPABET_TO_ESPEAK`, in the table's order: an audio file
   * name and the eSpeak phoneme it is generated from.
   */
  function EspeakEntry(i: nat): (string, string)
    requires i < EspeakTableSize
  {
    match i
    case 0 => ("b.wav", "b")
    case 1 => ("ch.wav", "tS")
    case 2 => ("d.wav", "d")
    case 3 => ("dh.wav", "D")
    case 4 => ("f.wav", "f")
    case 5 => ("g.wav", "g")
    case 6 => ("h.wav", "h")
    case 7 => ("j.wav", "dZ")
    case 8 => ("k.wav", "k")
    case 9 => ("l.wav", "l")
    case 10 => ("m.wav", "m")
    case 11 => ("n.wav", "n")
    case 12 => ("ng.wav", "N")
    case 13 => ("p.wav", "p")
    case 14 => ("r.wav", "r\\")
    case 15 => ("s.wav", "s")
    case 16 => ("sh.wav", "S")
    case 17 => ("t.wav", "t")
    case 18 => ("th.wav", "T")
    case 19 => ("v.wav", "v")
    case 20 => ("w.wav", "w")
    case 21 => ("y.wav", "j")
    case 22 => ("z.wav", "z")
    case 23 => ("zh.wav", "Z")
    case 24 => ("ih.wav", "I")
    case 25 => ("eh.wav", "E")
    case 26 => ("ae.wav", "{")
    case 27 => ("ah.wav", "V")
    case 28 => ("ao.wav", "O:")
    case 29 => ("uh.wav", "U")
    case 30 => ("iy.wav", "i:")
    case 31 => ("ey.wav", "eI")
    case 32 => ("aa.wav", "A:")
    case 33 => ("ow.wav", "@U")
    case 34 => ("uw.wav", "u:")
    case 35 => ("er.wav", "3:")
    case 36 => ("ay.wav", "aI")
    case 37 => ("aw.wav", "aU")
    case _ => ("oy.wav", "OI")
  }

  /** `Object.entries(ARPABET_TO_ESPEAK)`. */
  const EspeakTable: seq<(string, string)> :=
    seq(EspeakTableSize, i requires 0 <= i < EspeakTableSize => EspeakEntry(i))

  /** Replace every backslash by a forward slash. */
  function Slashes(p: string): (r: string)
    ensures |r| == |p|
    ensures forall i :: 0 <= i < |p| ==> r[i] == (if p[i] == '\\' then '/' else p[i])
  {
    seq(|p|, i requires 0 <= i < |p| => if p[i] == '\\' then '/' else p[i])
  }

  predicate NoBackslash(s: string) {
    forall i :: 0 <= i < |s| ==> s[i] != '\\'
  }

  /** The path starts with a drive: a letter followed by a colon. */
  predicate HasDrive(p: string) {
    |p| >= 2 && IsAsciiLetter(p[0]) && p[1] == ':'
  }

  const WslMount: string := "/mnt/host/"

  /**
   * `windowsToWslPath`: backslashes become slashes, then a drive `X:` at the
   * very start becomes `/mnt/host/x`.
   */
  function WindowsToWslPath(p: string): (r: string)
    ensures NoBackslash(r)
    ensures HasDrive(p) ==> r == WslMount + [LowerChar(p[0])] + Slashes(p)[2..]
    ensures !HasDrive(p) ==> r == Slashes(p)
  {
    var s := Slashes(p);
    if HasDrive(s) then WslMount + [LowerChar(s[0])] + s[2..] else s
  }

  /**
   * Past the rewritten prefix, every character of the result is the
   * corresponding character of the input, with backslashes turned into
   * slashes; the drive letter is lowercased.
   */
  lemma WslPathCharacters(p: string)
    ensures var r := WindowsToWslPath(p);
      var skip := if HasDrive(p) then 2 else 0;
      var offset := if HasDrive(p) then |WslMount| + 1 else 0;
      |r| == |p| - skip + offset &&
      (HasDrive(p) ==> IsAsciiLower(r[|WslMount|]) && LowerChar(p[0]) == r[|WslMount|]) &&
      forall k :: skip <= k < |p| ==> r[k - skip + offset] == (if p[k] == '\\' then '/' else p[k])
  {
  }

  /** Rewriting a rewritten path changes nothing. */
  lemma WindowsToWslPathIdempotent(p: string)
    ensures WindowsToWslPath(WindowsToWslPath(p)) == WindowsToWslPath(p)
  {
    var r := WindowsToWslPath(p);
    assert Slashes(r) == r;
    if HasDrive(p) {
      assert r[0] == '/';
    }
  }

  /** The eSpeak installation found: through WSL, or a native one. */
  datatype Espeak = Wsl | Native

  /**
   * `checkEspeakInstallation`: WSL is tried first, then the native program;
   * None when neither answers.
   */
  function CheckEspeakInstallation(wslAnswers: bool, nativeAnswers: bool): (r: Option<Espeak>)
    ensures r.None? <==> !wslAnswers && !nativeAnswers
    ensures r == Some(Native) <==> !wslAnswers && nativeAnswers
  {
    if wslAnswers then Some(Wsl) else if nativeAnswers then Some(Native) else None
  }

  /** The command prefix the installation check returns. */
  function CommandName(espeak: Espeak): string {
    match espeak
    case Wsl => "wsl espeak"
    case Native => "espeak"
  }

  /** The eSpeak arguments: the voice, the quoted output path and the phoneme wrapped in `[[…]]`. */
  function Arguments(voice: string, outputPath: string, espeakPhoneme: string): string {
    " -v " + voice + " -w \"" + outputPath + "\" \"[[" + espeakPhoneme + "]]\""
  }

  /**
   * The command `generatePhonemeAudio` runs: through WSL the output path is
   * rewritten to the WSL mount, natively it is used as it is.
   */
  function EspeakCommand(espeak: Espeak, voice: string, filePath: string, espeakPhoneme: string): (r: string)
    ensures espeak == Wsl ==> r == CommandName(Wsl) + Arguments(voice, WindowsToWslPath(filePath), espeakPhoneme)
    ensures espeak == Native ==> r == CommandName(Native) + Arguments(voice, filePath, espeakPhoneme)
  {
    match espeak
    case Wsl => "wsl espeak" + Arguments(voice, WindowsToWslPath(filePath), espeakPhoneme)
    case Native => "espeak" + Arguments(voice, filePath, espeakPhoneme)
  }

  /**
   * The two forms differ only by the `wsl ` prefix and the output path: the
   * WSL command is the native command for the rewritten path, run through WSL.
   */
  lemma WslCommandIsNativeOnRewrittenPath(voice: string, filePath: string, espeakPhoneme: string)
    ensures EspeakCommand(Wsl, voice, filePath, espeakPhoneme) ==
      "wsl " + EspeakCommand(Native, voice, WindowsToWslPath(filePath), espeakPhoneme)
  {
    assert "wsl espeak" == "wsl " + "espeak";
  }

  /** The command ends with the phoneme wrapped as `"[[…]]"`. */
  lemma CommandEndsWithPhoneme(espeak: Espeak, voice: string, filePath: string, espeakPhoneme: string)
    ensures var c := EspeakCommand(espeak, voice, filePath, espeakPhoneme);
      var tail := "\"[[" + espeakPhoneme + "]]\"";
      |c| >= |tail| && c[|c| - |tail|..] == tail
  {
    var c := EspeakCommand(espeak, voice, filePath, espeakPhoneme);
    var tail := "\"[[" + espeakPhoneme + "]]\"";
    var outputPath := if espeak == Wsl then WindowsToWslPath(filePath) else filePath;
    var head := CommandName(espeak) + " -v " + voice + " -w \"" + outputPath + "\" ";
    assert c == head + tail;
  }

  /** What running a command did: whether it threw, and whether the output file exists afterwards. */
  datatype RunOutcome = RunOutcome(throws: bool, fileExistsAfter: bool)

  /** The outcome of one call: its return value, the command it ran if any, and the files afterwards. */
  datatype Attempt = Attempt(result: bool, command: Option<string>, files: set<string>)

  /**
   * `generatePhonemeAudio`: an existing file is skipped unless forced, with
   * no command built or run; otherwise the command runs, and the result is
   * true exactly when it did not throw and the file exists afterwards.
   */
  function GeneratePhonemeAudio(files: set<string>, filePath: string, espeakPhoneme: string,
                                espeak: Espeak, voice: string, force: bool,
                                run: string -> RunOutcome): (a: Attempt)
    ensures a.command.None? <==> filePath in files && !force
    ensures a.command.None? ==> !a.result && a.files == files
    ensures a.command.Some? ==> a.command.value == EspeakCommand(espeak, voice, filePath, espeakPhoneme)
    ensures a.result <==> a.command.Some? && !run(a.command.value).throws && filePath in a.files
  {
    if filePath in files && !force then Attempt(false, None, files)
    else
      var command := EspeakCommand(espeak, voice, filePath, espeakPhoneme);
      var outcome := run(command);
      var after := if outcome.fileExistsAfter then files + {filePath} else files - {filePath};
      Attempt(!outcome.throws && outcome.fileExistsAfter, Some(command), after)
  }

  /** A call changes at most its own output file. */
  lemma GenerateTouchesOnlyItsFile(files: set<string>, filePath: string, espeakPhoneme: string,
                                   espeak: Espeak, voice: string, force: bool,
                                   run: string -> RunOutcome, other: string)
    requires other != filePath
    ensures other in GeneratePhonemeAudio(files, filePath, espeakPhoneme, espeak, voice, force, run).files <==> other in files
  {
  }

  /** The counters of `generateAllPhonemes`, and the commands run, in order. */
  datatype Summary = Summary(generated: nat, skipped: nat, failed: nat, commands: seq<string>)

  function Add(a: Summary, b: Summary): Summary {
    Summary(a.generated + b.generated, a.skipped + b.skipped, a.failed + b.failed, a.commands + b.commands)
  }

  /** `path.join` of the phoneme directory and a file name, with the platform separator. */
  function FilePath(dir: string, separator: char, filename: string): string {
    dir + [separator] + filename
  }

  /**
   * The counting rule for one entry: a true result is generated; a false
   * result counts as skipped when the file exists afterwards, whatever the
   * reason, and as failed otherwise.
   */
  function Count(a: Attempt, filePath: string): (s: Summary)
    ensures s.generated + s.skipped + s.failed == 1
    ensures s.generated == 1 <==> a.result
    ensures s.skipped == 1 <==> !a.result && filePath in a.files
  {
    var commands := if a.command.Some? then [a.command.value] else [];
    if a.result then Summary(1, 0, 0, commands)
    else if filePath in a.files then Summary(0, 1, 0, commands)
    else Summary(0, 0, 1, commands)
  }

  /**
   * The loop of `generateAllPhonemes` over `entries`, from the files
   * `files`: the tally and the files afterwards. The entries are attempted
   * in order, so the tally of a sequence is the tally of all but its last
   * entry, followed by the last entry's attempt on the files left.
   */
  function Tally(entries: seq<(string, string)>, dir: string, separator: char, espeak: Espeak,
                 voice: string, force: bool, run: string -> RunOutcome, files: set<string>): (Summary, set<string>)
    decreases |entries|
  {
    if entries == [] then (Summary(0, 0, 0, []), files)
    else
      var before := Tally(entries[..|entries| - 1], dir, separator, espeak, voice, force, run, files);
      var last := entries[|entries| - 1];
      var filePath := FilePath(dir, separator, last.0);
      var a := GeneratePhonemeAudio(before.1, filePath, last.1, espeak, voice, force, run);
      (Add(before.0, Count(a, filePath)), a.files)
  }

  /** Every entry increments exactly one counter, so the three counters sum to the number of entries. */
  lemma {:induction false} TallySumsToEntries(entries: seq<(string, string)>, dir: string, separator: char,
                                             espeak: Espeak, voice: string, force: bool,
                                             run: string -> RunOutcome, files: set<string>)
    ensures var s := Tally(entries, dir, separator, espeak, voice, force, run, files).0;
      s.generated + s.skipped + s.failed == |entries|
    decreases |entries|
  {
    if entries != [] {
      TallySumsToEntries(entries[..|entries| - 1], dir, separator, espeak, voice, force, run, files);
    }
  }

  /** The output paths of the entries. */
  function OutputFiles(entries: seq<(string, string)>, dir: string, separator: char): (r: set<string>)
    ensures forall i :: 0 <= i < |entries| ==> FilePath(dir, separator, entries[i].0) in r
    decreases |entries|
  {
    if entries == [] then {}
    else
      var init := entries[..|entries| - 1];
      assert forall i :: 0 <= i < |init| ==> init[i] == entries[i];
      OutputFiles(init, dir, separator) + {FilePath(dir, separator, entries[|entries| - 1].0)}
  }

  /**
   * Without `force`, when every file of the table already exists, every
   * entry is skipped and no command is run.
   */
  lemma {:induction false} AllPresentAllSkipped(entries: seq<(string, string)>, dir: string, separator: char,
                                               espeak: Espeak, voice: string,
                                               run: string -> RunOutcome, files: set<string>)
    requires OutputFiles(entries, dir, separator) <= files
    ensures Tally(entries, dir, separator, espeak, voice, false, run, files) ==
      (Summary(0, |entries|, 0, []), files)
    decreases |entries|
  {
    if entries != [] {
      var init := entries[..|entries| - 1];
      AllPresentAllSkipped(init, dir, separator, espeak, voice, run, files);
      var last := entries[|entries| - 1];
      var filePath := FilePath(dir, separator, last.0);
      var a := GeneratePhonemeAudio(files, filePath, last.1, espeak, voice, false, run);
      assert a == Attempt(false, None, files);
      assert Count(a, filePath) == Summary(0, 1, 0, []);
      assert Tally(entries, dir, separator, espeak, voice, false, run, files) ==
        (Add(Summary(0, |init|, 0, []), Summary(0, 1, 0, [])), files);
      var none: seq<string> := [];
      assert none + none == none;
    }
  }

  /**
   * A forced run whose command throws, on a file that is still there
   * afterwards, is counted as skipped rather than failed.
   */
  lemma ForcedFailureOnExistingFileCountsAsSkipped(filename: string, espeakPhoneme: string, dir: string,
                                                  separator: char, espeak: Espeak, voice: string,
                                                  run: string -> RunOutcome, files: set<string>)
    requires FilePath(dir, separator, filename) in files
    requires run(EspeakCommand(espeak, voice, FilePath(dir, separator, filename), espeakPhoneme)) == RunOutcome(true, true)
    ensures var s := Tally([(filename, espeakPhoneme)], dir, separator, espeak, voice, true, run, files).0;
      s.skipped == 1 && s.failed == 0 && |s.commands| == 1
  {
    var entries := [(filename, espeakPhoneme)];
    assert entries[..0] == [];
  }

  /**
   * The `for … of` loop of `generateAllPhonemes`: each entry is attempted in
   * order on the files the previous attempts left, and counted.
   */
  method GenerateEntries(entries: seq<(string, string)>, dir: string, separator: char, espeak: Espeak,
                         voice: string, force: bool, run: string -> RunOutcome, files: set<string>)
    returns (summary: Summary, filesAfter: set<string>)
    ensures (summary, filesAfter) == Tally(entries, dir, separator, espeak, voice, force, run, files)
  {
    var generated: nat, skipped: nat, failed: nat := 0, 0, 0;
    var commands: seq<string> := [];
    filesAfter := files;
    for i := 0 to |entries|
      invariant (Summary(generated, skipped, failed, commands), filesAfter) ==
        Tally(entries[..i], dir, separator, espeak, voice, force, run, files)
    {
      var (filename, espeakPhoneme) := entries[i];
      var filePath := FilePath(dir, separator, filename);
      var a := GeneratePhonemeAudio(filesAfter, filePath, espeakPhoneme, espeak, voice, force, run);
      var before := Summary(generated, skipped, failed, commands);
      var counted := Count(a, filePath);
      assert entries[..i + 1][..i] == entries[..i] && entries[..i + 1][i] == entries[i];
      assert Tally(entries[..i + 1], dir, separator, espeak, voice, force, run, files) == (Add(before, counted), a.files);
      if a.command.Some? {
        commands := commands + [a.command.value];
      }
      assert commands == before.commands + counted.commands;
      filesAfter := a.files;
      if a.result {
        generated := generated + 1;
      } else if filePath in filesAfter {
        skipped := skipped + 1;
      } else {
        failed := failed + 1;
      }
      assert Summary(generated, skipped, failed, commands) == Add(before, counted);
    }
    assert entries[..|entries|] == entries;
    summary := Summary(generated, skipped, failed, commands);
  }

  /**
   * `generateAllPhonemes`: nothing is counted when no eSpeak installation
   * answers; otherwise every table entry is attempted and counted.
   */
  method GenerateAllPhonemes(voice: string, force: bool, wslAnswers: bool, nativeAnswers: bool,
                             dir: string, separator: char, files: set<string>,
                             run: string -> RunOutcome)
    returns (summary: Option<Summary>, filesAfter: set<string>)
    ensures summary.None? <==> CheckEspeakInstallation(wslAnswers, nativeAnswers).None?
    ensures summary.None? ==> filesAfter == files
    ensures summary.Some? ==>
      var espeak := CheckEspeakInstallation(wslAnswers, nativeAnswers).value;
      (summary.value, filesAfter) == Tally(EspeakTable, dir, separator, espeak, voice, force, run, files)
    ensures summary.Some? ==> summary.value.generated + summary.value.skipped + summary.value.failed == EspeakTableSize
  {
    match CheckEspeakInstallation(wslAnswers, nativeAnswers)
    case None =>
      summary, filesAfter := None, files;
    case Some(espeak) =>
      var tally;
      tally, filesAfter := GenerateEntries(EspeakTable, dir, separator, espeak, voice, force, run, files);
      TallySumsToEntries(EspeakTable, dir, separator, espeak, voice, force, run, files);
      summary := Some(tally);
  }
}
