/** The `BinaryMock` test fixture: a fake executable made discoverable by
    putting its directory at the front of `PATH`, and taken off `PATH` again
    when the fixture is dropped.

    The process-wide state the fixture touches is gathered in `Process`: the
    value of the `PATH` variable, the files written (by name), and, for the
    proofs only, the order in which files were written and `PATH` was set.
    There is a single sequential environment; nothing serialises concurrent
    fixtures.
 */
module Mock {
  import opened PathList
  import opened ScriptText

  datatype Error =
    | PathNotSet              // the PATH variable is absent
    | JoinPathsFailed         // an entry holds the separator, so the list cannot be joined
    | AlreadyExists(file: string)  // create-only open found a file at the path
    | Io(reason: string)      // a temporary directory or file step failed

  datatype Result<+T> = Ok(value: T) | Err(error: Error)

  /** File contents: raw bytes, or a string written as its encoding. */
  datatype Content = Bytes(data: seq<uint8>) | Text(text: string)

  /** One visible step of the fixture, in the order it happened. */
  datatype Effect = Wrote(file: string) | Created(file: string) | PathSet(value: string)

  class Process {
    var path: Option<string>
    var files: map<string, Content>
    ghost var effects: seq<Effect>

    constructor (path: Option<string>, files: map<string, Content>)
      ensures this.path == path && this.files == files && effects == []
    {
      this.path := path;
      this.files := files;
      effects := [];
    }

    /** Overwrites (or creates) a file with the given contents. */
    method Write(file: string, content: Content)
      modifies this
      ensures files == old(files)[file := content]
      ensures path == old(path) && effects == old(effects) + [Wrote(file)]
    {
      files := files[file := content];
      effects := effects + [Wrote(file)];
    }

    /** Creates a file that must not exist yet, then writes it. `fault` is
        the file system's answer to the open and the write when no file of
        that name exists (a missing parent, a name that is a directory, a
        full disk): `Some(reason)` fails the step and writes nothing. */
    method CreateNew(file: string, content: Content, fault: Option<string>) returns (res: Result<()>)
      modifies this
      ensures old(file in files) ==> res == Err(AlreadyExists(file)) && unchanged(this)
      ensures old(file !in files) && fault.Some? ==> res == Err(Io(fault.value)) && unchanged(this)
      ensures old(file !in files) && fault.None? ==>
        res == Ok(()) && files == old(files)[file := content] &&
        path == old(path) && effects == old(effects) + [Created(file)]
    {
      if file in files {
        return Err(AlreadyExists(file));
      }
      if fault.Some? {
        return Err(Io(fault.value));
      }
      files := files[file := content];
      effects := effects + [Created(file)];
      return Ok(());
    }

    /** Assigns the PATH variable. */
    method SetPath(value: string)
      modifies this
      ensures path == Some(value) && files == old(files)
      ensures effects == old(effects) + [PathSet(value)]
    {
      path := Some(value);
      effects := effects + [PathSet(value)];
    }
  }

  /** Where the temporary directory and the two temporary files were made. */
  datatype TempPaths = TempPaths(binDir: string, stdoutFile: string, stderrFile: string)

  /** What creating the temporary directory and files gave: the paths, or the
      reason of the I/O error that stopped it. */
  datatype TempOutcome = Made(paths: TempPaths) | Failed(reason: string)

  /** Appends a file name to a directory path: an absolute name replaces the
      directory, and a separator is put in only when the directory is
      non-empty and does not already end with one. */
  function JoinPath(dir: string, name: string): string
  {
    if |name| > 0 && name[0] == '/' then name
    else if dir == [] || dir[|dir| - 1] == '/' then dir + name
    else dir + "/" + name
  }

  /** The name ends the joined path. An absolute name stands alone, and so
      does any name joined to the empty directory; a relative name follows a
      non-empty directory with exactly one `/` between them. */
  lemma JoinPathPlacement(dir: string, name: string)
    ensures var r := JoinPath(dir, name);
      |name| <= |r| && r[|r| - |name|..] == name
    ensures |name| > 0 && name[0] == '/' ==> JoinPath(dir, name) == name
    ensures |name| == 0 || name[0] != '/' ==> dir <= JoinPath(dir, name)
    ensures (|name| == 0 || name[0] != '/') && dir == [] ==> JoinPath(dir, name) == name
    ensures (|name| == 0 || name[0] != '/') && dir != [] ==>
      var r := JoinPath(dir, name);
      r[|r| - |name| - 1] == '/' &&
      |r| == |dir| + |name| + (if dir[|dir| - 1] == '/' then 0 else 1)
  {
  }

  class BinaryMock {
    const binDir: string
    const stdoutFile: string
    const stderrFile: string

    constructor (temp: TempPaths)
      ensures binDir == temp.binDir && stdoutFile == temp.stdoutFile && stderrFile == temp.stderrFile
    {
      binDir := temp.binDir;
      stdoutFile := temp.stdoutFile;
      stderrFile := temp.stderrFile;
    }

    /** Builds the fake executable `name` and registers its directory.
        `temp` is the outcome of creating the temporary directory and the two
        temporary files and of staging the two streams in them; when it is a
        success the staged contents are written here. `scriptFault` is the
        file system's answer to creating and writing the script. Each step
        that can fail returns at once, so PATH is changed only by the last
        step, and only after the script is in place. */
    static method New(proc: Process, name: string, stdoutData: seq<uint8>, stderrData: seq<uint8>,
                      rc: uint8, temp: TempOutcome, scriptFault: Option<string>)
      returns (res: Result<BinaryMock>)
      modifies proc
      ensures temp.Failed? ==> res == Err(Io(temp.reason)) && unchanged(proc)
      ensures temp.Made? ==>
        var t := temp.paths;
        var script := JoinPath(t.binDir, name);
        var staged := old(proc.files)[t.stdoutFile := Bytes(stdoutData)][t.stderrFile := Bytes(stderrData)];
        var wrote := old(proc.effects) + [Wrote(t.stdoutFile), Wrote(t.stderrFile)];
        if script in staged then
          res == Err(AlreadyExists(script)) && proc.files == staged &&
          proc.path == old(proc.path) && proc.effects == wrote
        else if scriptFault.Some? then
          res == Err(Io(scriptFault.value)) && proc.files == staged &&
          proc.path == old(proc.path) && proc.effects == wrote
        else
          proc.files == staged[script := Text(Body(t.stdoutFile, t.stderrFile, rc))] &&
          (old(proc.path).None? ==>
            res == Err(PathNotSet) && proc.path == old(proc.path) &&
            proc.effects == wrote + [Created(script)]) &&
          (old(proc.path).Some? && Separator in t.binDir ==>
            res == Err(JoinPathsFailed) && proc.path == old(proc.path) &&
            proc.effects == wrote + [Created(script)]) &&
          (old(proc.path).Some? && Separator !in t.binDir ==>
            res.Ok? && fresh(res.value) &&
            res.value.binDir == t.binDir && res.value.stdoutFile == t.stdoutFile &&
            res.value.stderrFile == t.stderrFile &&
            proc.path == Some(t.binDir + [Separator] + old(proc.path).value) &&
            proc.effects == wrote + [Created(script), PathSet(proc.path.value)])
      ensures proc.path != old(proc.path) ==> res.Ok?
    {
      if temp.Failed? {
        return Err(Io(temp.reason));
      }
      var t := temp.paths;
      proc.Write(t.stdoutFile, Bytes(stdoutData));
      proc.Write(t.stderrFile, Bytes(stderrData));
      var script := JoinPath(t.binDir, name);
      var created := proc.CreateNew(script, Text(Body(t.stdoutFile, t.stderrFile, rc)), scriptFault);
      if created.Err? {
        return Err(created.error);
      }
      var added := AddPathDir(proc, t.binDir);
      if added.Err? {
        return Err(added.error);
      }
      var mock := new BinaryMock(t);
      return Ok(mock);
    }

    /** Puts `dir` in front of the PATH entries. */
    static method AddPathDir(proc: Process, dir: string) returns (res: Result<()>)
      modifies proc
      ensures proc.files == old(proc.files)
      ensures old(proc.path).None? ==> res == Err(PathNotSet) && unchanged(proc)
      ensures old(proc.path).Some? && Separator in dir ==> res == Err(JoinPathsFailed) && unchanged(proc)
      ensures old(proc.path).Some? && Separator !in dir ==>
        res == Ok(()) &&
        proc.path == Some(dir + [Separator] + old(proc.path).value) &&
        Split(proc.path.value, Separator) == [dir] + Split(old(proc.path).value, Separator) &&
        proc.effects == old(proc.effects) + [PathSet(proc.path.value)]
    {
      if proc.path.None? {
        return Err(PathNotSet);
      }
      var value := proc.path.value;
      var dirs := Split(value, Separator);
      dirs := [dir] + dirs;
      PrependJoin(value, dir);
      var joined := Join(dirs, Separator);
      if joined.None? {
        return Err(JoinPathsFailed);
      }
      proc.SetPath(joined.value);
      PrependedEntries(value, dir);
      return Ok(());
    }

    /** Filters every entry equal to `dir` out of PATH. The join after the
        filter cannot fail, so the only error is an absent PATH. */
    static method RemovePathDir(proc: Process, dir: string) returns (res: Result<()>)
      modifies proc
      ensures proc.files == old(proc.files)
      ensures old(proc.path).None? ==> res == Err(PathNotSet) && unchanged(proc)
      ensures old(proc.path).Some? ==>
        res == Ok(()) &&
        proc.path == Some(RemovedPath(old(proc.path).value, dir)) &&
        proc.effects == old(proc.effects) + [PathSet(proc.path.value)]
    {
      if proc.path.None? {
        return Err(PathNotSet);
      }
      var value := proc.path.value;
      var dirs := Without(Split(value, Separator), dir);
      RemoveJoins(value, dir);
      var joined := Join(dirs, Separator);
      assert joined.Some?;
      proc.SetPath(joined.value);
      return Ok(());
    }

    /** Teardown: deregisters the directory and ignores a failure. */
    method Drop(proc: Process)
      modifies proc
      ensures proc.files == old(proc.files)
      ensures old(proc.path).None? ==> unchanged(proc)
      ensures old(proc.path).Some? ==>
        proc.path == Some(RemovedPath(old(proc.path).value, binDir)) &&
        proc.effects == old(proc.effects) + [PathSet(proc.path.value)]
    {
      var ignored := RemovePathDir(proc, binDir);
    }
  }

  /** The bytes of a string of ASCII characters. */
  function AsciiBytes(s: string): (r: seq<uint8>)
    requires forall i :: 0 <= i < |s| ==> s[i] as int < 128
    ensures |r| == |s| && forall i :: 0 <= i < |r| ==> r[i] as int == s[i] as int
  {
    seq(|s|, i requires 0 <= i < |s| => s[i] as int as uint8)
  }

  /** The unit test's fixture lifetime: a mock `mock_temp` printing a
      temperature line to standard output, nothing to standard error, and
      exiting with 0 is built, and dropped at the end of the scope. When the
      directory it gets is new to PATH, PATH ends as it began. The files the
      script replays and the script itself hold the exact contents below.
      `files` keeps every file written, including the ones the source deletes
      with the temporary directory after the drop, so this states what the
      test's child process reads, not what remains on disk afterwards. */
  method TemperatureOutput(proc: Process, temp: TempOutcome, scriptFault: Option<string>)
    modifies proc
    ensures temp.Made? && scriptFault.None? ==>
      var t := temp.paths;
      var script := JoinPath(t.binDir, "mock_temp");
      old(proc.path).Some? && Separator !in t.binDir &&
      t.binDir !in Split(old(proc.path).value, Separator) &&
      script !in old(proc.files) && script != t.stdoutFile && script != t.stderrFile &&
      t.stdoutFile != t.stderrFile
      ==>
      proc.path == old(proc.path) &&
      script in proc.files &&
      proc.files[script] == Text(Body(t.stdoutFile, t.stderrFile, 0)) &&
      t.stdoutFile in proc.files &&
      proc.files[t.stdoutFile] == Bytes(AsciiBytes("Temperature: 30 Celsius\n")) &&
      t.stderrFile in proc.files &&
      proc.files[t.stderrFile] == Bytes([])
  {
    var line := "Temperature: 30 Celsius\n";
    assert forall i :: 0 <= i < |line| ==> line[i] as int < 128;
    var mock := BinaryMock.New(proc, "mock_temp", AsciiBytes(line), [], 0, temp, scriptFault);
    if mock.Err? {
      // unwrap() panics and the test fails
      return;
    }
    mock.value.Drop(proc);
    var dir := temp.paths.binDir;
    if old(proc.path).Some? && dir !in Split(old(proc.path).value, Separator) {
      AddThenRemove(old(proc.path).value, dir);
    }
  }
}
