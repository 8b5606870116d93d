# BinaryMock: a fake executable on the search path

This project models the `BinaryMock` test fixture of hddfancontrol
(`src/tests.rs`). The fixture writes a small shell script that replays staged
standard output, staged standard error and a fixed exit code. It puts the
script's directory at the front of `PATH` so that a child process started by
name finds the mock first. When the fixture is dropped, the directory is
filtered out of `PATH` again.

The model has three modules:

- `PathList` (`path_list.dfy`) treats the `PATH` value as a list of entries.
  `Split` and `Join` are the Unix behaviour of `std::env::split_paths` and
  `std::env::join_paths`. Splitting cuts at every `:` and always yields at
  least one entry: the empty value is one empty entry. Joining fails when an
  entry holds a `:`. `Without` is the filter in `remove_path_dir`, and
  `RemovedPath` is the value that filter writes back. The lemmas prove the
  following:
  - splitting and joining are inverse to each other;
  - filtering drops every occurrence of the directory and keeps the other
    entries in their order, and it is the only function that does so;
  - deregistration is idempotent and does nothing when the directory is absent;
  - registering a new directory and then deregistering it restores the exact
    `PATH` value, also for two stacked fixtures removed in either order.
- `ScriptText` (`script_text.dfy`) holds the script body, with the exit code
  an unsigned byte printed in decimal. The lemmas prove that the body has
  exactly four lines and reads back as the two file names and the exit code
  when neither file name holds a line break. They also prove that it does not
  read back otherwise.
- `Mock` (`binary_mock.dfy`) holds the mutable state. `Process` is the process
  environment: the `PATH` variable (`None` when unset), the files written so
  far, and a ghost log of effects in the order they happened. `BinaryMock` has
  the fixture's fields and its operations. `New` runs the steps of the
  constructor in order, and every fallible step returns at once. So `PATH` is
  changed only when construction succeeds, and only after the script file has
  been created.

The code removes every entry equal to the directory, not only the first one.
When the filter removes the only entry, the value written back is the empty string. That
string splits again to one empty entry, not to an empty list. `RemovedPath`'s
contract states this. The join after the filter in `remove_path_dir` can never
fail, because no split entry holds a `:`. `RemoveJoins` proves this, and
`RemovePathDir` asserts it instead of modelling an error path.

## Model

| member | source | states |
|---|---|---|
| `PathList.Split` | src/tests.rs:95 | the value always splits to at least one entry, and no entry holds the separator |
| `PathList.Join` | src/tests.rs:97 | joining succeeds exactly when no entry holds the separator |
| `PathList.JoinSplit` | src/tests.rs:95-97 | joining the split entries of any value gives back that value |
| `PathList.SplitJoin` | src/tests.rs:95-97 | a non-empty list of separator-free entries survives a join followed by a split |
| `PathList.Without` | src/tests.rs:111-113 | the filtered list is no longer than the original and holds no entry equal to the directory |
| `PathList.WithoutMultiset` | src/tests.rs:111-113 | the filter drops every entry equal to the directory and keeps every other entry as often as it occurred |
| `PathList.WithoutIsSubsequence` | src/tests.rs:111-113 | the kept entries are in their original relative order |
| `PathList.WithoutUnique` | src/tests.rs:111-113 | any order-preserving list that drops exactly the entries equal to the directory is the filter's result |
| `PathList.WithoutAppend` | src/tests.rs:111-113 | filtering a concatenation filters each part |
| `PathList.WithoutAbsent` | src/tests.rs:111-113 | filtering a directory that is not listed returns the list unchanged |
| `PathList.WithoutIdempotent` | src/tests.rs:111-113 | filtering twice equals filtering once |
| `PathList.WithoutCommutes` | src/tests.rs:111-113 | filtering two directories gives the same list in either order |
| `PathList.RemovedPath` | src/tests.rs:111-114 | the written-back value splits to the kept entries, or to one empty entry when none are kept |
| `PathList.RemoveJoins` | src/tests.rs:114 | the join after the filter always succeeds, so its error path is unreachable |
| `PathList.PrependJoin` | src/tests.rs:95-97 | inserting the directory first and joining gives `dir:old`, or fails exactly when the directory holds the separator |
| `PathList.PrependedEntries` | src/tests.rs:95-97 | the entries of `dir:old` are the directory followed by the old entries in order |
| `PathList.RemoveAbsent` | src/tests.rs:111-117 | deregistering an absent directory leaves the value unchanged |
| `PathList.RemoveIdempotent` | src/tests.rs:111-117 | deregistering twice gives the same value as deregistering once, so a repeated teardown is harmless |
| `PathList.AddThenRemove` | src/tests.rs:96-112 | registering a directory that was not listed and deregistering it restores the original value exactly |
| `PathList.RemoveSecond` | src/tests.rs:111-117 | deregistering the older of two stacked directories leaves the newer one in front of the original value |
| `PathList.NestedAddsRemoveInAnyOrder` | src/tests.rs:124-128 | two stacked registrations are undone by their two teardowns in either order |
| `ScriptText.Decimal` | src/tests.rs:76 | the exit code prints as non-empty decimal digits with a leading zero only for 0 |
| `ScriptText.DecimalRoundTrip` | src/tests.rs:73-76 | reading the printed exit code back gives the exit code |
| `ScriptText.ExitCodeWidth` | src/tests.rs:53 | a `u8` exit code prints as one to three digits |
| `ScriptText.Body` | src/tests.rs:72-77 | whatever the file names hold, the script's first line is the interpreter line and its last line is `exit` with the configured code |
| `ScriptText.BodyLines` | src/tests.rs:72-77 | with line-break-free file names the body is exactly those four lines |
| `ScriptText.BodyLineCount` | src/tests.rs:72-77 | the body has four lines plus one for each line break in the file names |
| `ScriptText.ParseBody` | src/tests.rs:72-77 | the body reads back as (stdout file, stderr file, exit code) exactly when neither file name holds a line break |
| `Mock.Process.Write` | src/tests.rs:61-62 | writing a staged file replaces that file's contents and nothing else |
| `Mock.Process.CreateNew` | src/tests.rs:66-70 | create-only open fails with AlreadyExists and changes nothing when the file exists; a file system failure returns an I/O error and writes nothing; otherwise the file is added |
| `Mock.JoinPathPlacement` | src/tests.rs:65 | the script name ends the joined path; an absolute name stands alone, and so does any name joined to the empty directory, and a relative name follows a non-empty directory with exactly one `/` between them |
| `Mock.Process.SetPath` | src/tests.rs:99-101 | setting the variable replaces the PATH value and leaves the files alone |
| `Mock.BinaryMock.AddPathDir` | src/tests.rs:91-104 | unset PATH is an error that changes nothing; a directory holding the separator fails to join and changes nothing; otherwise PATH becomes `dir:old`, whose entries are the directory followed by the old entries |
| `Mock.BinaryMock.RemovePathDir` | src/tests.rs:107-121 | unset PATH is an error that changes nothing; otherwise PATH becomes `RemovedPath(old, dir)` and the call succeeds |
| `Mock.BinaryMock.Drop` | src/tests.rs:124-128 | teardown deregisters the directory and ignores an unset PATH, leaving it unset |
| `Mock.BinaryMock.New` | src/tests.rs:49-88 | a failure making the temporary files returns an I/O error before anything changes; the staged files are written, then the script is created with the exact body, and an existing file or a failed create returns with PATH untouched; PATH is set last and only on success, to `binDir:old` |
| `Mock.TemperatureOutput` | src/tests.rs:10-33 | when the temporary files (two distinct ones) and the script are created, the unit test's fixture stages the temperature line as standard output and nothing as standard error, writes the exact script, and, when its directory was new to PATH, leaves PATH as it found it at the end of the scope |

## Left out

- Creating the temporary directory and the two temporary files (`tempdir`, `NamedTempFile::new`, `reopen`) is not modelled. `New` takes the outcome of lines 56-62 as a parameter: the paths chosen, or the reason of the I/O error. That error also stands for a failed write of the staged streams.
- Deleting the temporary directory and files when the fixture or a failed constructor's locals are dropped is not modelled. The files written stay in `Process.files`.
- `Mock.Process.CreateNew`: a `write_all` that fails after the open succeeded leaves a partly written script behind in the source; the model treats it like a failed open and keeps no file. The `0o700` permission bits are not modelled.
- Which names make the file system refuse the script (an empty name, `.`, a missing parent directory) is not modelled. `New` takes that answer as the `scriptFault` parameter.
- Running the mock and capturing its output in the unit test is not modelled, and neither is the shell's reading of the script. For example, an unquoted file name containing a space would split into two arguments.
- Concurrency is not modelled. The source sets `PATH` with no lock, so the model is one sequential environment with no mutual exclusion.
- `log::trace!` output and the `to_str().unwrap()` panics on non-UTF-8 values are not modelled. Values are strings, and file contents written from a string stand for its encoding.
- `std::path::Path` equality compares path components. Here entries are equal when they are equal strings, so `/a/b/` and `/a/b` count as different.
