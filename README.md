# mcsrvctl server supervisor, modelled in Dafny

`server_process.py` of mcsrvctl supervises one Minecraft server, a `java` process,
from the server's own directory. This model covers all of its logic:

- **The lock file** `lock.pid`. `_lockfile_create` writes `str(pid)` to it and
  `_lockfile_delete` removes it. `_check_lock` reads the PID back with
  `readline()` and `int()`. It reports that PID when a live process called "java"
  has it, and otherwise deletes the lock and reports `None`.
- **`NewServerProcess.launch`**. It refuses with `ServerAlreadyRunningError` while the
  check reports a server. Otherwise it spawns `java`, marks the server STARTING, writes
  the lock, and reads the output line by line up to the first line that matches
  `Done \(.*\)!`. When the output ends first, it raises
  `ServerRunningError(pid, last non-blank line)`.
- **The running server**. `command` writes a line to its standard input. `stop` sends
  "stop", waits for the process, removes the lock and marks the server OFF. The
  `status` property reports OFF once the process has ended with a non-zero code.

The model has four modules below `Wrappers` (Option and Result):

- `PyStr`: the Python built-ins the code relies on. `str.strip()` uses Python's full
  whitespace set. `readline()` is modelled on a file in text mode, where `\r` and
  `\r\n` also end a line.
- `PidText`: `str(n)`, and `int(s)` in base 10. `int(s)` handles surrounding
  whitespace, a sign, leading zeros and single underscores between digits. Its
  whitespace is that of `strip()` except U+001C to U+001F. CPython leaves those four
  ASCII separators in place, so text padded with them raises `ValueError`.
- `Readiness`: the readiness marker, the index of the first ready line, and the
  last non-blank line.
- `ServerProcess`: the supervisor itself, written imperatively.
  - A `Host` class holds the lock file (`Option<string>`), the process table
    (PID to name) and a ghost log of events in the order they happen.
  - A `NewServerProcess` class holds the fields the methods update: `_status`, `pid`,
    standard input, standard output and the return code.

The asynchronous calls are modelled as ordinary steps:

- Spawning picks any PID that is not in use.
- Standard output is a given sequence of lines. `readline()` returns "" once that
  sequence is used up.
- `process.wait()` takes the exit code as a parameter.

Where the code behaves differently from what its purpose suggests, the model follows the code:

- Lock text that is not an integer makes `_check_lock` raise `ValueError`, and the
  lock stays in place; it is not cleared like a stale lock. A negative PID also
  raises, because `psutil.Process` rejects it.
- `stop` raises `FileNotFoundError` when the lock file is already gone, and the
  server then stays STOPPING.
- A failed start leaves the lock file behind.
- A PID of 0 in the lock does not block a launch, because `if` treats the
  returned PID 0 as false.
- `status` keeps the cached state when the exit code is 0.
- The first field of `ServerRunningError`, called `return_code`, holds the PID.

## Model

| member | source | states |
|---|---|---|
| PyStr.StripMeaning | server_process.py:116 | `strip()` returns a contiguous piece of its argument, for any set of whitespace characters. That piece neither starts nor ends with whitespace, and everything cut away on either side is whitespace. The same holds for the trimming `int()` does with its own whitespace set. |
| PyStr.ReadLine | server_process.py:37 | `readline()` on text with no line break returns the whole text. |
| PyStr.ReadLineAt | server_process.py:37 | `readline()` on text whose first line break is at `k` returns the text before `k` followed by "\n". This holds whether the break is "\n", "\r" or "\r\n". |
| PidText.NatToDecimal | server_process.py:23 | `str(n)` for `n >= 0` is a non-empty run of decimal digits with no leading zero. |
| PidText.IntToDecimal | server_process.py:23 | `str(n)` starts with '-' exactly when `n` is negative. Every other character is a digit, and the last one is a digit. |
| PyStr.StripPadded | server_process.py:116 | Stripping removes exactly the whitespace around text that neither starts nor ends with whitespace. |
| PidText.RemoveUnderscores | server_process.py:38 | No underscore is left, and the result is no longer than the text. Digits and underscores give digits alone. Text of digits alone is left as it is. |
| PidText.RemoveUnderscoresAppend | server_process.py:38 | Removing underscores from two pieces joined is joining the pieces with underscores removed. |
| PidText.RemoveUnderscoresChar | server_process.py:38 | On one character, an underscore is removed and anything else is kept. With `RemoveUnderscoresAppend` this means the other characters are all kept, in order. |
| PidText.ParseIntAccepts | server_process.py:38 | `int()` accepts every integer literal and returns its value. A literal is whitespace, an optional '+' or '-', a digit group, then whitespace. Here whitespace is `isspace()` without U+001C to U+001F. A digit group is digits with single underscores between two digits. |
| PidText.ParseIntOnlyLiterals | server_process.py:38 | `int()` accepts nothing else: text it parses is such a literal, and the result is that literal's value. |
| PidText.ParseIntPadded | server_process.py:38 | `int(" 0042\n")` is 42: surrounding whitespace and leading zeros are allowed. |
| PidText.ParseIntUnderscore | server_process.py:38 | `int("-1_000")` is -1000: a sign and an underscore between digits are allowed. |
| PidText.ParseIntRejects | server_process.py:38 | `int()` raises `ValueError` on empty or blank text, on an underscore that leads, trails or doubles, on a sign alone or two signs, on inner space, and on "0x2A". |
| PidText.ParseIntKeepsSeparators | server_process.py:38 | `int()` raises `ValueError` on "5" padded with U+001C or U+001F, although `strip()` removes U+001C. |
| PidText.DigitsValueOfDecimal | server_process.py:38 | The digits written by `str(n)` denote `n`. |
| PidText.ParseIntOfDecimal | server_process.py:38 | `int(str(n)) == n` for every integer `n`. |
| PidText.PidRoundTrip | server_process.py:36-38 | Writing `str(pid)` to the lock file and reading it back with `readline()` and `int()` gives `pid` again, for every integer. |
| Readiness.FirstReadyLineMeaning | server_process.py:109-119 | The scan finds a line exactly when some line's stripped text matches `Done \(.*\)!`. What it finds is the first such line. |
| Readiness.LastNonBlankEmpty | server_process.py:116 | The remembered line (`strip() or line`) is "" exactly when every line read was blank. |
| Readiness.LastNonBlankIsLast | server_process.py:116 | A non-empty remembered line is the stripped text of the last non-blank line. |
| Readiness.ScanStep | server_process.py:115-117 | One pass of the loop keeps `line` equal to the last non-blank line read so far. The new `line` matches the marker exactly when the line just read is ready. |
| Readiness.ReadyStep | server_process.py:117-119 | If no earlier line was ready, the line just read is the first ready line when it is ready. Otherwise none is ready yet. |
| Readiness.FirstReadyAt | server_process.py:117-119 | A ready line with no ready line before it is where the scan stops. |
| Readiness.DoneLineIsReady | server_process.py:108-109 | "Done (12.345s)!" followed by a line break matches the readiness pattern. |
| Readiness.ReadyOnThirdLine | server_process.py:112-119 | If the first ready line is the third one, the scan stops there, whatever follows. |
| Readiness.EndsAfterTwoLines | server_process.py:112-123 | Two lines neither of which is ready give no ready line. The report is the second stripped line, or the first when the second is blank. |
| ServerProcess.Host.Spawn | server_process.py:90-96 | The new process gets a positive PID that no live process has. It is added to the process table under `name`, and the spawn is logged. |
| ServerProcess.CheckLockOutcome | server_process.py:31-51 | It returns `Some(pid)` exactly when the lock parses to `pid >= 0` and that PID is a live "java" process. Its only errors are `ValueError` for text that is not an integer, and for a negative PID, each raised exactly in its case. A `None` result means the lock is gone afterwards; any other outcome leaves the lock unchanged. So a missing lock gives `None`, and a lock naming a dead or non-"java" process is deleted and gives `None`. |
| ServerProcess.NoLockNoChange | server_process.py:50-51 | Without a lock file the check returns `None` and there is still no lock. |
| ServerProcess.StaleLockCleared | server_process.py:40-48 | A lock whose non-negative PID is not a live "java" process is deleted, and the check returns `None`. |
| ServerProcess.ZeroPidDoesNotBlock | server_process.py:84-85 | A lock naming PID 0, held by a live "java" process, is reported as PID 0 and kept. `if` takes that 0 for false, so the launch goes ahead. |
| ServerProcess.CheckOwnLock | server_process.py:36-49 | A lock written for a non-negative `pid` is reported as that PID when it is a live "java" process. Otherwise it is cleared and `None` is returned. |
| ServerProcess.CheckLockIdempotent | server_process.py:40-49 | Checking again after a check gives the same outcome, so the lock is stable after one check. |
| ServerProcess.CheckLockAsWritten | server_process.py:40-49 | With `p.name` as a method, never equal to "java", the check never reports a server. A result that is not an error clears the lock. It raises exactly when the intended check raises, with the same error, before `p.name` is reached, and then the lock is kept. |
| ServerProcess.AsWrittenAdmitsSecondServer | server_process.py:43-45 | As written, the lock of a running "java" server is deleted and a launch is permitted, while the intended check blocks it. |
| ServerProcess.LockfileDelete | server_process.py:25-29 | Afterwards there is no lock. A missing lock raises `FileNotFoundError`; an existing one is removed, and the removal is logged. |
| ServerProcess.CheckLock | server_process.py:31-51 | The result and the lock afterwards are exactly `CheckLockOutcome` of the lock and process table before the call. The only logged effect is a removal. |
| ServerProcess.NewServerProcess.constructor | server_process.py:15-17 | A new supervisor is UNKNOWN with PID -1, has no input or output, and its process has not ended. |
| ServerProcess.NewServerProcess.LockfileCreate | server_process.py:19-23 | The lock holds `str(pid)`, whatever it held before, and the write is logged. |
| ServerProcess.NewServerProcess.ReadStdout | server_process.py:115 | It returns the next line of output and logs the read with the current state. At the end of the output it returns "" and logs the end. |
| ServerProcess.NewServerProcess.AwaitReady | server_process.py:106-123 | The loop stops right after the first ready line when there is one. Otherwise it reads the whole output and returns the last non-blank line. The log shows the lines read, in order, all while STARTING. |
| ServerProcess.NewServerProcess.Begin | server_process.py:87-102 | A `java` process with a fresh PID is spawned. The server is STARTING with that PID and the lock names it. The log shows the spawn before the lock write. |
| ServerProcess.NewServerProcess.SpawnAndWait | server_process.py:87-126 | Spawn, lock and scan in that order. The server ends RUNNING after the first ready line, or stays STARTING with the last non-blank line when the output ends first. |
| ServerProcess.NewServerProcess.Launch | server_process.py:72-126 | A check that raises, or one that finds a running server, ends the launch with nothing spawned. Otherwise `java` gets a fresh PID and the lock names it. The result is RUNNING and stops at the first ready line, or `ServerRunningError(pid, last non-blank line)` with the lock left in place. The log gives the full order of events. |
| ServerProcess.NewServerProcess.Command | server_process.py:128-133 | Exactly `command + "\n"` is appended to standard input. |
| ServerProcess.NewServerProcess.ChildExits | server_process.py:140 | The process ends with `code`. It leaves the process table and its return code is set. |
| ServerProcess.NewServerProcess.Wait | server_process.py:140 | It returns the exit code. If the process had already ended, nothing changes; otherwise it ends with the given code. |
| ServerProcess.NewServerProcess.Stop | server_process.py:135-143 | "stop\n" is sent, the process has ended and the lock is gone. With a lock present, the server ends OFF. Without one, it raises `FileNotFoundError` and stays STOPPING. The log shows the exit before the removal. |
| ServerProcess.NewServerProcess.Status | server_process.py:145-152 | OFF is returned and stored when the process has ended with a non-zero code. Otherwise the cached state is returned and kept, including after exit code 0. |
| ServerProcess.CreateAndStopNewServer | tests/server_process.py:32-40 | A launch in a fresh directory whose output has a ready line reports RUNNING, and after `stop` reports OFF. |
| ServerProcess.DenyToCreateTwoServers | tests/server_process.py:42-51 | While the first server runs, a second launch raises `ServerAlreadyRunningError`. |
| ServerProcess.RelaunchAfterCrash | server_process.py:145-152 | A server that ends with a non-zero code reports OFF, and a new launch succeeds despite its stale lock. |

## Left out

- Real processes, pipes and `asyncio` scheduling. Spawning picks any unused PID. The
  output is a given sequence of lines, and the process's end is an explicit step
  with its exit code.
- The arguments passed to `java` (`-Xms`, `-Xmx`, the JAR file, `nogui`). They do
  not affect the supervisor's logic.
- Standard error. It is piped and never read.
- UTF-8 decoding of the output. Lines are modelled as already decoded, so the
  `UnicodeDecodeError` that invalid bytes would raise is not modelled.
- The regular-expression engine. Only the one pattern `Done \(.*\)!` is modelled: "Done
  (" and, later on the same line, ")!", with no line feed in between.
- PidText.ParseInt: does not model CPython's limit of 4300 digits on `int()` and
  `str()` (Python 3.11 and later). The model converts text of any length. A PID is far
  shorter than the limit.
- `int()` on non-ASCII digits. Python accepts them, but the model's `int()` accepts only
  '0' to '9'.
- The encoding of the lock file, and exceptions other than those listed in
  `Failure`. Examples are `PermissionError` on the lock file, `psutil.AccessDenied`,
  and a write to the standard input of a server that has exited.
- `psutil` itself. A process is identified by its name in the process table. The
  code's `p.name != "java"` is modelled as intended, as a comparison of the name
  (see Findings).
- `status` on a supervisor that never launched. In the source that raises
  `AttributeError`, because it has no `process`; the model's return code is then
  `None`.
- Races with other programs that use the same lock file between the check and
  the write. These are concurrency effects and are not modelled.
- `mcsrvctl.py`, the command-line wrapper, which is not part of this model.
- ServerProcess.NewServerProcess.AwaitReady: a server that keeps printing without ever
  becoming ready makes the source wait forever. The model's output is finite, so it
  always ends.
- The loop in `launch` leaves with `break` once the marker is seen. The model folds
  that exit into the loop condition, which behaves the same.

## Findings

| source | as written | input that shows it | evidently intended | confidence | as-written member | corrected member |
|---|---|---|---|---|---|---|
| server_process.py:43 | `p.name != "java"` compares the bound method `Process.name` (a method since psutil 2.0) with a string, so the comparison always holds | a lock naming the PID of the running "java" server: the check deletes the lock and returns `None`, so a second launch goes ahead, contrary to tests/server_process.py:42-49 | `p.name() != "java"`, which keeps the lock of a live "java" process and reports its PID | high for psutil 2.0 or later; not executed | ServerProcess.AsWrittenAdmitsSecondServer | ServerProcess.CheckLockOutcome |
