# config-reloader-sidecar, modelled in Dafny

The sidecar watches one or more configuration directories. Whenever a file in
them changes, it sends a reload signal (SIGHUP by default) to a target process.
The target is found either by executable name in the process table or through
a PID file. This project models the whole decision pipeline of `main.go`:

- startup validation of the environment (`CONFIG_DIR`, `PROCESS_NAME`,
  `PROCESS_PID_FILE`, `VERBOSE`, `RELOAD_SIGNAL`);
- splitting `CONFIG_DIR` on commas and registering each directory in order;
- the event loop, which drops events carrying the Chmod bit and makes one
  reload attempt for every other event;
- PID resolution (`findPID`, `pidFromFile`, `getPID`);
- `reloadProcess`, which resolves first and signals only after a successful
  resolution.

The collaborators become inputs:

- `unix.SignalNum` is a function `string -> int` (0 means unknown).
- `ps.Processes` is a `Listing`: a sequence of (executable, pid) pairs, or a
  failure.
- `os.ReadFile` is a function from path to `FileRead`: contents, or a failure.
- `syscall.Kill` is a function from (pid, signal) to success.
- `watcher.Add` is a predicate on directory names.

The watcher's two channels are merged into one sequence of items:
`Event(name, op) | TransportError | EventsClosed | ErrorsClosed`.

Files, one module each:

- `Wrappers.dfy`: `Option`.
- `Text.dfy`: the `strings.TrimSpace`, `strings.Split` (one-character
  separator) and `strconv.Atoi` that the source calls.
- `Configuration.dfy`: environment validation, the `ReloadTarget` sum type
  and the signal default.
- `Locator.dfy`: `findPID` (a method with its loop, beside a function that
  specifies it), `pidFromFile` and `getPID`.
- `Dispatcher.dfy`: `reloadProcess`.
- `ChangeFilter.dfy`: the Chmod filter and the event loop.
- `WatchSet.dfy`: the `Watcher` class, the registration loop and the startup
  sequence of `main`.

## Model

| member | source | states |
|---|---|---|
| Text.TrimLeft | main.go:116 | the result is a suffix of the input, everything removed is white space, and the result does not start with white space |
| Text.TrimRight | main.go:116 | the result is a prefix of the input, everything removed is white space, and the result does not end with white space |
| Text.TrimSpace | main.go:116 | the result neither starts nor ends with white space |
| Text.TrimSpaceDecomposes | main.go:116 | the input is the trimmed string with only white space on either side of it |
| Text.TrimSpaceOfPadded | main.go:116 | white space around any trimmed string is exactly what TrimSpace removes (so TrimSpace is determined) |
| Text.TrimSpaceEmpty | main.go:116-119 | TrimSpace gives "" if and only if the input is all white space |
| Text.IsSpaceLatin1 | main.go:116 | within Latin-1 a character is white space iff it is one of tab, newline, vertical tab, form feed, carriage return, space, NEL or NBSP |
| Text.TrimSpaceIgnoresPadding | main.go:116 | white space added around any string, trimmed or not, leaves its TrimSpace unchanged |
| Text.TrimSpaceIdempotent | main.go:116 | trimming twice is the same as trimming once |
| Text.Split | main.go:83 | there is one piece more than there are separators, and no piece contains the separator |
| Text.JoinSplit | main.go:83 | joining the pieces of Split with the separator gives back the original string |
| Text.SplitJoin | main.go:83 | splitting a join of separator-free pieces gives back those pieces, empty pieces included |
| Text.Atoi | main.go:121 | a parsed value lies in the 64-bit range and comes from a non-empty run of digits after an optional sign |
| Text.AtoiRejectsNonDigit | main.go:121-124 | any non-digit after the optional sign makes the parse fail |
| Text.FormatNat | main.go:121 | the decimal rendering used as the reference for Atoi is a non-empty run of digits |
| Text.DigitsValueOfFormat | main.go:121 | the digit value of a rendered natural number is that number |
| Text.AtoiFormatInt | main.go:121-126 | parsing the decimal rendering of any 64-bit integer, negative ones included, gives that integer |
| Text.AtoiPlusSign | main.go:121 | a leading '+' does not change the parse |
| Text.DigitsValueLeadingZeros | main.go:121 | leading zeros do not change the value of a digit string |
| Text.AtoiSignedDigits | main.go:121-126 | a sign, any run of leading zeros and the digits of n parse to the signed n when it fits in 64 bits, and are rejected otherwise ("007" and "+007" give 7, "9223372036854775808" fails) |
| Text.AtoiOneTwoThreeFour | main.go:121 | "1234" parses to 1234 |
| Text.AtoiFortyTwo | main.go:121 | "42" parses to 42 |
| Text.AtoiMinusFive | main.go:121 | "-5" parses to -5 |
| Configuration.Validate | main.go:17-47 | the configuration is accepted iff CONFIG_DIR is non-empty, exactly one of PROCESS_NAME and PROCESS_PID_FILE is non-empty, and RELOAD_SIGNAL is empty or names a known signal; an accepted configuration keeps CONFIG_DIR and a non-zero signal |
| Configuration.EmptyConfigDirFirst | main.go:17-20 | an empty CONFIG_DIR is the reported error, whatever the other variables hold |
| Configuration.TargetMustBeUnique | main.go:22-29 | setting both target variables is rejected as mutually exclusive, and setting neither is rejected as missing |
| Configuration.AcceptedTarget | main.go:22-29 | the target variant gives back exactly the two environment strings the reload path receives, and its string is non-empty |
| Configuration.SignalAndVerbose | main.go:31-47 | an empty RELOAD_SIGNAL yields SIGHUP; a known name yields its number; an unknown name (number 0) is fatal; verbose holds exactly for "true" |
| Locator.FirstMatch | main.go:100-105 | the index found is the first process whose executable equals the name, and None means no process matches |
| Locator.PidByName | main.go:94-108 | every failure (listing failure or no match) carries PID -1 |
| Locator.FindPid | main.go:94-108 | the scan returns what PidByName specifies; a listing failure gives -1 with ListFailure; it succeeds iff some process has the exact executable name |
| Locator.FirstMatchWins | main.go:100-105 | the PID found is the first match's, even when later processes share the executable name |
| Locator.PidFromFile | main.go:110-127 | a read failure gives -1 with ReadFailure; all-white-space content gives EmptyPidFile; it succeeds iff the trimmed content parses, and then the PID is the parsed value (no positivity check); every failure carries -1 |
| Locator.PidFilePaddingIrrelevant | main.go:110-127 | a file holding any content with white space around it gives the same result as a file holding the content alone, blank content included |
| Locator.PidFileIgnoresPadding | main.go:116-126 | white space around any trimmed, non-empty content gives the Atoi outcome of that content: its value on success, InvalidPid otherwise |
| Locator.PidFileTrimmed | main.go:110-127 | "  42\n" gives PID 42 |
| Locator.PidFileHolding1234 | main.go:110-127 | "1234" gives PID 1234 |
| Locator.PidFileNegative | main.go:121-126 | "-5" gives PID -5 |
| Locator.PidFileBlank | main.go:116-119 | a file holding only white space is reported as empty |
| Locator.PidFileNotNumeric | main.go:121-124 | "4 2" is rejected as not a valid integer |
| Locator.GetPid | main.go:129-134 | with a PID file configured the result is PidFromFile's for that file, otherwise PidByName's for the process name; a failed resolution carries PID -1 |
| Locator.GetPidConsults | main.go:129-134 | with a PID file configured, the result depends on neither the process name nor the process table; without one, it does not depend on any file |
| Dispatcher.ReloadProcess | main.go:136-150 | the reload succeeds iff resolution succeeds and the kill of the resolved PID with the configured signal succeeds; a resolution error is returned unchanged |
| Dispatcher.NoKillWithoutPid | main.go:142-145 | after a failed resolution the outcome does not depend on the kill primitive, so no signal is attempted |
| Dispatcher.KillFailureReported | main.go:147-150 | a failed kill is an error, never a success |
| Dispatcher.PidFileEndToEnd | main.go:129-158 | with PROCESS_PID_FILE naming a file that holds "1234" and RELOAD_SIGNAL unset, the validated settings make the reload send SIGHUP to PID 1234 |
| Dispatcher.MissingProcessEndToEnd | main.go:94-108 | a name that no process runs gives NoMatch, whatever the kill primitive would answer |
| ChangeFilter.Triggers | main.go:67 | an event triggers iff bit 4 (Chmod) of its mask is clear |
| ChangeFilter.FilterByChmodBit | main.go:67 | any mask with Chmod added (Write\|Chmod, say) never triggers, any mask with Chmod cleared does; Create, Write, Remove and Rename alone each trigger |
| ChangeFilter.Reload | main.go:69 | the reload for an event is reloadProcess with the validated process name and an empty PID file for a by-name target, or an empty name and the validated PID file for a by-file target, and the validated signal |
| ChangeFilter.StopIndex | main.go:58-79 | no item before the stop position is a close, and the item at it is a close unless there was none |
| ChangeFilter.ReloadIndices | main.go:64-73 | the positions listed are exactly the triggering events, strictly increasing |
| ChangeFilter.Drain | main.go:58-80 | the loop stops at the first close of either channel and not before; the k-th reload attempt is the reload for the k-th triggering event before it, so transport errors and failed reloads never stop the loop |
| ChangeFilter.StopIndexAtFirstClose | main.go:60-77 | the stop position is the position of the first close, or the length when there is none |
| ChangeFilter.NothingAfterClose | main.go:60-63 | for items before + [close] + after, the stop position is the close and the reloads attempted are exactly those for the triggering events of before, whatever after holds |
| ChangeFilter.ReloadedExactlyOnce | main.go:64-73 | an event is reloaded iff its mask lacks the Chmod bit, and then by exactly one attempt |
| WatchSet.Watcher.constructor | main.go:50 | a new watcher watches nothing |
| WatchSet.Watcher.Add | main.go:85 | a directory joins the watch list exactly when it is accepted |
| WatchSet.FirstRejected | main.go:84-89 | every directory before the position is accepted, and the one at it is not |
| WatchSet.FirstRejectedAt | main.go:84-89 | the first rejected position is the one where registration first fails |
| WatchSet.RegisterAll | main.go:83-89 | registration succeeds iff every directory is accepted; the watch list gains, in order, exactly the directories before the first failure |
| WatchSet.ConfigDirPieces | main.go:83 | CONFIG_DIR splits into (number of commas + 1) comma-free pieces, possibly empty, which join back to CONFIG_DIR |
| WatchSet.Start | main.go:17-89 | a configuration error ends startup with no watcher; otherwise the pieces of CONFIG_DIR are added in order up to the first failing one, which is then fatal, and startup reaches running only when all are added |

## Left out

- Watcher creation and closing are left out: `fsnotify.NewWatcher` failing (main.go:50-53), `defer watcher.Close()` and the `done` channel are library plumbing. The goroutine, and the fact that it starts before registration, are concurrency. The loop runs over one merged sequence of items instead.
- The `select` in the loop chooses between ready channels nondeterministically. The model takes one interleaving as given (the item sequence) and does not model the choice.
- Log messages, including the verbose per-event line, are observational and left out. `VERBOSE` is validated and stored but affects nothing else.
- `log.Fatal` ending the process is represented by the `Rejected`, `ConfigFailed` and `WatchFailed` results.
- Foreign calls are parameters with no behaviour of their own: `os.Getenv`, `os.ReadFile`, `ps.Processes`, `syscall.Kill`, `unix.SignalNum` and `watcher.Add`. These include the concrete signal table, what `Kill` does with PID 0 or a negative PID (a process group), and the errno text of a failed kill.
- Text.TrimSpace: works on code points. Go first decodes the file's bytes as UTF-8; invalid byte sequences are not modelled.
- Text.Atoi: models `strconv.Atoi` on a 64-bit platform as a sign, then digits, then a check that the value fits in 64 bits. The error value Go returns alongside (0, or a clamped value) is not modelled, because `pidFromFile` replaces it with -1.
- Error values are datatypes, not Go's formatted error strings.
- WatchSet.Watcher.Add: appends even a directory that is already watched. fsnotify treats a second `Add` of the same path as harmless, and the model does not deduplicate.
