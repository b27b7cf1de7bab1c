# docker-build glue, modelled in Dafny

This project models the helper modules of a command-line tool. The tool builds
Docker images by sending a build context to the Docker daemon. The modelled
parts are:

- **GenericOptions** (`generic_options.dfy`, from `src/generic-options.js`).
  It turns option values into command-line arguments: a simple option, a
  boolean switch, a repeated list option and a `key=value` map option. Each
  builder has a partner parser (`Unflag`, `IsSet`, `Unassign`), and round-trip
  lemmas tie the two together.
- **ErrorHandler** (`error_handler.dfy`, from `src/error-handler.js`).
  - `ExitCodesErrorMapper` maps three case-insensitive regular expressions to
    the exit codes 11, 12 and 13.
  - `handleError` walks the table in insertion order and keeps the code of the
    last matching entry, or 1 when nothing matches.
  - The regular expressions are written out as predicates over the message.
    `.` stops at the four JavaScript line terminators. With `i` and without
    `u`, non-ASCII characters never fold onto ASCII letters, so for these
    ASCII-only patterns folding ASCII letters decides the match.
- **Printer** (`printer.dfy`, from `src/printer.js`).
  - `printResponse` echoes a Docker build response and remembers in `done`
    how the promise will settle.
  - `ResponsePrinter` is a class whose fields are the output written so far,
    `done` and the settled outcome.
  - `OnData` and `OnEnd` are the two event handlers. `PrintResponse` runs them
    over a whole response.
- **ProgressReader** (`progress_reader.dfy`, from `src/progress-reader.js`).
  - The pass-through stream is a class with `bytes` and `lastMessageLength`.
  - Ghost state records the chunks seen and the terminal line, so the
    padding of `printProgress` can be proved to cover the previous message.
- **Registries** (`registries.dfy`, from `src/registries.js`).
  - `registryConfigOption` runs one `docker login` per registry, one after
    the other.
  - The method records what it does as a trace of spawn, exit and warning
    events. The lemmas prove these properties of the trace:
    - one login per registry, in order
    - quiet `docker` calls
    - at most one login running at a time
    - one warning per failed login

`optional.dfy` holds the shared `Option` datatype.

## Model

| member | source | states |
|---|---|---|
| GenericOptions.Flag | src/generic-options.js:3-4 | the flag is the prefix followed by the name, both kept verbatim |
| GenericOptions.SimpleOption | src/generic-options.js:3-6 | the simple builder; its contract is `SimpleOptionRoundTrip` |
| GenericOptions.BooleanOption | src/generic-options.js:8-11 | the boolean builder; its contract is `BooleanOptionSetIff` |
| GenericOptions.ListOption | src/generic-options.js:19-23 | a list option has exactly two arguments per item; contents and read-back are `ListOptionShape` and `ListOptionRoundTrip` |
| GenericOptions.MapOption | src/generic-options.js:13-17 | a map option has exactly two arguments per entry; contents and read-back are `MapOptionShape` and `MapOptionRoundTrip` |
| GenericOptions.SimpleOptionRoundTrip | src/generic-options.js:3-6 | a simple option is `[prefix+name, value]`, `--` by default, and parsing the flag back yields exactly `[value]` |
| GenericOptions.BooleanOptionSetIff | src/generic-options.js:8-11 | the flag is present in the arguments if and only if the value is true; false emits nothing |
| GenericOptions.ListOptionShape | src/generic-options.js:19-23 | a list option has twice as many arguments as items: the flag at every even index, item k at index 2k+1 |
| GenericOptions.ListOptionAppend | src/generic-options.js:21-22 | the arguments of a concatenated list are the concatenation of the arguments of its parts |
| GenericOptions.ListOptionRoundTrip | src/generic-options.js:19-23 | parsing the flag back out of a list option recovers the list exactly, order and duplicates included |
| GenericOptions.EmptyCollectionsEmitNothing | src/generic-options.js:13-23 | an empty list or an empty map emits no arguments at all, not even the flag |
| GenericOptions.MapOptionIsListOfAssignments | src/generic-options.js:13-17 | a map option is the list option over the `key=value` texts of its entries, in key order |
| GenericOptions.MapOptionShape | src/generic-options.js:13-17 | a map option has the flag at every even index and `key=value` of entry k at index 2k+1 |
| GenericOptions.SplitAssignmentInverse | src/generic-options.js:16 | splitting `key=value` at its first `=` recovers the entry when the key has no `=` |
| GenericOptions.MapOptionRoundTrip | src/generic-options.js:13-17 | when no key contains `=`, parsing a map option back recovers every entry in order |
| ErrorHandler.Matches | src/error-handler.js:16-18 | the `test` of one table expression on the message; its contract is `MatchesIgnoresCase`, and the examples show each expression matching its test message |
| ErrorHandler.ExitCodeFor | src/error-handler.js:26-32 | the exit code `handleError` settles on; its contract is `ExitCodeDecision` and `ExitCodeRange` |
| ErrorHandler.HandleError | src/error-handler.js:26-36 | the exit code is the code of the last table entry whose expression matches the message, 1 if none; the message is written followed by a line break |
| ErrorHandler.LastMatchWithoutMatch | src/error-handler.js:27-32 | with no matching entry the exit code stays at its initial value |
| ErrorHandler.LastMatchIsLastMatchingEntry | src/error-handler.js:27-32 | the result is the code of the last matching entry, whatever earlier entries match |
| ErrorHandler.ExitCodeDecision | src/error-handler.js:14-32 | 13 if the failed-command expression matches, else 12 if "unknown instruction" matches, else 11 if "cannot locate specified Dockerfile" matches, else 1 |
| ErrorHandler.ExitCodeRange | src/error-handler.js:14-27 | the exit code is always one of 1, 11, 12, 13 |
| ErrorHandler.MatchesIgnoresCase | src/error-handler.js:16-18 | with the `i` flag, every expression matches two messages that differ only in ASCII letter case alike |
| ErrorHandler.ExitCodeIgnoresCase | src/error-handler.js:16-18 | messages differing only in ASCII letter case get the same exit code |
| ErrorHandler.FailedCommandHasOpening | src/error-handler.js:18 | a message matching the failed-command expression contains its opening `The command '` |
| ErrorHandler.MissingDockerfileExample | src/error-handler.spec.js:38-45 | "Cannot locate specified Dockerfile: dockerfile2" gives exit code 11 |
| ErrorHandler.UnknownInstructionExample | src/error-handler.spec.js:47-54 | "Unknown instruction: JUMP" gives exit code 12 |
| ErrorHandler.FailedCommandExample | src/error-handler.spec.js:56-63 | "The command '/bin/sh -c exit 2' returned a non-zero code: 2" gives exit code 13 |
| ErrorHandler.UnknownErrorExample | src/error-handler.spec.js:65-72 | "Unknown Error" gives exit code 1 |
| Printer.Echo | src/printer.js:27-30 | what one data event writes; its contract is `DispatchPriority` |
| Printer.Step | src/printer.js:31-35 | how one data event changes `done`; its contract is `DispatchPriority` and `PendingIsLastDecisive` |
| Printer.Settle | src/printer.js:32-34 | how `done()` settles the promise at the end; its contract is `ResponsePrinter.OnEnd`, which throws exactly when `Settle` has no outcome |
| Printer.ResponsePrinter.constructor | src/printer.js:21-22 | nothing written yet, `done` is `resolve`, and the promise is unsettled |
| Printer.ResponsePrinter.OnData | src/printer.js:24-36 | a data event appends its echo to the output, updates `done` by the dispatch, and never settles the promise |
| Printer.ResponsePrinter.OnEnd | src/printer.js:38-41 | the end event writes a line break and settles the promise once, as `done` says; it throws exactly when `done` dereferences a missing `errorDetail` |
| Printer.PrintResponse | src/printer.js:21-42 | over a whole response, the output is the echoes of all messages followed by one line break, and the outcome is what `done` held after the last message |
| Printer.DispatchPriority | src/printer.js:27-35 | `stream` wins over `status`, which wins over `error`; echoing messages leave `done` alone; a message with neither replaces `done` with a rejection and writes nothing |
| Printer.WrittenAppend | src/printer.js:24-36 | the output of two runs of messages is the output of each, in order |
| Printer.WrittenAfterDecisive | src/printer.js:31-35 | an error or unparsed message adds nothing to the output |
| Printer.PendingWithoutDecisive | src/printer.js:22 | a response without error or unparsed messages leaves `done` as `resolve` |
| Printer.PendingIsLastDecisive | src/printer.js:31-34 | the rejection held at the end is the one of the last error or unparsed message; earlier ones are overwritten |
| Printer.ErrorResponseExample | src/printer.spec.js:57-75 | a "Hello World" stream followed by an error with detail "Test Error Message" prints the greeting and rejects with that detail |
| ProgressReader.ProgressReader.constructor | src/progress-reader.js:8-11 | the byte count and the last message length start at 0 |
| ProgressReader.ProgressReader.Transform | src/progress-reader.js:22-30 | the chunk is passed on unchanged and its length is added to `bytes`, which stays the total length of all chunks seen |
| ProgressReader.ProgressReader.PrintProgress | src/progress-reader.js:38-47 | writes `\r`, the message and padding; remembers the message length; afterwards the terminal line shows the new message followed only by blanks |
| ProgressReader.Spaces | src/progress-reader.js:42 | the padding has the requested length and consists of spaces only |
| ProgressReader.ProgressLine | src/progress-reader.js:39-46 | the written line starts with the message, is as long as the longer of the message and the previous message, and the rest is spaces |
| ProgressReader.ProgressLineCoversPrevious | src/progress-reader.js:38-47 | after a line showing only the previous message, writing the padded new one leaves a line showing only the new message |
| ProgressReader.UnpaddedLeavesResidue | src/progress-reader.js:39-43 | without the padding, a shorter message would leave characters of the previous one visible |
| ProgressReader.TotalLengthAppend | src/progress-reader.js:22-27 | byte counts add up over concatenated runs of chunks |
| ProgressReader.PassThrough | src/progress-reader.spec.js:32-41 | a stream of chunks comes out unchanged and the count is their total length |
| Registries.RegistryConfigOption | src/registries.js:12-36 | the result is an empty argument list, and the events are those of one login step per registry in key order |
| Registries.LoginArgs | src/registries.js:18-22 | the login arguments always identify their registry and credentials; the registry URL is left out exactly for Docker Hub, and otherwise it is the second argument |
| Registries.OneLoginPerRegistry | src/registries.js:13-32 | exactly one spawn per registry, the k-th for the k-th registry, whatever the exit codes; the warnings are those owed for the failures; none is left running |
| Registries.LoginsUseDockerQuietly | src/registries.js:25 | every spawn runs `docker` with stdio ignored |
| Registries.LoginsAreSequential | src/registries.js:14-33 | at every point of the trace at most one login is running |
| Registries.WarningsForFailures | src/registries.js:27-31 | there are as many warnings as logins whose exit code is not 0, a null code included |

## Left out

- `src/packer.js` (`pack`, `getIgnoreFile`) is not part of this model. It hands the ignore decision to the `ignore` library and the archive to `tar-fs`. Neither library is in this repository. The glob, negation and last-match-wins engine for ignore files is that library's code, not this repository's.
- `src/main.js`, `index.js`, `src/chalk-spreader.js` and `gulpfile.js` are not part of this model. They hold command wiring, process spawning and build tasks.
- JSON parsing in `printResponse` is left out. Messages arrive already parsed. A chunk that is not valid JSON would throw inside the handler, and that path is not modelled.
- Colouring with `chalk` is left out. The written text is modelled without escape codes.
- The `setInterval` timer, `_flush` and the `bytes` size formatting in `progress-reader.js` are left out. They are timing and formatting around `printProgress`, which is modelled.
- ProgressReader.ProgressReader.Transform: only buffer chunks are modelled. `Buffer.byteLength` of a string chunk in a given encoding is not modelled.
- ErrorHandler.HandleError: the exit code is returned rather than assigned to `process.exitCode`. The `lastIndex` state that the `g` flag gives a shared `RegExp` across calls is not modelled, so every call matches from the start of the message.
- Lengths are counted in Dafny characters, not UTF-16 code units as JavaScript's `.length` counts them.
- Object key order is the order of the entry sequences passed to `MapOption` and `RegistryConfigOption`.
- Truthiness is modelled on strings: `stream` and `status` are absent exactly when empty. Non-string field values are left out.
- Option values are modelled as strings or `bool`, and credentials as a `Credentials` record. Three JavaScript behaviours are therefore not modelled. An array item given to `listOption` is spread by `concat` (src/generic-options.js:22), so it yields more than two arguments. `booleanOption` accepts any truthy value, not only `true` (src/generic-options.js:10). A registry mapped to a missing credentials object throws at `credentials.username` (src/registries.js:17); the chain then rejects and the remaining logins never run, while `RegistryConfigOption` always returns `[]`.
- Registries.RegistryConfigOption: `spawn` and its `exit` event are replaced by exit codes supplied in advance. A `null` code is `None`. Process start-up failures, which emit `error` instead of `exit`, are not modelled.
- Printer.ResponsePrinter.OnEnd: a rejection carrying a missing `errorDetail` is modelled as the handler throwing with the promise left unsettled. The `CFError` object itself is reduced to its message.
