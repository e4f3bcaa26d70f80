# reproto for VS Code — a Dafny model of the extension's core

The reproto extension for Visual Studio Code finds a `reproto` compiler on the
machine, asks it for its version and picks an integration from that version. The
"simple" integration runs `reproto --output-format json build` in the workspace folder
each time a `.reproto` document is saved. It reads the JSON records the build prints,
one per line, and publishes the `diagnostics` records as editor problems. On a
successful build it also stores the `symbol` records in a symbol index, which answers
document-symbol and workspace-symbol queries. When no compiler is found, the
extension reports where it looked, and it can install a release under the user's
home directory.

This project models that core in Dafny and proves properties of the model:

| file | models |
|---|---|
| `wrappers.dfy` | `Option` and `Result` |
| `text.dfy` | the JavaScript string operations the core relies on: `trim`, ASCII `toLowerCase`, `indexOf`, `split` on a character class and on runs of one, `parseInt` (with NaN), `String(n)` |
| `lines.dfy` | the newline-splitting stdout buffer that the builder and the logged runner share, and the two ways they treat a line that is not JSON |
| `paths.dfy` | POSIX `path.join`, `path.dirname` and `path.extname` |
| `editor.dfy` | the editor values (URIs, ranges, diagnostics, symbols) and the two editor objects updated in place: the diagnostic collection and the output channel |
| `protocol.dfy` | the JSON records of the compiler and how a record becomes a diagnostic or a symbol |
| `symbol_provider.dfy` | `ReprotoSymbolProvider`, the symbol index |
| `builder.dfy` | `ReprotoBuilder`: one build session with its line buffer and what it gathers, and publication on exit |
| `toolchain.dfy` | `Reproto`: the logged run (`executeLogged`), the captured run (`execute`), `version`, `init` and `toString` |
| `install.dfy` | platform/arch/executable names, the release index, `makeDirs` and the installation layout |
| `extension.dfy` | candidate discovery, choosing the executable, reading the version, choosing the integration and activation |

The source is event-driven. Here each event handler is a method on a class whose
fields are the closure's variables: `BuildSession.OnData`, `OnStderr`, `OnExit`;
`LoggedRun.OnData`, `OnClose`; `CaptureRun.OnData`, `OnClose`. A whole run
(`RunBuild`, `RunLogged`, `RunCapture`) feeds the standard output in arbitrary chunks
and then delivers the exit. Its contract is stated in terms of the complete text,
whatever the chunking. Outside facts are parameters:

- the JSON parser: `parse: string -> Option<Record>`, where `None` means `JSON.parse` throws;
- `fs.existsSync`: `present: string -> bool`;
- `workspace.getWorkspaceFolder`: `folderOf`;
- the environment variables: `Env`, `InstallEnv`;
- `process.platform` and `process.arch`: strings;
- the user configuration: `Config`;
- the settled promise of `reproto.version()`: an `Outcome`;
- the exit status: `Option<int>`, where `None` means killed by a signal.

Some of what the code does is easy to misread; the model follows the code:

- The configured `reproto.executable` is used only if the file exists. The existence check applies to it like to every other candidate (`extension.ts:61-71`).
- A version word whose first number is not a number still gives a version. Its first component is NaN and is not `null` (`extension.ts:83-95`). `Extension.ParseVersionNaN` states this.
- A stdout line that is not JSON in `executeLogged` rejects the run at once. The lines after it are still handled and logged (`reproto.ts:39-47, 59`).
- In the builder, a stdout line that is not JSON throws out of the data handler before the buffer moves past it. That line then blocks every later line of the build (`reproto_simple.ts:177-179`).
- On exit, `diagnostics.clear()` removes the problems of every folder, not only those of the folder that was built (`reproto_simple.ts:188`).
- `hasError` is never set, so the output channel is never shown (`reproto_simple.ts:81, 195-197`).
- The version threshold compares each component on its own, so 0.4.0 and 1.0.0 get the default type while 0.3.35 gets the language client (`extension.ts:122`).
- `$REPROTO_HOME` pushes two candidates: the directory itself, then the bare executable name. `path.join` is closed before `exe` (`extension.ts:29`).

## Model

| member | source | states |
|---|---|---|
| Protocol.KindOfAgrees | src/reproto_simple.ts:110-130 | the `switch` gives, for each wire name the enum defines, the editor kind of that enum member, and Constant for every other name |
| Protocol.EnumIsCapitalised | src/reproto_simple.ts:18-24 | only the capitalised wire name "Enum" becomes an enum symbol; "enum" falls through to Constant |
| Protocol.ValueInjective | src/reproto_simple.ts:18-24 | no two enum members share a wire name |
| Protocol.DiagnosticOf | src/reproto_simple.ts:87-93 | a diagnostics record becomes an error with the record's message, spanning the reported start and end positions |
| Protocol.SymbolOf | src/reproto_simple.ts:102-137 | a symbol record becomes a symbol with its name, its package as container, the kind from the switch, located at the reported range of the file it names |
| Builder.Push | src/reproto_simple.ts:95-99 | appending under a key starts a one-element list for a new key and extends the list of an existing key, leaving every other key alone |
| Builder.GatherSpec | src/reproto_simple.ts:83-161 | after routing a sequence of records, every path with a diagnostic maps to its diagnostics in arrival order (and only such paths), the symbol list is every symbol in arrival order, and every document with a symbol maps to its symbols in arrival order; other records are ignored |
| Builder.GatheredDiagnosticsAreErrors | src/reproto_simple.ts:93 | every gathered diagnostic has severity Error |
| Builder.DiagnosticEntriesSpec | src/reproto_simple.ts:190-193 | the collection gets, under the folder joined with each reported path, exactly that path's diagnostics, and holds no other document |
| Builder.DiagnosticEntriesAdd | src/reproto_simple.ts:190-193 | publishing one more reported path adds exactly that document's entry |
| Builder.BuildCommand | src/reproto_simple.ts:163-165 | the build runs the configured executable with `--output-format json build` in the folder |
| Builder.AccountedStep | src/reproto_simple.ts:171-179 | routing the first complete line keeps the invariant: handled lines plus buffer are the output received, each handled line parses to its routed record, and the gathered state is what those records gather |
| Builder.BuildSession.constructor | src/reproto_simple.ts:80-85 | a session starts with an empty buffer and nothing gathered |
| Builder.BuildSession.HandleDiagnostics | src/reproto_simple.ts:87-100 | the record's diagnostic is appended to its path's list; the symbol state is unchanged |
| Builder.BuildSession.HandleSymbol | src/reproto_simple.ts:102-148 | the record's symbol is appended to the symbol list and to its document's list; the diagnostics are unchanged |
| Builder.BuildSession.Message | src/reproto_simple.ts:151-161 | the gathered state advances by one routing step of the record |
| Builder.BuildSession.OnData | src/reproto_simple.ts:167-181 | a chunk routes complete lines in order and keeps the invariant; the handler throws exactly when a complete line that does not parse is left in the buffer |
| Builder.BuildSession.RouteLine | src/reproto_simple.ts:171-179 | taking the first complete line off the buffer routes its record and keeps the invariant |
| Builder.BuildSession.RoutedPrefix | src/reproto_simple.ts:167-181 | the records routed so far are exactly those of the complete lines received before the first line that does not parse, and the buffer holds a complete line exactly when such a line stopped the routing |
| Builder.BuildSession.OnStderr | src/reproto_simple.ts:183-185 | standard error is appended to the output channel verbatim |
| Builder.BuildSession.PublishDiagnostics | src/reproto_simple.ts:188-193 | the collection is cleared and then holds exactly the reported paths' diagnostics under the folder |
| Builder.BuildSession.PublishSymbols | src/reproto_simple.ts:199-205 | the folder's symbols are replaced by the symbol list, each reported document's symbols by its list, other entries untouched, and the index stays well-formed |
| Builder.BuildSession.OnExit | src/reproto_simple.ts:187-208 | diagnostics are always published; on status 0 the symbols replace the folder's and the documents' symbols, otherwise the index is untouched; the symbol list is emptied |
| Builder.ReprotoBuilder.constructor | src/reproto_simple.ts:40-50 | the builder keeps the handle, the index, the channel and the collection it is given |
| Builder.ReprotoBuilder.BuildWorkspace | src/reproto_simple.ts:74-165 | a session starts exactly when `reproto.toml` exists directly in the folder, and it reads the output of the build command for that folder |
| Builder.ReprotoBuilder.Rebuild | src/reproto_simple.ts:57-72 | a build starts exactly when the saved document's extension is `.reproto`, it lies in a workspace folder and that folder has a manifest |
| Builder.RunBuild | src/reproto_simple.ts:74-209 | however the output is chunked, the published diagnostics are those of the records before the first unparsable line; on status 0 their symbols replace the folder's and documents' symbols, the folder keeping its place in the folder order or going last if new; otherwise the index, folder order included, is untouched |
| SymbolIndex.SearchMembers | src/reproto_symbol_provider.ts:25-33 | a symbol is a workspace-query result exactly when it is stored and its lower-cased name contains the lower-cased query |
| SymbolIndex.SearchEmpty | src/reproto_symbol_provider.ts:25-33 | the empty query returns every stored symbol |
| SymbolIndex.SearchAppend | src/reproto_symbol_provider.ts:27-34 | searching the roots one after another concatenates the results of each root |
| SymbolIndex.SearchSubsequence | src/reproto_symbol_provider.ts:27-34 | the results keep the stored order, with non-matching symbols left out |
| SymbolIndex.SymbolProvider.constructor | src/reproto_symbol_provider.ts:7-10 | a new index knows no symbols |
| SymbolIndex.SymbolProvider.SetSymbols | src/reproto_simple.ts:200 | assigning a folder's symbols replaces that entry; a new folder is enumerated last, an existing one keeps its place |
| SymbolIndex.SymbolProvider.SetDocumentSymbols | src/reproto_simple.ts:203 | assigning a document's symbols replaces that entry only |
| SymbolIndex.SymbolProvider.ProvideDocumentSymbols | src/reproto_symbol_provider.ts:12-17 | a document's stored symbols, or none when it has no entry |
| SymbolIndex.SymbolProvider.ProvideWorkspaceSymbols | src/reproto_symbol_provider.ts:19-37 | the loop returns the search of all stored symbols, folder after folder in enumeration order |
| Toolchain.Reproto.ToString | src/reproto.ts:114-116 | a handle prints as its executable path |
| Toolchain.Reproto.VersionCommand | src/reproto.ts:106-108 | `version` runs `--version` in the handle's directory |
| Toolchain.Reproto.InitCommand | src/reproto.ts:110-112 | `init` runs `--output-format json init` in the handle's directory |
| Toolchain.Settle | src/reproto.ts:22 | a promise settles once: the first settlement stands |
| Toolchain.ExitOutcome | src/reproto.ts:61-71 | the exit resolves exactly on status 0, and otherwise rejects with the status |
| Toolchain.LogLinesSpec | src/reproto.ts:53-57 | exactly the "log" records produce a line, "level: message" |
| Toolchain.LogLinesAppend | src/reproto.ts:53-57 | the log of two record streams is the log of each in turn |
| Toolchain.LogStep | src/reproto.ts:39-49 | one more line extends the log by its line if it is a "log" record, and breaks "every line parsed" exactly if it is not JSON |
| Toolchain.LogAppend | src/reproto.ts:29-57 | the log of two runs of lines is the log of each in turn |
| Toolchain.LoggedRun.constructor | src/reproto.ts:22-27 | a run starts with an empty buffer, nothing handled and no settlement |
| Toolchain.LoggedRun.OnData | src/reproto.ts:29-51 | a chunk handles every line it completes: the channel gains the "log" records' lines and the run is rejected if one of those lines is not JSON |
| Toolchain.LoggedRun.NextLine | src/reproto.ts:33-49 | handling the first complete line keeps the framing and the log and shortens the buffer |
| Toolchain.LoggedRun.HandleLine | src/reproto.ts:39-49 | the line leaves the buffer before parsing; it is logged if it is a "log" record, and rejects the run if it is not JSON |
| Toolchain.LoggedRun.OnClose | src/reproto.ts:61-71 | the exit settles the run unless a bad line already rejected it |
| Toolchain.RunLogged | src/reproto.ts:16-73 | however the output is chunked, the channel gains one line per "log" record among the complete lines, and the run resolves exactly when every complete line is JSON and the status is 0 |
| Toolchain.CaptureRun.OnData | src/reproto.ts:88-91 | standard output is appended to the buffer |
| Toolchain.CaptureRun.OnClose | src/reproto.ts:93-99 | the exit resolves with the buffer on status 0 and rejects otherwise |
| Toolchain.RunCapture | src/reproto.ts:80-101 | a captured run resolves with the whole output, whatever the chunking, exactly on status 0 |
| Toolchain.Version | src/reproto.ts:106-108 | the version is the captured output trimmed, and a failure passes through |
| Toolchain.VersionTrims | src/reproto.ts:106-108 | output printed with surrounding whitespace is read as the line itself |
| Lines.SplitLines | src/reproto.ts:29-51 | the complete lines and the unterminated rest rebuild the text, and no line or rest holds a newline |
| Lines.SplitLinesUnique | src/reproto_simple.ts:167-181 | lines followed by a rest, none holding a newline, split back into exactly those lines and rest |
| Lines.SplitLinesAppend | src/reproto_simple.ts:167-181 | the lines of `a + b` are the lines of `a`, then those of `a`'s rest followed by `b` |
| Lines.FeedAllSplits | src/reproto_simple.ts:167-181 | feeding chunks to the line buffer yields the lines and rest of their concatenation |
| Lines.ChunkingInvariant | src/reproto.ts:29-51 | two chunkings of the same output yield the same lines and buffer |
| Lines.ParsedPrefixSpec | src/reproto_simple.ts:177-179 | a reader that stops at a bad line hands on the records of the first lines, and stops exactly at a line that does not parse |
| Lines.ParsedPrefixUnique | src/reproto_simple.ts:177-179 | those are the only records with that property |
| Lines.MalformedLineStalls | src/reproto_simple.ts:177-179 | one malformed line hides every later line from the builder |
| Lines.DecodedAppend | src/reproto.ts:39-49 | the records of two runs of lines are the records of each in turn |
| Lines.MalformedLineSkipped | src/reproto.ts:42-47 | a malformed line in `executeLogged` is skipped; the lines around it are handled as if it were absent |
| Lines.DecodedCount | src/reproto.ts:39-49 | each line gives at most one record, and none is lost exactly when every line parses |
| Lines.AllParseIff | src/reproto.ts:42-47 | "every line parses" means each line parses |
| Lines.AllParseAppend | src/reproto.ts:42-47 | every line of `a + b` parses exactly when every line of each does |
| Lines.DecodedAllParse | src/reproto.ts:39-49 | when every line parses, the records are those of the lines, one for one |
| Lines.ReadersAgree | src/reproto_simple.ts:177-179 | the builder's stopping reader and the skipping reader of `executeLogged` agree when every line parses, and the stopping one falls short otherwise |
| Lines.SplitAfterHandled | src/reproto_simple.ts:167-181 | handled lines followed by a buffer split into those lines, then the buffer's lines |
| Lines.FirstLine | src/reproto_simple.ts:171-177 | the buffer holds a complete line exactly when it holds a newline, and the first line is the text before the first newline |
| Lines.StoppedReader | src/reproto_simple.ts:167-181 | a buffer whose first line does not parse, after lines that did, means the records routed are the stopping reader's records of the whole output |
| Text.TrimStart | src/reproto.ts:107 | drops exactly the leading white space |
| Text.TrimEnd | src/reproto.ts:107 | drops exactly the trailing white space |
| Text.Trim | src/reproto.ts:107 | the result neither starts nor ends with white space |
| Text.TrimPadded | src/reproto.ts:107 | trimming an unpadded core with white space around it gives that core |
| Text.TrimIdempotent | src/install.ts:68 | trimming twice trims once, and trimming unpadded text changes nothing |
| Text.ToLower | src/reproto_symbol_provider.ts:25-29 | lower-casing keeps the length |
| Text.IndexOfChar | src/reproto_simple.ts:171 | the first position of a character, or -1 exactly when it is absent |
| Text.IndexOf | src/reproto_symbol_provider.ts:29 | the first position of a substring, or -1 exactly when it does not occur |
| Text.IndexOfEmpty | src/reproto_symbol_provider.ts:29 | the empty query occurs at position 0 of every name |
| Text.FirstWhere | src/extension.ts:86 | the first position satisfying a predicate, or -1 exactly when there is none |
| Text.SkipWhere | src/extension.ts:83 | drops exactly the leading characters that satisfy a predicate |
| Text.Split | src/extension.ts:86 | `split` on a character class gives at least one piece, none holding a separator |
| Text.SplitCons | src/extension.ts:86 | text before the first separator is the first piece |
| Text.SplitWhole | src/install.ts:62 | text without a separator splits into itself |
| Text.SplitRunsCons | src/extension.ts:83 | a run of separators after a separator-free word splits off that word |
| Text.DigitRun | src/extension.ts:89-91 | the longest prefix of digits |
| Text.ParseIntDec | src/extension.ts:89-91 | `parseInt` reads back exactly what `String(n)` wrote |
| Text.ParseIntNoDigits | src/extension.ts:89-91 | `parseInt` of text that starts with neither white space, a sign nor a digit is NaN |
| Text.DecValue | src/extension.ts:93 | `String(n)` is a string of decimal digits denoting `n` |
| Paths.Join | src/install.ts:106-121 | a join is never empty |
| Paths.JoinInjective | src/reproto_simple.ts:191 | the modelled, non-normalising join onto a non-empty folder sends different names to different paths |
| Paths.Dirname | src/install.ts:82 | `dirname` is never empty, and shortens every path except "." and "/" |
| Paths.DirnameOfJoin | src/install.ts:119-121 | the parent of `dir/name` is `dir` |
| Paths.LastIndexOfChar | src/reproto_simple.ts:58 | the last position of a character, or -1 exactly when it is absent |
| Paths.ExtNameReproto | src/reproto_simple.ts:58-62 | a document has extension ".reproto" exactly when its path ends in ".reproto" preceded by a character that is not a separator |
| Paths.ExtNameOfSuffix | src/reproto_simple.ts:58 | a path ending in a non-separator followed by an extension has that extension |
| Paths.SuffixOfExtName | src/reproto_simple.ts:58 | conversely, a path with an extension ends in a non-separator followed by it |
| Install.GetPlatform | src/install.ts:11-22 | linux, darwin and win32 map to linux, osx and windows, each to its own; every other platform fails with "unsupported platform: <platform>" |
| Install.GetArch | src/install.ts:24-31 | only x64 is supported, as x86_64 |
| Install.GetExe | src/install.ts:33-40 | `reproto.exe` on windows, `reproto` otherwise |
| Install.GetPlatformInjective | src/install.ts:11-22 | no two platforms share a release name |
| Install.ExeOnWindows | src/install.ts:33-40 | the executable has the Windows suffix exactly on win32 |
| Install.ReleaseVersion | src/install.ts:60-70 | the release is unpadded and holds no newline |
| Install.ReleaseVersionFirstLine | src/install.ts:60-70 | an index whose first line names a release, padded, yields that release |
| Install.ReleaseVersionOneLine | src/install.ts:60-70 | an index without any newline yields the whole index, trimmed |
| Install.TrimInside | src/install.ts:68 | trimming introduces no character that was absent |
| Install.MakeDirs | src/install.ts:72-94 | the directories created are exactly the missing ancestors of the target, outermost first, ending with the target, and nothing is created when the target exists |
| Install.DirnameClimbs | src/install.ts:76-87 | every step up the tree shortens the climb, except at "." and "/" |
| Install.InstallLayout | src/install.ts:99-121 | the layout exists exactly when HOME is set, the platform and the arch are supported; without HOME it fails with the source's message |
| Install.InstallLayoutPaths | src/install.ts:100-121 | the data home is `$XDG_DATA_HOME` or `$HOME/.local/share`, the bin home `$HOME/.local/bin`, and the tuple, releases directory, archive and binary are built from them as the source writes them |
| Install.InstallLayoutParents | src/install.ts:119-124 | the binary lies directly in the bin home and, for a version without '/', the archive directly in the releases directory |
| Extension.Displays | src/extension.ts:18-56 | discovery describes five rules |
| Extension.CandidateCount | src/extension.ts:18-56 | one candidate per set rule, two for $REPROTO_HOME, one per $PATH entry |
| Extension.ReprotoHomeGivesTwo | src/extension.ts:27-32 | $REPROTO_HOME contributes the directory itself and then the bare executable name, right after the configured executable |
| Extension.PathCandidatesLast | src/extension.ts:48-56 | the candidates end with every $PATH entry, in order, joined with the executable name |
| Extension.PushJoined | src/extension.ts:51-53 | the `forEach` pushes each entry joined with the executable name |
| Extension.DetectCandidates | src/extension.ts:11-59 | discovery fails exactly when the platform is unsupported, and otherwise gives the five descriptions and the candidates rule by rule |
| Extension.ListCandidates | src/extension.ts:18-56 | the five rules push the descriptions and candidates rule by rule |
| Extension.FirstUsable | src/extension.ts:62-68 | the first non-empty existing candidate, or -1 exactly when there is none |
| Extension.DetectReproto | src/extension.ts:61-71 | the handle of the first usable candidate, in the workspace root; none exactly when no candidate is usable |
| Extension.ParseVersion | src/extension.ts:83-95 | a version is read exactly when the first word is "reproto" and the second word has at least three parts |
| Extension.VersionWords | src/extension.ts:83-85 | `reproto <v>` splits into the two words |
| Extension.VersionParts | src/extension.ts:86-88 | `<a>.<b>.<c><suffix>` splits into `a`, `b`, `c` and the suffix's parts |
| Extension.ParseVersionPrinted | src/extension.ts:83-95 | the version a release prints is read back exactly, whatever pre-release suffix follows |
| Extension.ParseVersionOneWord | src/extension.ts:85 | output of a single word, such as a bare version number, gives no version |
| Extension.ParseVersionNaN | src/extension.ts:86-94 | a first component that is not a number gives NaN there, not the absence of a version |
| Extension.DetectVersion | src/extension.ts:76-104 | the version read from the outcome, with the lines it logs: the detected version, the failure, or nothing |
| Extension.DefaultExtensionType | src/extension.ts:109-127 | the language client exactly when a version is known and its components are at least 0, 3 and 35 each; otherwise the default |
| Extension.ThresholdIsPerComponent | src/extension.ts:122 | 0.3.35 selects the language client, while 0.3.34, 0.4.0 and 1.0.0 keep the default |
| Extension.ActualType | src/extension.ts:142-146 | a configured type wins when set; otherwise the result is "language-client" exactly when the major, minor and patch are at least 0, 3 and 35 each, and "simple" otherwise |
| Extension.HandlerOf | src/extension.ts:154-164 | "language-client" and "simple" start their integrations; any other type starts none |
| Extension.NumberedSpec | src/extension.ts:183-185 | the descriptions are numbered from 0, each as `#<i>: <description>` |
| Extension.ReportNotFound | src/extension.ts:180-185 | the channel gains the heading and the numbered descriptions |
| Extension.ActivateWith | src/extension.ts:136-185 | with the first usable candidate and a version read from it, activation dispatches to the configured-or-derived type and its integration, and the channel gains the version lines, then "using reproto from `<path>`"; otherwise it reports: the channel gains whatever reading the version logged, then the heading and the numbered descriptions |
| Extension.InternalActivate | src/extension.ts:129-206 | activation throws exactly on an unsupported platform, logging nothing; otherwise it activates as above with the discovered descriptions and candidates |

## Left out

- The vscode API behind the editor objects: `show()` of the output channel, the status bar item, registering the `reproto.init` command, and `showErrorMessage` for an unsupported integration type.
- The install prompt after a failed discovery, the installation it starts, and the reactivation after it. These are user interaction and asynchronous I/O (`extension.ts:187-205`).
- Downloading, unpacking and `chmod` of a release: HTTPS, gzip and tar (`install.ts:42-58`, `install.ts:125-184`). `Install.ReleaseVersion` takes the downloaded body as a parameter.
- `makeDirs`'s throw when `dirname` returns an empty string cannot happen for POSIX `dirname`, so it is not modelled. `Install.MakeDirs` requires that "." and "/" exist, which the climb always reaches.
- `mkdirSync` itself: `Install.MakeDirs` returns the directories to create, outermost first.
- Process spawning and its errors (the executable vanishing, an `error` event from `spawn`), signals other than an exit status, and an `exit` event that arrives before standard output has ended. The model delivers all output before the exit.
- Byte-level decoding: `data.toString()` of a chunk that splits a UTF-8 sequence. Chunks are modelled as strings.
- `JSON.parse` is a parameter, and every value it yields is a `Protocol.Record` with all fields present. In the source, a `null` line throws at `data["type"]` (`reproto_simple.ts:152`), and a diagnostics or symbol record without a `range` throws when it is read (`reproto_simple.ts:88-90, 105`). In the builder either of these stalls the stream the way a line that is not JSON does. The model does not capture this. A record without a `type`, or with a `type` that is some other string, matches no route, as in the source. In the builder, a `type` that is not a string still routes when its string form is "diagnostics" or "symbol" (a one-element array, say), because `reproto_simple.ts:152, 157` compare with `==`. `parse` may yield that tag for such a line. `executeLogged` compares with `===` (`reproto.ts:54`), so there only the string "log" is logged. In `executeLogged` a `null` line is different again: the buffer has already moved past it (`reproto.ts:40`), `json["type"]` then throws inside the `'json'` listener (`reproto.ts:54`), the remaining complete lines of that chunk stay in the buffer until the next chunk arrives, and the run is not rejected; the model does not capture this either.
- Protocol.RangeOf: the editor's `new Position` throws on a negative line or character, and `new Range` swaps a start and end given in reverse order. The model takes the reported numbers as they are. `Protocol.DiagnosticOf` and `Protocol.SymbolOf` therefore state the span as reported. A negative number, which in the source throws and stalls the build's stream, is not modelled.
- Paths.ExtName: on a path with trailing separators, Node's `path.extname` ignores them (`"a.reproto/"` has extension ".reproto"). The model does not strip them and gives "". `Paths.ExtNameReproto` is a statement about the model's `ExtName`.
- Keys that collide with `Object.prototype` members in the JavaScript objects used as maps, and the enumeration order of `byUri` and `updates`. The enumeration order of `symbols` is modelled by `SymbolIndex.SymbolProvider.roots`.
- `path.join` normalisation of `.` and `..` segments and duplicate separators, Windows separators and drive letters: `Paths.Join` drops empty segments and joins with '/'. `Paths.Dirname` follows Node's POSIX `dirname`.
- Builder.DiagnosticEntriesSpec: "exactly that path's diagnostics" rests on `Paths.JoinInjective`, which holds for the model's join only. With Node's normalising join, `a.reproto` and `./a.reproto` name one document, and the later `set` wins.
- `extension.ts:15-16` calls `install.getPlatform()` and `install.getExe(platform)`, but `install.ts` exports only `install` (`install.ts:11, 33, 99`). As written, the import does not provide them, and `detectCandidates` would throw on every platform. The model assumes these helpers are reachable. It treats them as the functions of `install.ts:11-40`, so discovery throws only on an unsupported platform.
- Text.ToLower: only ASCII letters are case-folded; Unicode case mapping is not modelled.
- JavaScript number precision: `parseInt` gives unbounded integers, not doubles.
- The text of the `SyntaxError` a bad JSON line rejects with; `Toolchain.Failure` records only its kind.
- The message `defaultExtensionType` logs when no version was detected cannot be reached from `internalActivate` (`extension.ts:114-117`), so it is not modelled.
- Extension.DetectVersion: writes its lines with `AppendLines`, which has the same effect as the two `appendLine` calls.
- Extension.CandidateList: takes the executable name as a parameter. `Extension.DetectCandidates` supplies it from the platform.
- Builder.Route: states no contract of its own. What routing gathers is stated by `Builder.GatherSpec`.
- Builder.BuildSession.constructor: requires a non-empty workspace folder path, which the editor always supplies.
- Concurrency between sessions: two builds of the same folder running at once, and the language-client integration (`reproto_language_client.ts`), which is not part of this model.
