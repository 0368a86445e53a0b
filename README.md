# goas core, modelled in Dafny

This project models four pieces of the Go application-support library goas and proves properties of them:

- **Scenes** (v1/scene/scene.go, with the error kinds of v1/scene/errors.go). A scene's backend owns a table of props. Each prop is a *box*: a key, a value and an optional cleanup function. The backend runs one command at a time: store a prop if its key is absent, fetch one, or dispose of one, which deletes it and then runs its cleanup once. On stop, the backend tears down the rest of the table, running the remaining cleanups in map order until the first failure. The backend is the class `Scenes.Scene`. Cleanup functions are Dafny function values that answer `Some(cause)` when they fail. Their side effect is recorded as a call log in the class.
- **UUIDs** (v2/identifier/uuid.go). These are 16-byte UUIDs after RFC 4122:
  - the version nibble in byte 6 (section 4.1.3);
  - the variant bits in byte 8 (section 4.1.1);
  - the 8-4-4-4-12 lower-case hexadecimal text form (section 3);
  - the four predefined namespaces (Appendix C);
  - the post-processing of name-based and random UUIDs (sections 4.3 and 4.4).

  The MD5 and SHA-1 digests and the random source are inputs.
- **Identifiers** (v2/identifier/identifier.go). Parts are normalised into identifiers:
  - lower case;
  - every run of characters that are not letters or digits becomes one `-`;
  - empty parts are dropped;
  - the rest are joined by a separator.

  This file also covers the colon join, CamelCase type names turned into kebab case, and this file's own `NewUUID` and `String`. Unicode classification is exact for U+0000..U+00FF (module `Runes`).
- **Logger** (v3/logger/logger.go):
  - the package-level level, fatal exiter and backend;
  - the level gate of `Debugf`..`Criticalf` and the ungated `Fatalf`;
  - the parsing of the caller's function name in `retrieveCallInfo`;
  - the short and verbose call-info formats;
  - the line layouts of the standard and the Go logger backends.

  What the backend and the exiter do is recorded as events.

Shared helpers:
- `Base`: Option and Result.
- `Strs`: `strings.Join`, `strings.Split` on one character, `strings.LastIndex`, `strings.Fields`, `path.Split`, and their round trips.

## Model

| member | source | states |
|---|---|---|
| SceneErrors.Code | v1/scene/errors.go:22-30 | every error kind's code lies in 1..7, counting from `iota + 1` |
| SceneErrors.CodeIdentifiesKind | v1/scene/errors.go:46-86 | two errors share a code exactly when they are of the same kind, so each `Is...Error` test recognises exactly one kind |
| Scenes.Scene.constructor | v1/scene/scene.go:99-106 | StartScene gives an empty table, a running backend and an empty cleanup log |
| Scenes.Scene.StoreProp | v1/scene/scene.go:227-234 | an absent key is inserted with exactly the given box; a present key gives PropAlreadyExist and leaves the table, including the old box, unchanged; the class invariant is kept |
| Scenes.Scene.FetchProp | v1/scene/scene.go:235-242 | a present key answers its stored box; an absent key answers PropNotFound; nothing changes |
| Scenes.Scene.DisposeProp | v1/scene/scene.go:243-257 | a present key is deleted even when its cleanup fails; the cleanup runs exactly once, with that box's key and prop; a failure gives CleanupFailed for that key and cause; an absent key gives PropNotFound and changes nothing |
| Scenes.Scene.ProcessCommand | v1/scene/scene.go:225-263 | a store of an absent key inserts the box, records it as stored and answers it without error; a store of a present key answers PropAlreadyExist; a fetch answers the stored box or PropNotFound; a dispose of a present key deletes it, records its box as removed, logs its cleanup's calls and answers the box with CleanupFailed when the cleanup fails; a dispose of an absent key answers PropNotFound; the answers that fail change nothing, a fetch changes nothing, and every other key keeps its presence and its box |
| Scenes.Scene.StoreClean | v1/scene/scene.go:129-141 | storing on an ended scene gives SceneEnded and changes nothing; otherwise an absent key is inserted with its prop and cleanup, and that box is recorded as stored; a present key gives PropAlreadyExist and keeps the table and the stored boxes |
| Scenes.Scene.Store | v1/scene/scene.go:124-126 | StoreClean without a cleanup, with the same three outcomes, the stored boxes included |
| Scenes.Scene.Fetch | v1/scene/scene.go:144-157 | the stored prop, or PropNotFound, or SceneEnded once the scene has ended (the race of an ended scene is settled this way, see Left out); nothing changes |
| Scenes.Scene.Dispose | v1/scene/scene.go:160-173 | the prop is returned and deleted, its box recorded as removed and its cleanup's calls logged; when its cleanup fails, the error is returned instead of the prop, which is gone all the same; an absent key or an ended scene changes neither the table, the log nor the removed boxes |
| Scenes.Scene.Stop | v1/scene/scene.go:195-199 | stopping runs the teardown over the table in map order, and the scene ends with its result; the log grows by exactly the calls of the boxes walked; with no failure, every box ever stored has been removed, and the log holds each stored cleanup's call exactly once; whether or not the teardown fails, no box is removed more than once and no cleanup is called more than once; a second Stop answers the first result |
| Scenes.Scene.Teardown | v1/scene/scene.go:197-199 | the deferred teardown's result is the TeardownResult for the walking order; the log grows by the calls of the boxes walked, and those boxes are recorded as removed; failing or not, no box is removed and no cleanup called more than once; without a failure, exactly the stored boxes are removed and each of their cleanups called once |
| Scenes.CleanupAllProps | v1/scene/scene.go:266-276 | the loop returns the TeardownResult for the walking order; the calls it makes are those of the boxes up to and including the first failing one |
| Scenes.FirstFailure | v1/scene/scene.go:267-274 | the index of the first box whose cleanup fails, or the length of the order when none fails; every box before it succeeds |
| Scenes.TeardownSucceedsIffAllClean | v1/scene/scene.go:266-276 | the teardown returns nothing if and only if no cleanup in the table fails |
| Scenes.TeardownOrderIndependent | v1/scene/scene.go:267 | whether the teardown succeeds does not depend on the map's iteration order |
| Scenes.FirstFailureAt | v1/scene/scene.go:267-274 | if every cleanup before index i succeeds and the one at i fails (or i is the end), the first failure is at i |
| Scenes.TeardownFirstFailure | v1/scene/scene.go:269-272 | the teardown fails with CleanupFailed for the first failing key in walking order, with that cleanup's cause, and it reaches no box after it |
| Scenes.TeardownAllClean | v1/scene/scene.go:267-275 | a teardown with no failing cleanup reaches every box and returns nil |
| Scenes.TeardownSingle | v1/scene/scene.go:266-276 | a one-key table's teardown reaches its box and fails exactly when that box's cleanup fails |
| Scenes.CallsListPermutation | v1/scene/scene.go:267 | the multiset of cleanup calls depends only on which boxes were processed, not on their order |
| Scenes.AlongValues | v1/scene/scene.go:267 | a walk along any iteration order of the table meets each of its boxes exactly once |
| Scenes.StoreValues | v1/scene/scene.go:233 | inserting under an absent key keeps every key holding its own box and adds exactly that box to the table's boxes |
| Scenes.DisposeValues | v1/scene/scene.go:249 | deleting a key takes exactly its one box out of the table's boxes |
| Scenes.StoreKeeps | v1/scene/scene.go:227-234 | a store keeps the log equal to the calls of the removed boxes, and every stored box either removed or in the table |
| Scenes.DisposeKeeps | v1/scene/scene.go:243-257 | deleting a box and running its cleanup keeps both invariants |
| Scenes.TeardownKeeps | v1/scene/scene.go:266-276 | the teardown's calls are those of the boxes it walks, appended in order |
| Scenes.TeardownBounded | v1/scene/scene.go:266-276 | a teardown, failing or not, removes only boxes still in the table, so every stored box is removed, and its cleanup called, at most once |
| Scenes.TornDown | v1/scene/scene.go:266-276 | after a teardown without failure, the removed boxes are exactly the stored boxes, and the calls made are exactly the stored boxes' calls |
| Scenes.ExitError | v1/scene/scene.go:212-217 | the loop body returns a Timeout error exactly when a timer fired, and nil on a stop request |
| Scenes.TimeoutLostAsWritten | v1/scene/scene.go:197-199 | as written, an absolute timeout followed by a clean teardown ends the scene without error |
| Scenes.LoopResult | v1/scene/scene.go:195-222 | with the intended result, a timeout is reported as that timeout, and a stop request reports the teardown's result |
| Scenes.TimeoutKept | v1/scene/scene.go:195-222 | the intended result is nil if and only if the loop ended on a stop request and the teardown succeeded |
| Scenes.SimpleNoTimeout | v1/scene/scene_test.go:28-51 | store, fetch, missing fetch, double store, missing dispose, dispose, fetch after dispose and stop give the results the test checks |
| Scenes.CleanupNoError | v1/scene/scene_test.go:55-79 | with a succeeding cleanup, the disposed prop comes back, the stop succeeds, and the cleanups ran for "foo" with 4711 and then for "bar" with "yadda", once each |
| Scenes.StoreTwoDisposeOne | v1/scene/scene_test.go:64-71 | after the two stores and the dispose, only "bar" is left and only the cleanup of "foo" has run |
| Scenes.StoreTwo | v1/scene/scene_test.go:64-67 | both stores succeed, the table holds the two boxes with their cleanup, and no cleanup has run |
| Scenes.CleanupWithErrors | v1/scene/scene_test.go:82-106 | with failing cleanups, both disposes give CleanupFailed and no value, and the stop gives CleanupFailed for the last prop |
| Scenes.StoreThree | v1/scene/scene_test.go:89-94 | the three stores succeed and fill the table with the three boxes |
| Scenes.DisposeTwo | v1/scene/scene_test.go:96-101 | each dispose reports CleanupFailed with the cause "ouch", and only "yadda" is left |
| Scenes.DisposeFailing | v1/scene/scene_test.go:96-101 | disposing a prop whose cleanup fails gives CleanupFailed with the cause "ouch" and no value, and deletes the prop |
| Scenes.StopLast | v1/scene/scene_test.go:103-105 | the teardown of the last prop fails with CleanupFailed |
| UUIDs.Version | v2/identifier/uuid.go:93-95 | the version is below 16, and together with the low nibble it makes up byte 6 |
| UUIDs.WithVersion | v2/identifier/uuid.go:124-126 | after setVersion(v), Version() is v's low nibble (v itself when v < 16); the low nibble of byte 6 and every other byte are unchanged |
| UUIDs.WithVariant | v2/identifier/uuid.go:129-131 | after setVariant(), byte 8 has high nibble 8 and its old low nibble, so it carries the RFC 4122 variant; the version and every other byte are unchanged |
| UUIDs.SetVersion | v2/identifier/uuid.go:124-126 | the in-place write through the pointer receiver leaves the array equal to WithVersion of its old contents |
| UUIDs.SetVariant | v2/identifier/uuid.go:129-131 | the in-place write leaves the array equal to WithVariant of its old contents |
| UUIDs.VersionVariantCommute | v2/identifier/uuid.go:124-131 | setVersion and setVariant commute |
| UUIDs.SettersIdempotent | v2/identifier/uuid.go:124-131 | each setter applied twice is the setter applied once |
| UUIDs.Stamp | v2/identifier/uuid.go:60-61 | the shared post-processing sets the version and the variant and keeps all other bits of the raw bytes |
| UUIDs.Build | v2/identifier/uuid.go:54-61 | a zeroed array, the copy of the first 16 raw bytes and the two setters give the stamped raw bytes |
| UUIDs.HashInput | v2/identifier/uuid.go:56-57 | what is hashed is the namespace's 16 bytes followed by the name |
| UUIDs.NewUUIDv3 | v2/identifier/uuid.go:53-63 | never an error; the result is the first 16 MD5 bytes of namespace and name, stamped with version 3, so its version is 3 and its variant is RFC 4122 |
| UUIDs.NewUUIDv4 | v2/identifier/uuid.go:66-76 | a random-source error is passed on; otherwise the random bytes are stamped with version 4 |
| UUIDs.NewUUIDv5 | v2/identifier/uuid.go:80-90 | never an error; the first 16 of the 20 SHA-1 bytes are stamped with version 5 |
| UUIDs.NewUUID | v2/identifier/uuid.go:42-49 | a version 4 UUID of the random bytes |
| UUIDs.Copy | v2/identifier/uuid.go:98-101 | the copy holds the same 16 bytes |
| UUIDs.Raw | v2/identifier/uuid.go:104-106 | the raw array holds the same 16 bytes |
| UUIDs.Dump | v2/identifier/uuid.go:109-115 | a freshly allocated slice holding the UUID's bytes |
| UUIDs.CopyThenClear | v2/identifier/uuid_test.go:43-48 | a copy keeps its bytes when the original array is zeroed afterwards, so the copy of a UUID with a version differs from the cleared original |
| UUIDs.HexDigit | v2/identifier/uuid.go:120 | `%x` writes a nibble as one lower-case hexadecimal digit whose value is that nibble |
| UUIDs.HexOf | v2/identifier/uuid.go:120 | `%x` of a byte slice writes two lower-case hexadecimal digits per byte |
| UUIDs.UnHexOf | v2/identifier/uuid.go:120 | decoding the hexadecimal form of bytes gives back the bytes |
| UUIDs.String | v2/identifier/uuid.go:119-121 | the text form has 36 characters: '-' at positions 8, 13, 18 and 23, and lower-case hexadecimal digits elsewhere |
| UUIDs.Parse | v2/identifier/uuid.go:119-121 | a text is accepted exactly when it has the 8-4-4-4-12 shape |
| UUIDs.ParseString | v2/identifier/uuid.go:119-121 | parsing the text form of a UUID gives back the UUID |
| UUIDs.StringInjective | v2/identifier/uuid.go:119-121 | distinct UUIDs have distinct text forms |
| UUIDs.NamespaceHexShape | v2/identifier/uuid.go:137-145 | each of the four namespace texts has 32 hexadecimal digits, version 1, the RFC 4122 variant and its own tag digit |
| UUIDs.UUIDNamespace | v2/identifier/uuid.go:134-151 | the selectors 3..6 (iota keeps counting from the version constants) give a namespace with version 1, the RFC 4122 variant and the selector's tag in byte 3; every other selector is rejected |
| UUIDs.HexOfUnHex | v2/identifier/uuid.go:120 | writing decoded digit pairs with `%x` gives back the lower-case digits |
| UUIDs.StringOfHex | v2/identifier/uuid.go:119-121 | the text form of the UUID that 32 hexadecimal digits spell is those digits grouped 8-4-4-4-12 |
| UUIDs.NamespaceString | v2/identifier/uuid.go:134-151 | the text form of each selector's namespace is its hexadecimal text, the literal that UUIDNamespace decodes, grouped 8-4-4-4-12; grouped so, the four literals are the namespace texts of RFC 4122 Appendix C |
| UUIDs.NamespacesDistinct | v2/identifier/uuid.go:134-151 | two selectors give the same namespace exactly when they are equal |
| Identifiers.NewUUID | v2/identifier/identifier.go:44-55 | byte 6 is 0x40 or-ed with the low nibble of the random byte 6, and byte 8 is 0x80 or-ed with the low nibble of the random byte 8; the other 14 bytes are the random ones; the same UUID as uuid.go's route through setVersion and setVariant |
| Identifiers.String | v2/identifier/identifier.go:70-72 | the text has the 8-4-4-4-12 shape and parses back to the UUID it came from |
| Identifiers.MapRune | v2/identifier/identifier.go:86-103 | a letter or digit (under `limit`, one with an ASCII lower-case form) becomes its lower case; anything else becomes a space |
| Identifiers.PartShape | v2/identifier/identifier.go:86-105 | a part normalises to nothing exactly when no rune of it survives; otherwise the result has only lower-case letters, digits and single '-' characters, none at either end, and its letters and digits are the surviving runes in lower case, in order |
| Identifiers.DashForDropped | v2/identifier/identifier.go:86-105 | where a dropped rune separates two pieces that each keep a rune, the part normalises to the two pieces' normal forms with exactly one '-' between them |
| Identifiers.DroppedAtEnds | v2/identifier/identifier.go:86-105 | dropped runes at either end of a part leave no trace, so a run of dropped runes gives one '-' and none at the ends |
| Identifiers.AllSurvive | v2/identifier/identifier.go:86-105 | a part whose runes all survive is the part in lower case, without any '-' |
| Identifiers.JoinWords | v2/identifier/identifier.go:105 | words of identifier characters joined by '-' have no leading, trailing or doubled '-' |
| Identifiers.EmittedWellFormed | v2/identifier/identifier.go:84-108 | every emitted part is well formed; under `limit`, it holds only a-z, 0-9 and '-' |
| Identifiers.EmittedKeepsAll | v2/identifier/identifier.go:104-108 | when every part has a surviving rune, every part is emitted, normalised, at its own position |
| Identifiers.EmittedDropsEmpty | v2/identifier/identifier.go:104-107 | a part with no letter or digit contributes nothing, wherever it stands |
| Identifiers.LimitedSepIdentifier | v2/identifier/identifier.go:83-110 | the result is the non-empty normalised parts, in input order, joined by `sep` |
| Identifiers.SepIdentifier | v2/identifier/identifier.go:116-118 | LimitedSepIdentifier without the ASCII limit |
| Identifiers.Identifier | v2/identifier/identifier.go:122-124 | SepIdentifier with ':' |
| Identifiers.JoinedIdentifier | v2/identifier/identifier.go:128-130 | n identifiers are joined with n - 1 colons and no filtering |
| Identifiers.SplitJoinedIdentifier | v2/identifier/identifier.go:128-130 | splitting the joined text at ':' gives back identifiers that hold no colon |
| Identifiers.TypeName | v2/identifier/identifier.go:138-139 | the type name is the suffix after the last '.', and it holds no '.' |
| Identifiers.DashedShape | v2/identifier/identifier.go:140-147 | the loop adds only dashes: removing them gives back the type name; there is one per upper-case rune after the first; the first rune stays first |
| Identifiers.KebabShape | v2/identifier/identifier.go:140-148 | the result has no upper-case rune; without its dashes it is the lower-cased type name; its length is the name's length plus one per upper-case rune after the first |
| Identifiers.TypeAsIdentifierPart | v2/identifier/identifier.go:135-149 | the result is the type name after the last '.', with a '-' written before each upper-case rune except at index 0, lower-cased |
| Logger.Rank | v3/logger/logger.go:35-42 | every severity's level is one of the numbers 0..5 |
| Logger.LevelsOrdered | v3/logger/logger.go:35-42 | Debug < Info < Warning < Error < Critical < Fatal, from Debug = 0 to Fatal = 5; no two severities share a level |
| Logger.Clamp | v3/logger/logger.go:82-89 | anything at or below Debug becomes Debug, anything at or above Fatal becomes Fatal, and a level in between stays itself |
| Logger.ClampSettles | v3/logger/logger.go:82-89 | clamping a clamped level changes nothing, and clamping is monotone |
| Logger.GateMonotone | v3/logger/logger.go:112 | raising the level only removes messages; at Debug every message passes; at Fatal only a Fatal one would |
| Logger.LogControl.constructor | v3/logger/logger.go:64-68 | the defaults: level Info, the os.Exit exiter, a standard logger on stdout |
| Logger.LogControl.Level | v3/logger/logger.go:71-75 | the current level, which always lies in Debug..Fatal |
| Logger.LogControl.SetLevel | v3/logger/logger.go:79-92 | the previous level is returned and the clamped level stored, so the stored level is always one of the six |
| Logger.LogControl.SetFatalExiter | v3/logger/logger.go:96-102 | the previous exiter is returned and the new one stored |
| Logger.LogControl.SetLogger | v3/logger/logger.go:211-213 | later messages go to the new backend |
| Logger.LogControl.Logf | v3/logger/logger.go:109-166 | the events grow by the backend event exactly when the current level is at most the severity; it reports a panic exactly when the message passes and the call info cannot be retrieved |
| Logger.LogControl.Debugf | v3/logger/logger.go:109-118 | sent with verbose call info exactly when the level is Debug |
| Logger.LogControl.Infof | v3/logger/logger.go:121-130 | sent with short call info exactly when the level is at most Info |
| Logger.LogControl.Warningf | v3/logger/logger.go:133-142 | sent with short call info exactly when the level is at most Warning |
| Logger.LogControl.Errorf | v3/logger/logger.go:145-154 | sent with short call info exactly when the level is at most Error |
| Logger.LogControl.Criticalf | v3/logger/logger.go:157-166 | sent with verbose call info exactly when the level is at most Critical |
| Logger.LogControl.Fatalf | v3/logger/logger.go:172-180 | whatever the level, the message is sent with verbose call info and then the exiter is called |
| Logger.LevelRoundTrip | v3/logger/logger.go:79-92 | SetLevel returns the default Info; Level then answers the clamped level, which is the requested one when it lies in Debug..Fatal |
| Logger.DefaultLevelGate | v3/logger/logger.go:109-180 | at the default level Debugf sends nothing, Infof sends the short info, and Fatalf sends the verbose info and exits |
| Logger.Emitted | v3/logger/logger.go:371-392 | a passing call produces one event to the backend exactly when the call info can be retrieved; that event carries the severity, the message and the call info in the format the severity takes |
| Logger.InfoFor | v3/logger/logger.go:109-180 | Debug, Critical and Fatal get the verbose format; the others get the short one |
| Logger.FileName | v3/logger/logger.go:373 | the file name is the suffix of the path after its last '/', and it holds no '/' |
| Logger.FileNameShape | v3/logger/logger.go:373 | as with path.Split, the character just before the file name is the path's last '/', and a path without '/' is its own file name |
| Logger.RetrieveCallInfo | v3/logger/logger.go:371-392 | a call info exists exactly when the name has at least two dot segments and the second-to-last is not empty; otherwise Go panics when it indexes the segments; it carries the caller's file name and line |
| Logger.SplitHasDot | v3/logger/logger.go:374-375 | a name has at least two dot segments exactly when it contains a dot |
| Logger.CallNameRebuilt | v3/logger/logger.go:374-384 | for every name but a bare method "(T).f" (two segments, the first a receiver), package + "." + function gives back the full name; for a bare method, the package is empty and the function is the whole name |
| Logger.PlainCallInfo | v3/logger/logger.go:377-383 | for dot-free segments without a receiver, the package is all segments but the last, and the function is the last segment |
| Logger.MethodCallInfo | v3/logger/logger.go:379-381 | when the segment before the last is a receiver, the function is that segment, a dot and the last one, and the package is the segments before them |
| Logger.DecimalRoundTrip | v3/logger/logger.go:367 | the `%d` text of the line number reads back as that number |
| Logger.ShortFormatRoundTrip | v3/logger/logger.go:361-363 | "[" + package + "]" gives back the package |
| Logger.VerboseFormatRoundTrip | v3/logger/logger.go:366-368 | the verbose format starts with the short one, and the number after its last ':' is the line, whatever colons the file and function names hold |
| Logger.TagRoundTrip | v3/logger/logger.go:231-306 | each severity's tag names it back, so no two severities share a tag |
| Logger.StandardLineSeverity | v3/logger/logger.go:235-240 | a standard line is the timestamp, " [TAG] ", the info, " ", the message and "\n", and its tag gives back its severity whatever the info and message hold |
| Logger.TaggedLine | v3/logger/logger.go:235-240 | the text between the brackets after the timestamp is the tag |
| Logger.BackendsAgree | v3/logger/logger.go:318-345 | the standard logger's line is its timestamp, a space and the text a Go logger hands to log.Println |

## Left out

- Goroutines, channels and the loop package (`command`'s two-stage select, `Abort`, `Wait`, `loop.Go`) are left out. The backend serialises commands, so each command is one method call on the class.
- Scenes.Scene.StoreClean, Scenes.Scene.Store, Scenes.Scene.Fetch, Scenes.Scene.Dispose: on an ended scene, `command`'s first `select` has two ready cases. The buffered `commandChan` can still take the envelope, and `IsStopping` is closed. When the send wins, the second `select` returns `nil, s.Wait()`. Then StoreClean answers the scene's end result without storing, and Fetch and Dispose dereference a nil response after a clean stop. The model settles this race as SceneEnded in every case.
- Scenes.Scene.Stop: a scene can only end through Stop. SceneEnded from `command` is only reachable after Stop, and Abort is not modelled.
- The inactivity and absolute timers of `backendLoop` are left out, because no constructor sets `inactivity` or `timeout`. Their effect on the result is modelled in `Scenes.LoopResult` and `Scenes.LoopResultAsWritten`, not in the class.
- Scenes.ProcessCommand: `default: panic("illegal command")` cannot happen, because `Command` has only the three kinds.
- The iteration order of Go's `range` over a map is unspecified. It is the input `order` to Stop and CleanupAllProps, a list of the table's keys, each once.
- The side effects of cleanup functions are the `log` of calls, in call order. Teardown calls are appended when the teardown ends.
- Signal/subscribe and the bounded waits are left out; only their error codes exist.
- The external errors package is not part of this model. An error is its kind and the values its message is built from. Message text, annotation chains and `IsError` are left out.
- Entropy and digests are inputs: `crypto/rand`, MD5 and SHA-1 are the bytes they deliver. UUIDs.NewUUID takes 16 random bytes and does not model the panic on a read error.
- Identifiers.NewUUID: it also takes 16 random bytes, so the panic on a read error (v2/identifier/identifier.go:46-48) is not modelled.
- UUIDs.NewUUIDv3 and UUIDs.NewUUIDv5 require digests of 16 and 20 bytes, which MD5 and SHA-1 always deliver.
- `reflect.TypeOf(i).String()`, `fmt.Sprintf("%v", p)` and `runtime.Caller`/`FuncForPC` are replaced by their strings: `TypeAsIdentifierPart`'s type name, the parts, and `Logger.Caller`. A nil `FuncForPC` result is not modelled.
- Unicode classification is exact only for U+0000..U+00FF. Every code point above is treated as a non-letter, non-digit, non-space character that lower-casing leaves alone.
- `utf8` decoding is left out. Strings are sequences of code points, so `range` over a string hands out one code point per index. `TypeAsIdentifierPart`'s byte index is positive exactly when the code point is not the first one, so using the code-point index does not change its result.
- The `Copy` and `Raw` of the duplicate UUID type in identifier.go are the same as uuid.go's `UUIDs.Copy` and `UUIDs.Raw`, so they are not repeated.
- `PackageVersion`, the doc.go files and the other errors files are left out.
- Panics are `None`:
  - `UUIDNamespace` with an unknown selector;
  - `retrieveCallInfo` with a name without a dot, or with an empty second-to-last segment (`parts[pl-2][0]`).

  A `...f` call with such a name reports `panicked` and sends nothing.
- Logger I/O is left out: the `io.Writer` output, `time.Now().Format(timeFormat)` and `log.Println`'s own prefix. The timestamp is a parameter of `Logger.StandardLine`. What the backends receive is recorded as `Sent` events.
- The logger's mutexes are left out; each method is one atomic step.
- `os.Exit(-1)` and the panic of the exiters are left out. Calling the exiter is an `Exited` event, after which the model continues.
- `fmt.Sprintf(format, args...)` of the message is left out. The formatted message is the parameter `msg`.
- Logger.LogControl.Logf: it requires a severity other than Fatal, because Fatalf has its own body without a gate.

## Findings

| source | as written | input that shows it | evidently intended | confidence | as-written member | corrected member |
|---|---|---|---|---|---|---|
| v1/scene/scene.go:197-199 | the deferred `err = s.cleanupAllProps()` assigns the named result after the loop has returned, so the Timeout error returned at lines 215 and 217 is replaced by the teardown result | an absolute timeout whose teardown succeeds: the loop returns Timeout, and the scene ends with nil | keep the loop's timeout error, and report the teardown's error when the loop ended on a stop request | not executed; latent while no constructor arms the timers | Scenes.TimeoutLostAsWritten | Scenes.TimeoutKept |
