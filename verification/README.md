# ws relay client — Dafny model

`ws` is an interactive WebSocket client. For every requested session it dials
the target URL with an Origin header, then runs two pumps: the console pump
reads terminal lines and writes each one as a text message, and the receive
pump reads messages and prints them (text verbatim, binary as spaced lowercase
hex). The first pump to fail ends the session. The command (`root`) checks its
arguments, derives the Origin, and launches `number × len(params)` sessions.

The model is functional and has no concurrency:

- `values.dfy` (`GoValues`): Go bytes and strings (one character per byte), errors, `Option`/`Result`.
- `hex.dfy` (`Hex`): `bytesToFormattedHex` defined per byte. The source computes it as `hex.EncodeToString` followed by the regexp rewrite `(..)` → `$1 `. Both steps are modelled, and the two views are proved equal. A parser for the format is proved to be its exact inverse.
- `connection.dfy` (`Connection`): the frame classifier, and the two pump loops as trace functions. Each pump takes the sequence of results its blocking calls return and gives what it emitted plus the error it reported. `connect` is also here, with its dial-failure, line-editor-failure and read-only branches.
- `command.dfy` (`Command`): flag defaults, the exit decisions of `root`, Origin override and derivation, the nested N×P launch enumeration, and the exit code of the whole process.

A pump trace whose `stop` is `None` means the environment sequence ran out while the pump was still looping. `connect` has not returned in that case.

Facts about the code that the model keeps:

- The derived Origin is the whole parsed URL with only its scheme rewritten, so path, query and fragment stay (main.go:62-68). `DeriveOrigin` keeps every component except the scheme.
- `wss` maps to `https`, and every other scheme, not only `ws`, maps to `http` (main.go:63-67).
- `connect` defers only `rl.Close()`; it never closes the WebSocket connection (connection.go:42, 55).
- The default of `--params` is the one-element list `["genba00"]` (main.go:35).
- `connect` never returns nil: every return carries the dial error, the line-editor error or a pump's error (connection.go:35, 40, 55). A session result of `None` therefore means `connect` has not returned, and `Process` is `None` until every session has returned, as `wg.Wait()` requires (main.go:85).

## Model

| member | source | states |
|---|---|---|
| Hex.FormattedHex | connection.go:76-79 | the output has length 3·n, and the chunk at 3i..3i+3 is the two lowercase hex digits of byte i (high nibble first) followed by a space |
| Hex.EncodeToString | connection.go:77 | `hex.EncodeToString` gives 2·n characters, with the high then low nibble digit of byte i at 2i and 2i+1 |
| Hex.FormattedHexIsRewrittenEncoding | connection.go:77-78 | the regexp rewrite of the hex encoding (a space after every leftmost two-character match) equals the per-byte "hh " definition |
| Hex.SpaceAfterPairsOfPairs | connection.go:78 | on newline-free text of even length, the `(..)` → `$1 ` rewrite emits each character pair followed by one space, and nothing else |
| Hex.ParseFormattedHexRoundTrip | connection.go:77-78 | reading the formatted string back pair by pair returns the original bytes |
| Hex.ParseFormattedHexCanonical | connection.go:77-78 | every string the pair reader accepts is exactly the formatting of the bytes it returns, so the format has one spelling per byte sequence |
| Hex.FormattedHexEnds | connection.go:77-78 | the empty slice formats to the empty string and only it does; any non-empty input ends in a space |
| Hex.FormattedHexInjective | connection.go:76-79 | different byte slices never format to the same string |
| GoValues.StringOfBytes | connection.go:95 | `string(buf)` keeps every byte, in order |
| GoValues.BytesOfString | connection.go:67 | `[]byte(line)` keeps every byte, in order |
| Connection.Render | connection.go:92-101 | a text frame shows its payload byte for byte; a binary frame shows the formatted hex, which decodes back to the payload; every other kind is skipped and keeps its type code |
| Connection.ReceivePump | connection.go:81-105 | the pump reports an error iff some read failed, and the reported error is that of the first failed read; it shows at most one line per read |
| Connection.ReceivePumpShowsInOrder | connection.go:84-104 | when no read fails, the pump shows the rendering of every text or binary message in arrival order and keeps reading |
| Connection.ShownAppend | connection.go:84-104 | the lines shown for two consecutive runs of messages are those of the first run followed by those of the second |
| Connection.ReceivePumpStopsAtFirstFailure | connection.go:84-90 | messages before the first failed read are shown, its error is reported, and nothing after it is read |
| Connection.ReceivePumpSkipsUnknown | connection.go:98-100 | a message of an unknown type changes neither the output nor the termination: the pump behaves as if it had not arrived |
| Connection.LineMessage | connection.go:67 | a console line is sent as a text message whose bytes are the line's bytes |
| Connection.ConsolePump | connection.go:58-74 | written message i is the text message of line i, and line i was read and write i succeeded; the loop stops on the first failed read or write, and that error is the one reported; a pump that reports nothing has used up its input |
| Connection.ConsolePumpOneMessagePerLine | connection.go:59-73 | k lines read and written without error give exactly k text messages with the same bytes, in order; the read error after them ends the loop and is the one reported |
| Connection.BinaryFrameExample | connection.go:96-97 | the binary payload 0xAB 0xCD is shown as "ab cd " |
| Connection.Connect | connection.go:23-56 | a dial error, then a line-editor error, is returned before any pump starts, with nothing sent or shown; in read-only mode nothing is sent and the receive pump's error is the result; otherwise the result is the error of one of the pumps, and there is one iff some pump failed |
| Command.DeriveOrigin | main.go:62-68 | the derived origin has scheme `https` iff the destination scheme is `wss`, otherwise `http`, and every other URL component is copied |
| Command.ChooseOrigin | main.go:58-69 | a non-empty `--origin` is used verbatim; otherwise the origin is the rendering of a URL equal to the destination except for its scheme, which is `https` iff the destination scheme is `wss` and `http` otherwise |
| Command.Fanout | main.go:71-84 | max(0, n)·len(params) launches; launch k belongs to round k div len(params) and carries parameter k mod len(params) and that parameter's target |
| Command.Root | main.go:40-84 | the version flag wins first, with the line "ws v0.2.1"; otherwise an argument count other than 1 shows usage; otherwise a parse error is reported; only then are sessions launched, in the nested order and each with the same origin, flags and substituted URL |
| Command.SessionErrors | main.go:78-81 | only returned errors are printed, none when no session returned one; when every session returned an error, error k is exactly session k's, one per session |
| Command.Process | main.go:40-86 | exit 0 for the version flag; exit 1 exactly for a wrong argument count or a parse error, with no session run; otherwise the process ends iff every session has returned, then exits 0 and prints session k's own error as error k (the race on the shared `err` is left out) |
| Command.SessionFailuresDoNotChangeExit | main.go:76-85 | of two runs that both ended, the exit codes agree whatever the sessions returned |
| Command.DialFailureIsReportedOnly | main.go:78-81 | session k whose dial fails returns that error at once with nothing sent or shown; once the process ends it exits 0 and prints that error as session k's |
| Command.AllDialsFailing | main.go:71-85 | if every dial fails, the process ends, exits 0 and prints each session's dial error in launch order |
| Command.PlainSchemeOrigin | main.go:62-68 | `ws://host/path` without `--origin` gets the origin `http://host/path`, path kept |
| Command.ReadOnlyWritesNothing | connection.go:50-53 | with `--readonly`, no launched session writes a message |
| Command.DefaultsLaunchOneSession | main.go:30-35 | with the default flags and one parsable URL, exactly one session is launched, for parameter "genba00", neither read-only nor insecure |

## Left out

- Dialing itself (gorilla `Dialer`, `http.ProxyFromEnvironment`, TLS `InsecureSkipVerify`) is a network call. Its outcome is the `dialError` field of a session's environment. `url`, `origin` and `insecure` reach only that call.
- `readline.NewEx`, `Readline`, `rl.Close` and `rl.Stdout` are terminal I/O. Their results are the `readlineError` and `lines` fields. Closing the line editor has no observable effect in the model.
- The printed line's timestamp (`time.Now().UTC()`), local address (`LocalAddr()`) and colour are nondeterministic or decorative. Only the rendered payload is modelled.
- The stderr diagnostics of the pumps ("s.rl.Readline failed", "unknown websocket frame type") are not modelled.
- Hex.SpaceAfterPairs: treats each byte as one character, whereas Go's regexp `.` matches a whole UTF-8 rune. The two agree on ASCII text, and the source only rewrites hex digits.
- Goroutines, the unbuffered error channel and `sync.WaitGroup` are concurrency concerns. Which pump's error reaches the channel first is the `consoleFirst` field. A pump abandoned after its sibling fails keeps consuming its own environment in the model.
- Command.Process: this member and the lemmas Command.DialFailureIsReportedOnly and Command.AllDialsFailing print each session's own error. In Go every session goroutine assigns `connect`'s result to the one `err` declared by `url.Parse` and then reads it again to print it (main.go:51, 78-80). Another session can overwrite `err` in between, so in Go a session may print another session's error and never print its own (two failing dials can print e2 twice and e1 never), and errors appear in completion order. The model prints each session's own result, once, in launch order.
- `fmt.Sprintf` on the URL template is the function parameter `sprintf` (main.go:75). Go's `%!(EXTRA …)` suffix is not modelled. Go appends it whenever no formatting verb in the URL consumes the parameter, because every launch passes one parameter; a verb other than `%s` (a raw query `?a=%20b` reads as `%b`) gives its own `%!b(…)` form instead, which `sprintf` is free to return.
- `url.Parse` and `URL.String` are library code, so they are the parameters `parse` and `show`. The URL record keeps only scheme, opaque part, user, host, path, raw query and fragment.
- cobra flag parsing and the help text are not modelled. `Options` holds the parsed values and `DefaultOptions` the registered defaults.
