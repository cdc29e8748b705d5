# huzaa-bot relay client and DCC SSEND codec, in Dafny

This project models two parts of the huzaa-bot IRC file-sharing bot and proves properties of
the models.

- **The relay session client** (`internal/turnclient/client.go`). It builds and sends the Auth
  frame. It registers a download or an upload session with a 36-byte zero-padded session id
  and reads back the port the relay allocates. A **download session** streams a file as Data
  frames of at most 32 KiB, one per read of the file, optionally capped at `maxBytes`, and
  then sends an EOF frame. An **upload
  stream** is an `io.Reader` over the Data frames the relay forwards.
- **The CTCP / DCC SSEND codec** (`internal/irc/irc.go`). It takes the CTCP payload out of a
  PRIVMSG, recognises a `DCC SSEND` offer and parses the offer's filename, host and port.

Modules:

- `Wrappers`: `Option` and `Result`.
- `Bytes`: bytes, the big-endian 32-bit layout of `encoding/binary`, and the `%x` hex text.
- `Decimal`: the part of `strconv.Atoi` and `strconv.Itoa` that the code uses, assuming a
  64-bit `int`.
- `Frames`: the framed relay connection, treated abstractly.
  - A `Conn` holds the frames written so far, the frames the relay has still to deliver, a
    closed flag, and how many more frames the transport accepts.
  - Writing, reading and closing update those fields in place.
- `TurnClient`: the client value, authentication, registration, and the two session classes.
  - `DownloadSession` and `UploadStream` are classes whose methods change their fields and
    their connection, as the Go methods do.
  - `SendFile` is proved against a specification function `SendPlan`. `SendPlan` lists the
    frames the loop means to write and says how the loop ends.
  - `UploadStream.Read` is proved to keep a ghost invariant `Valid`. `Valid` says that the bytes
    handed out so far, followed by the bytes still buffered, equal the payloads of the Data
    frames read so far.
  - `SendThenRead` connects the two sides: reading back what `SendFile` writes yields the
    file's bytes, cut at the cap. The read-back side is the function `ReadAll`, which applies
    `Pull` again and again. It is tied to `UploadStream.Read` through `Pull` and nothing else:
    `Fill` consumes exactly the frames `Pull` takes, and `Read` keeps `Valid`. No method that
    calls `Read` in a loop is proved against `ReadAll`.
- `Irc`: `ParseCTCP`, `IsDCCSSEND` and `ParseDCCSSEND` as pure functions over strings.
  - `strings.Split`, `strings.Join` and ASCII `strings.ToUpper` are modelled with their
    round-trip lemmas.

Go strings in the relay client are byte sequences. In the IRC codec a Dafny `string` is read
as one character per byte.

## Model

| member | source | states |
|---|---|---|
| TurnClient.NewClient | internal/turnclient/client.go:41-64 | Fails with the missing-host error exactly when the host is empty. Otherwise keeps host and credentials. The port is 5349 when the URL names none, else what `strconv.Atoi` returns, ignoring its error. |
| TurnClient.GenerateSessionID | internal/turnclient/client.go:22-28 | A `crypto/rand` failure is passed through. Sixteen random bytes become 32 lowercase hex characters, and unhexing them gives back the bytes. |
| Bytes.Hex | internal/turnclient/client.go:27 | `fmt.Sprintf("%x", b)`: twice as many characters as bytes, all of them lowercase hex digits. `HexRoundTrip` gives its inverse. |
| Bytes.Unhex | internal/turnclient/client.go:27 | Hex text back to bytes, half as many. It is the reference inverse of `Hex`, not a function of the Go code. |
| Bytes.HexRoundTrip | internal/turnclient/client.go:27 | Decoding the `%x` text of any byte slice gives back the slice. |
| Bytes.Be32 | internal/turnclient/client.go:73 | `binary.BigEndian.PutUint32`: four bytes. `Be32RoundTrip` shows that `Be32Value` reads them back as `n`. |
| Bytes.Be32Value | internal/turnclient/client.go:181 | `binary.BigEndian.Uint32`: a value below 2^32, read from the first four bytes only. |
| Bytes.Be32RoundTrip | internal/turnclient/client.go:73 | The value of the four big-endian bytes written for `n` is `n`, whatever bytes follow them. |
| Bytes.Be32Injective | internal/turnclient/client.go:181 | Re-encoding the value decoded from a buffer's first four bytes reproduces those four bytes. |
| TurnClient.AuthPayload | internal/turnclient/client.go:71-75 | Length is 4 + len(username) + len(secret). The username is at offset 4 and the secret right after it. |
| TurnClient.ParseAuthPayload | internal/turnclient/client.go:71-75 | How a relay reads the layout back. Whatever it accepts splits the whole payload. |
| TurnClient.AuthPayloadRoundTrip | internal/turnclient/client.go:71-75 | For a username shorter than 2^32 bytes, parsing the Auth payload gives back username and secret. |
| TurnClient.AuthReply | internal/turnclient/client.go:83-89 | Authenticated exactly when the reply is AuthOk. An Error reply gives the relay's reason. Anything else is an unexpected-response error carrying the type. |
| TurnClient.Authenticate | internal/turnclient/client.go:67-90 | Without both credentials: the credentials error, and nothing is written. A refused write: that error and nothing read. Otherwise one Auth frame is written and one reply consumed: a read error, or the classification of the reply. |
| TurnClient.RegistrationBytes | internal/turnclient/client.go:154-162 | 36 + len(filename) bytes. Byte i < 36 is the session id's byte i, or 0 past its end. Then the filename. |
| TurnClient.BuildRegistrationPayload | internal/turnclient/client.go:154-162 | The truncate / append / zero-pad-to-36 loop, followed by appending the filename, produces exactly `RegistrationBytes`. |
| TurnClient.GeneratedIdPadding | internal/turnclient/client.go:22-28 | A generated session id fills 32 bytes of the field, then exactly four zero bytes, then the filename. |
| TurnClient.RegisterReply | internal/turnclient/client.go:173-181 | A port exactly for a PortAlloc reply of at least 4 bytes, and it is the big-endian value of the first four. An Error reply gives the relay's reason. Any other reply is "unexpected response". |
| TurnClient.PortAllocRoundTrip | internal/turnclient/client.go:177-181 | A PortAlloc reply that carries a 32-bit port, followed by any bytes, yields that port. |
| TurnClient.RegistrationOutcome | internal/turnclient/client.go:145-183 | Registration succeeds exactly when the credentials are set, both writes are accepted, the first reply is AuthOk and the second is a PortAlloc of at least 4 bytes. Otherwise: a missing credential, a rejected auth, or a relay error, each with its message. |
| TurnClient.RegistrationWrites | internal/turnclient/client.go:145-171 | A prefix of [Auth frame, registration frame] no longer than the frames the connection accepts. Both frames are written when the registration succeeds. The Auth frame is written whenever the credentials are set and one frame fits. |
| TurnClient.Register | internal/turnclient/client.go:145-183 | A dial failure is returned unchanged. Otherwise exactly the registration frames are written on a fresh connection. Success exactly when `RegistrationOutcome` succeeds: then relay host, allocated port, and the connection open with both replies consumed. Every failure returns "" and 0, and the connection is closed. |
| TurnClient.RegisterDownload | internal/turnclient/client.go:145-183 | As `Register`, with a RegisterDownload frame. On success, a new session over the open connection. On failure, no session. |
| TurnClient.RegisterUploadStream | internal/turnclient/client.go:228-266 | As `Register`, with a RegisterUpload frame. On success, a new stream with nothing buffered, no EOF seen and `Valid` holding. On failure, no stream. |
| TurnClient.Classify | internal/turnclient/client.go:198-208 | The meaning of one frame read by the refill loop. `ClassifyCases` states its cases. |
| TurnClient.ClassifyCases | internal/turnclient/client.go:198-208 | Only an empty Data frame is skipped. A non-empty Data frame hands on its payload. Any other frame ends the loop with its own meaning, never a broken connection. |
| TurnClient.PulledError | internal/turnclient/client.go:196-206 | The error `Read` returns is nil exactly when the loop found data. It is io.EOF exactly when the loop read an EOF frame. |
| TurnClient.Pull | internal/turnclient/client.go:193-209 | The refill loop takes no more frames than the relay sends. Data it ends with is never empty. It takes at least one frame when there is one. |
| TurnClient.Capped | internal/turnclient/client.go:104-105 | With a positive cap, the bytes already sent plus the result never exceed the cap. |
| TurnClient.Take | internal/turnclient/client.go:103-106 | A chunk is forwarded whole, or cut to exactly what is left under the cap. |
| TurnClient.SendPlan | internal/turnclient/client.go:98-132 | The frames SendFile's loop writes, with how it ends, when every write succeeds. Its properties are the lemmas `SendPlanShape`, `SendPlanBytes` and `SendPlanFailure`. |
| TurnClient.SendPlanShape | internal/turnclient/client.go:98-132 | For a reader that never overfills its buffer, SendFile writes only non-empty Data frames of at most 32 KiB. A run that succeeds ends with one EOF frame, after every Data frame. A run that fails on the reader writes no EOF. |
| TurnClient.SendPlanBytes | internal/turnclient/client.go:98-132 | The Data payloads, concatenated, are the reader's bytes in order: all of them when `maxBytes <= 0`, otherwise the first min(total, maxBytes). |
| TurnClient.SendPlanFailure | internal/turnclient/client.go:117-126 | SendFile fails on the reader exactly when the reader reports an error before io.EOF and before the cap is reached. The error is the reader's first one. Reaching the cap ends the run successfully. |
| TurnClient.SendResult | internal/turnclient/client.go:110-131 | nil exactly when every planned frame fits and the reader reported no error. A write error when the frames do not all fit. |
| TurnClient.Delivered | internal/turnclient/client.go:110-112 | A connection that accepts `capacity` frames receives the first min(planned, capacity) planned frames. |
| TurnClient.StoppedWriting | internal/turnclient/client.go:110-112 | Proof step of `SendFile`, one unfolding. When a write fails, the frames before it are the ones delivered, and SendFile returns the write error. |
| TurnClient.FinishedWriting | internal/turnclient/client.go:121-131 | Proof step of `SendFile`, one unfolding. When every planned frame fits, all are delivered. SendFile returns the reader's error or nil. |
| TurnClient.PlanEnds | internal/turnclient/client.go:117-123 | Proof step of `SendFile`, one unfolding of `SendPlan`. A chunk that reaches the cap or reports io.EOF ends the plan with its Data frame and the EOF frame. |
| TurnClient.PlanFails | internal/turnclient/client.go:124-126 | Proof step of `SendFile`, one unfolding of `SendPlan`. A chunk that reports an error ends the plan with its Data frame and that error. |
| TurnClient.PlanContinues | internal/turnclient/client.go:101-127 | Proof step of `SendFile`, one unfolding of `SendPlan`. Any other chunk contributes its Data frame, and the plan goes on with the next read. |
| TurnClient.PlanStarts | internal/turnclient/client.go:102-112 | Proof step of `SendFile`, one unfolding of `SendPlan`. Every plan starts with the frame of the first read. |
| TurnClient.ChunkStep | internal/turnclient/client.go:102-126 | One pass goes on exactly when its frame fits, the cap is not reached and the read reported neither io.EOF nor an error. It stops only at the cap or at io.EOF. It fails with the write error when the frame does not fit. |
| TurnClient.DownloadSession.SendChunk | internal/turnclient/client.go:102-126 | One pass of the loop writes the chunk's Data frame, cut at the cap, or nothing for an empty read. It reports the number of bytes taken, and whether to stop (cap or io.EOF), fail (write or read error) or go on. |
| TurnClient.DownloadSession.SendFile | internal/turnclient/client.go:98-132 | The connection receives exactly the first min(planned, capacity) frames of `SendPlan`. The result is the write error if the frames did not all fit, else the reader's error, else nil. Nothing else in the connection changes. |
| TurnClient.DownloadSession.Close | internal/turnclient/client.go:135-142 | The first call closes the connection and drops it. A second call does nothing and returns nil. |
| TurnClient.PullEnds | internal/turnclient/client.go:193-209 | The refill loop passes over empty Data frames only. It stops at the first other frame and ends with that frame's meaning, or ends with the connection reporting its end. The payload it hands on is exactly the Data carried by the frames it took. |
| TurnClient.UploadStream.Fill | internal/turnclient/client.go:193-209 | Keeps `Valid`. Consumes exactly the frames `Pull` says. Buffers the payload it found. Sets `eof` exactly on an EOF frame. Returns the matching error (io.EOF, the relay's reason, unexpected type, transport) or nil. Writes nothing. |
| TurnClient.UploadStream.Stopped | internal/turnclient/client.go:198-206 | The refill loop meets a frame other than Data. It keeps `Valid` with that frame and the empty ones before it consumed. Its result is io.EOF (setting `eof`) for an EOF frame, the relay's reason for an Error frame, and the unexpected type otherwise. |
| TurnClient.UploadStream.Read | internal/turnclient/client.go:192-216 | Keeps `Valid`, so the bytes handed out extend the bytes delivered by exactly `p[..n]`. With bytes buffered: copies min(len(p), buffered) and keeps the rest. After EOF: (0, io.EOF) without reading. Otherwise as `Fill`, then copies. `p` beyond `n` is untouched. |
| TurnClient.UploadStream.CopyOut | internal/turnclient/client.go:213-215 | `copy(p, buf)`: n = min(len(p), len(buf)). The first n bytes of `p` are the buffer's, the rest of `p` is untouched, and the buffer keeps its tail. |
| TurnClient.UploadStream.Close | internal/turnclient/client.go:218-225 | The first call closes the connection and drops it. A second call does nothing and returns nil. |
| TurnClient.RefillKeepsValid | internal/turnclient/client.go:193-209 | One refill on a valid stream adds exactly the buffered payload to the Data read, and an EOF frame exactly when it ends with io.EOF. |
| TurnClient.ReadAll | internal/turnclient/client.go:192-216 | Repeated reads end with something other than data. |
| TurnClient.ReadAllDataRun | internal/turnclient/client.go:193-209 | A reader passes over a run of Data frames, collecting their payloads as one byte sequence in order. |
| TurnClient.SendThenRead | internal/turnclient/client.go:98-132 | Reading back what SendFile writes yields the reader's bytes cut at the cap, then io.EOF when SendFile succeeds, or the connection ending when it failed on the reader. |
| Frames.Conn.WriteFrame | internal/turnclient/client.go:110-112 | A frame is written whole while the transport accepts frames. Otherwise the error is returned and nothing changes. |
| Frames.Conn.ReadFrame | internal/turnclient/client.go:194-197 | Returns the relay's next frame and consumes it. Reports the end of the connection when none is left, and use after close on a closed connection. |
| Frames.Conn.Close | internal/turnclient/client.go:137 | Closes the connection. Closing a closed connection reports use after close. |
| Frames.DataConcatAppend | internal/turnclient/client.go:208 | The Data payloads of two frame runs, concatenated, are the payloads of the joined run. |
| Decimal.ScanDigits | internal/irc/irc.go:88 | The digit scan of `strconv.ParseUint`. It yields a value exactly when the text is all digits and fits in 64 unsigned bits, and the value is then `DigitsValue`. A bad digit is reported only for text that is not all digits. |
| Decimal.Atoi | internal/irc/irc.go:88 | Empty text after the optional sign is a syntax error. An optionally signed, non-empty run of digits is never a syntax error, and it parses exactly when its signed value lies in the 64-bit range. A parsed value is that signed value: `-DigitsValue` after a `-` sign. A range error carries the bound of the sign: MinInt64 after `-`, MaxInt64 otherwise. |
| Decimal.AtoiOverflowFirst | internal/irc/irc.go:88 | A run of digits too large for 64 unsigned bits is a range error with bound MaxInt64, whatever text follows it. |
| Decimal.AtoiValue | internal/turnclient/client.go:48 | The port `NewClient` keeps when it ignores Atoi's error: the parsed value, 0 on a syntax error, the range error's bound on a range error. It always lies in the 64-bit range. |
| Decimal.FormatNat | cmd/fileshare/main.go:152 | `strconv.Itoa` of a non-negative value: a non-empty run of digits, with no leading zero except for "0" itself. |
| Decimal.AtoiFormatRoundTrip | cmd/fileshare/main.go:152 | `strconv.Atoi(strconv.Itoa(n)) == n` for every non-negative 64-bit n. |
| Irc.SpaceAt | internal/irc/irc.go:63 | The position of the first space, or the length when there is none. Nothing before it is a space. |
| Irc.Join | cmd/fileshare/main.go:152 | The offer text the bot builds by joining fields with single spaces. `SplitJoin` and `JoinSplit` show that it is the inverse of `Split`. |
| Irc.Split | internal/irc/irc.go:82 | At least one field, and no field contains a space. |
| Irc.SplitJoin | internal/irc/irc.go:82 | Splitting the space-joined text of space-free fields gives the fields back. |
| Irc.JoinSplit | internal/irc/irc.go:82 | Joining the fields of any text with spaces gives the text back. |
| Irc.ToUpper | internal/irc/irc.go:64 | Same length. Each byte is upper-cased on its own. |
| Irc.ToUpperIdempotent | internal/irc/irc.go:64 | Upper-casing twice is upper-casing once. |
| Irc.ParseCTCP | internal/irc/irc.go:58-69 | ok exactly when the message has at least 2 bytes and starts and ends with 0x01. Otherwise ("", "", false). When ok: the upper-cased text before the inner payload's first space, and everything after it (or the whole payload and "" when there is no space). |
| Irc.CtcpRoundTrip | internal/irc/irc.go:58-69 | "\x01" + C + " " + R + "\x01" parses to (upper(C), R, true) for any space-free C and any R. |
| Irc.CtcpRoundTripBare | internal/irc/irc.go:58-69 | "\x01" + C + "\x01" parses to (upper(C), "", true). |
| Irc.IsDCCSSEND | internal/irc/irc.go:72-74 | True exactly when the command is "DCC" and the rest starts with the case-sensitive "SSEND ". |
| Irc.ParseDCCSSEND | internal/irc/irc.go:77-93 | Without the "SSEND " prefix: the zero values. Otherwise ok exactly when the remainder splits into at least four fields and the third is a positive Atoi value. Then the result is field 0, field 1 and that port. Every failure gives the zero values. |
| Irc.ParseNeedsSsend | internal/irc/irc.go:72-81 | Everything `ParseDCCSSEND` accepts is recognised by `IsDCCSSEND` after a DCC command. |
| Irc.ParseOfferText | internal/irc/irc.go:81-92 | An offer made of space-free fields is decided by the field count and the third field alone. |
| Irc.FormattedPort | internal/irc/irc.go:88-91 | The decimal text Go writes for any positive 64-bit port is accepted, with that value. |
| Irc.OfferRoundTrip | internal/irc/irc.go:77-93 | "SSEND f h p" followed by one or more further fields parses to (f, h, p, true), whatever those fields are. |
| Irc.OfferExample | internal/irc/irc.go:77-93 | "SSEND report.txt 10.0.0.5 4001 2048" parses to ("report.txt", "10.0.0.5", 4001, true). |
| Irc.NonNumericPortExample | internal/irc/irc.go:88-91 | "SSEND x y z 1" is rejected with the zero values. |
| Irc.ZeroPortExample | internal/irc/irc.go:88-91 | "SSEND x y 0 1" is rejected with the zero values. |
| Irc.OfferMessageRoundTrip | cmd/fileshare/main.go:152 | The sized download offer the bot sends parses as a DCC CTCP, is recognised as SSEND, and yields its filename, host and port. |
| Irc.SizelessOfferRejected | internal/irc/irc.go:83-85 | An offer with filename, host and port but no size is rejected. |
| Irc.ParseDCCSSENDOptionalSize | internal/irc/irc.go:76 | The parser with the size optional: rejects input without the prefix, and every failure gives the zero values. |
| Irc.OptionalSizeRoundTrip | internal/irc/irc.go:76 | The corrected parser accepts "SSEND f h p" with or without further fields, yielding (f, h, p, true). |
| Irc.OptionalSizeExtends | internal/irc/irc.go:76-93 | Whatever the parser as written accepts, the corrected one accepts with the same result. They differ only on inputs with exactly three fields after the prefix. |
| Irc.UploadOfferMessage | cmd/fileshare/main.go:204 | The bot's own size-less upload offer parses as a DCC SSEND CTCP. The parser as written rejects it, and the corrected one yields its fields. |

## Left out

- Dialling (`dial`, `net.DialTimeout`, the TLS handshake, the TLS configuration) is a
  parameter. It either fails with an error, or yields a fresh open connection with a given
  queue of relay frames and a given number of frames it accepts.
- The byte encoding of a frame (`relayprotocol.WriteFrame` / `ReadFrame`) is not part of this
  model. Frames are values of type and payload.
- A read from a relay with nothing left is modelled as the connection ending. Blocking,
  timeouts and partial network writes are not modelled.
- `url.Parse` is not modelled. `NewClient` takes the host and port text already split out, and
  its parse-error path is not modelled.
- `crypto/rand` is a parameter of `GenerateSessionID`.
- The `Debug` flag and its logging are not modelled.
- `fmt.Errorf` texts are error constructors. The comment on each constructor gives its text.
- The reader given to `SendFile` is a finite script of (bytes, status) results of at most one
  32 KiB buffer each. A reader that never reports io.EOF or an error is outside the model.
- DownloadSession.SendFile: `sent` is unbounded, so an int64 overflow of `sent + n` is not
  modelled. It cannot occur for caps and reads of realistic size.
- DownloadSession.SendFile, UploadStream.Read: their loop bodies are separate methods
  (`SendChunk`; `Fill`, `Stopped` and `CopyOut`).
- UploadStream.Read: a read on a closed stream with nothing buffered dereferences a nil
  connection in Go. The model makes that a precondition.
- UploadStream.Read: Go hands the Data payload to the buffer without copying it. The model's
  buffer is a value, so aliasing between the payload and the caller's slices is not modelled.
- Irc.ToUpper: only ASCII letters are upper-cased. The Unicode case mapping of
  `strings.ToUpper` on non-ASCII bytes is not modelled.
- `irc.Connect` and `irc.JoinChannel` are wrappers around the goirc library and a sleeping
  goroutine, so they are not modelled.
- `cmd/fileshare/main.go` is handler dispatch, file I/O and goroutines. Only the two offer
  formats it sends appear, as lemmas. `internal/fileshare` and `internal/config` are not part of
  this model.

## Findings

| source | as written | input that shows it | evidently intended | confidence | as-written member | corrected member |
|---|---|---|---|---|---|---|
| internal/irc/irc.go:83-85 | `ParseDCCSSEND` rejects any offer with fewer than four fields after "SSEND " | "SSEND f h 4001", the size-less upload offer that cmd/fileshare/main.go:204 itself sends, gives ("", "", 0, false) | The size is optional, as the doc comments at irc.go:71 and irc.go:76 say. Three fields suffice. | not executed | Irc.SizelessOfferRejected | Irc.ParseDCCSSENDOptionalSize |
