# NetMap core, modelled in Dafny

NetMap measures UDP throughput between two hosts while tracking the operator's
GPS position. This project models the sequential logic of its core:

- the **position fix** (`Position`) and its equality (`position.dfy`, module `GpsPosition`);
- the **location-feed client** (`Host` / `Phone` in `src/gps.rs`, one `Gps.FeedClient` here):
  the connect loop with binary exponential backoff, and the read loop that
  stores a fix only for a `TPV` message with `mode` 2 or 3 (`gps.dfy`);
- the **UDP endpoints** (`src/clients.rs`): payload sizing, the count-bounded
  `Sender` (a burst of `pkt_count` zero-filled datagrams, then one receive
  attempt) and the echoing `Receiver` with its per-second byte counter
  (`clients.dfy`);
- the **GPS mode text forms** (`src/cli/modes.rs`): `GpsMode`'s `FromStr` and
  `Display`, and the `Receiver` arm of `RunMode`'s `Display` (`modes.dfy`).

`wrappers.dfy` holds `Option` and `Result`.

Modelling choices:

- `lat`/`lon` are `f64`s that are only copied and compared. They are kept as
  their IEEE-754 bit patterns (`bv64`), so `Position`'s `==` has Rust's
  meaning: a NaN coordinate makes a position unequal to itself, and +0.0
  equals -0.0.
- A feed line reaches the model already parsed: an object (a map from keys to
  values), another JSON value, or text that is not JSON. A JSON number carries
  serde_json's `as_u64` and `as_f64` views of itself. Indexing an absent key or
  a non-object gives `Null`, as serde_json does.
- The source's loops never end. The model runs them over finite inputs: a
  sequence of connect outcomes, a sequence of feed lines, a sequence of clock
  readings (integer nanoseconds). Each loop is a Dafny method proved against a
  pure function of those inputs (`Replay`, `RxRun`, `BackoffDelays`), and the
  properties are proved about the functions.
- A UDP socket is a class with what its next `recv_from` calls will find
  (`pending`) and every datagram sent through it (`sent`). An empty `pending`
  means "no data" (the sockets are non-blocking). A datagram longer than the
  receive buffer is cut to the buffer's length.
- Panics are error values: `Fatal` for the feed thread (invalid JSON, a TPV
  message whose `mode` is not an unsigned integer, `2_u64.pow` overflow) and
  `PayloadError` for a packet size under 42.

Points where the code's behaviour is easy to misread:

- The sender is not rate-paced. It has no AIMD step and no throughput/loss
  window; `Sender::run` only takes a packet count and a size.
- A packet size of exactly 42 is accepted and gives an empty payload; only a
  size below 42 underflows.
- The receiver closes its window only when strictly more than one second has
  passed. It reports only if the window's byte count is positive, and it
  resets the counter either way.
- A TPV message without an unsigned-integer `mode` ends the feed thread
  (`unwrap` on `as_u64`).
- In a debug build, connection retries are not unbounded. `2_u64.pow(retries)` overflows at
  `retries == 64`, so the 65th consecutive failure panics.

## Model

| member | source | states |
|---|---|---|
| `GpsPosition.New` | src/gps/position.rs:11-13 | the fix holds exactly the time, latitude and longitude given |
| `GpsPosition.Default` | src/gps/position.rs:15-17 | the default fix has the empty time and +0.0 for both coordinates |
| `GpsPosition.DefaultIsEmptyFix` | src/gps/position.rs:15-23 | the default equals itself; a fix equals the default iff its time is empty and both coordinates are zeros of either sign |
| `GpsPosition.NewEqIffArgumentsEq` | src/gps/position.rs:11-23 | two fixes built by `new` are equal iff the times are equal and each coordinate pair is IEEE-equal |
| `GpsPosition.Eq` | src/gps/position.rs:20-24 | equal fixes have the same time and no NaN coordinate |
| `GpsPosition.EqIsPartialEquivalence` | src/gps/position.rs:20-24 | equal fixes have the same time; equality is symmetric and transitive |
| `GpsPosition.EqReflexiveUnlessNaN` | src/gps/position.rs:21-23 | a fix equals itself iff neither coordinate is a NaN |
| `GpsPosition.FloatEqSymmetric` | src/gps/position.rs:22 | coordinate equality is symmetric |
| `GpsPosition.FloatEqTransitive` | src/gps/position.rs:22 | coordinate equality is transitive |
| `GpsPosition.FloatEqReflexiveUnlessNaN` | src/gps/position.rs:22 | a coordinate equals itself iff it is not a NaN |
| `GpsPosition.FloatEqIsIdentityOnCanonical` | src/gps/position.rs:22 | without NaNs and -0.0, coordinate equality is bit equality |
| `GpsPosition.Display` | src/gps/position.rs:26-30 | a fix displays as the empty text |
| `Gps.IsTpv` | src/gps.rs:83 | a message is TPV iff it is an object whose `class` field is the string `"TPV"` |
| `Gps.FixOf` | src/gps.rs:86-90 | the fix takes `time` if it is a string, else empty, and `lat`/`lon` if they are numbers, else +0.0 |
| `Gps.Decide` | src/gps.rs:81-93 | a line panics iff it is not JSON, or is TPV without an unsigned mode; it yields a fix iff class is `"TPV"` and mode is 2 or 3, and that fix is `FixOf` the message; any other class yields nothing; a TPV message whose unsigned mode is neither 2 nor 3 yields nothing |
| `Gps.Replay` | src/gps.rs:78-96 | after any lines, the store holds the starting fix or the fix some line carried |
| `Gps.ReplayKeepsLatestFix` | src/gps.rs:78-96 | with no panic, the store ends holding the fix of the last line that carried one |
| `Gps.ReplayWithoutFix` | src/gps.rs:83-94 | lines that carry no fix and cause no panic leave the store unchanged |
| `Gps.ReplayNeverFails` | src/gps.rs:78-96 | lines that cause no panic never stop the loop |
| `Gps.ReplayHaltsAtFatal` | src/gps.rs:81-84 | after a panic, later lines have no effect |
| `Gps.ReplayStopsAtFirstFatal` | src/gps.rs:81-84 | the first panicking line ends the loop with its own panic; the store keeps what the earlier lines left |
| `Gps.BackoffDoubles` | src/gps.rs:53-60 | the first delay is 1 ms and each delay is twice the previous |
| `Gps.FirstFiveDelays` | src/gps.rs:53-60 | the first five delays are 1, 2, 4, 8, 16 ms |
| `Gps.LeadingFailures` | src/gps.rs:55-65 | the count of failed attempts before the first success: all before it fail, the one at it succeeds |
| `Gps.Connect` | src/gps.rs:53-65 | after f failures it has slept 2^0 … 2^(f-1) ms; connects with `retries` equal to the number of failures; panics on the 65th failure; otherwise keeps retrying |
| `Gps.FeedClient.constructor` | src/gps.rs:18-23 | the store starts at the default fix |
| `Gps.FeedClient.ReadLoop` | src/gps.rs:78-96 | the store and the stopping panic are those `Replay` gives for the old store and the lines read |
| `Gps.FeedClient.Run` | src/gps.rs:50-97 | backoff and connect outcome as in `Connect`; the read loop runs only once connected, and the store is untouched otherwise |
| `Modes.Split` | src/cli/modes.rs:109 | splitting always yields at least one piece |
| `Modes.JoinSplit` | src/cli/modes.rs:109 | joining the pieces with the separator gives back the input |
| `Modes.SplitPieces` | src/cli/modes.rs:109-110 | there is one piece more than separators, and no piece contains the separator |
| `Modes.SplitWithoutSeparator` | src/cli/modes.rs:109 | text without the separator is a single piece |
| `Modes.SplitAfterWord` | src/cli/modes.rs:109 | a separator-free word followed by the separator splits off as the first piece |
| `Modes.FromStr` | src/cli/modes.rs:108-123 | every error carries `"invalid GPS mode: "` followed by the input |
| `Modes.Display` | src/cli/modes.rs:96-103 | a mode prints as `Host` or `Phone`, one space, then the device |
| `Modes.DisplayInjective` | src/cli/modes.rs:96-103 | distinct modes print differently |
| `Modes.DisplayThenParse` | src/cli/modes.rs:96-123 | parsing the printed form of a mode whose device has no space gives that mode back |
| `Modes.ParseCharacterisation` | src/cli/modes.rs:96-123 | parsing yields `m` iff the input is the printed form of `m` and `m`'s device has no space |
| `Modes.ParseThenDisplay` | src/cli/modes.rs:96-123 | a successfully parsed text prints back exactly as it was |
| `Modes.DeviceWithSpaceRejected` | src/cli/modes.rs:109-112 | a mode whose device contains a space does not survive printing and parsing; the result is the invalid-mode error |
| `Modes.UnknownKeywordRejected` | src/cli/modes.rs:114-122 | two words whose first is neither `Host` nor `Phone` (case-sensitive) give the invalid-mode error |
| `Modes.DecimalStringRoundTrip` | src/cli/modes.rs:77 | a port prints as decimal digits with no leading zero that read back as the port |
| `Modes.DisplayReceiver` | src/cli/modes.rs:74-77 | the receiver mode prints as `Receiver (`, the port in decimal digits with no leading zero that read back as the port, then `)` |
| `Clients.PayloadSize` | src/clients.rs:25-26 | the payload size is the packet size less 42; it exists iff the packet size is at least 42 |
| `Clients.ZeroPayload` | src/clients.rs:28 | the payload has exactly the requested length, and every byte is zero |
| `Clients.PayloadBoundary` | src/clients.rs:25-28 | a 42-byte packet gives an empty payload; below 42 is the underflow error |
| `Clients.Deliver` | src/clients.rs:67-68 | a receive succeeds iff a datagram arrived; it reports that datagram's source and at most the buffer's size, and the full length when the datagram fits |
| `Clients.Burst` | src/clients.rs:31-36 | the burst holds exactly `n` copies of the datagram |
| `Clients.UdpSocket.SendTo` | src/clients.rs:98-100 | the datagram is appended to what was sent; nothing pending changes |
| `Clients.UdpSocket.RecvFrom` | src/clients.rs:68 | the result and the remaining events are those of `Receive`; nothing sent changes |
| `Clients.Sender.constructor` | src/clients.rs:13-18 | the sender keeps the socket and target address it is given |
| `Clients.Sender.Run` | src/clients.rs:20-45 | below 42 bytes nothing is sent; otherwise exactly `pkt_count` zero payloads of `packet_size - 42` bytes go to the target, then exactly one receive into the 9000-byte buffer |
| `Clients.Receiver.constructor` | src/clients.rs:53-57 | `Receiver::new` creates the socket; the model is given it, already bound and non-blocking, and the receiver keeps exactly that socket |
| `Clients.Absorb` | src/clients.rs:68-79 | a received datagram appends one echo to its source and adds exactly the echo's length to the counter; no data changes neither |
| `Clients.CloseWindow` | src/clients.rs:81-93 | the state changes iff more than one second has passed; then the counter is 0, the window restarts now, and the counter's bytes move into the rate lines |
| `Clients.RxStep` | src/clients.rs:66-93 | one iteration keeps the window start or restarts it now, and adds at most one rate line, keeping the earlier ones |
| `Clients.RxStepClosesWindow` | src/clients.rs:81-93 | past one second, the count including this iteration's datagram becomes a rate line if non-zero and counter and clock reset; otherwise both carry on |
| `Clients.RxRun` | src/clients.rs:59-94 | the window start is the starting time or one of the clock readings |
| `Clients.Receiver.Run` | src/clients.rs:59-96 | the socket, counter, window start and rate lines end as `RxRun` gives from a zero counter started at `start` |
| `Clients.RxStepAccounts` | src/clients.rs:66-93 | one iteration takes at most one pending event and echoes it; its bytes move into the counter or a rate line |
| `Clients.RxRunConsumes` | src/clients.rs:66-94 | n iterations consume the first n pending events, or all of them if there are fewer |
| `Clients.RxRunEchoes` | src/clients.rs:66-100 | what the receiver sends is exactly one echo per received datagram, in order: a zero buffer of the received size, sent back to its source |
| `Clients.RxRunConservesBytes` | src/clients.rs:72-92 | reported bytes plus the counter grow by exactly the bytes received, so none is lost at a reset and none counted twice |
| `Clients.RxRunReportsOnlyBusyWindows` | src/clients.rs:81-93 | earlier rate lines are kept; each new one covers a window longer than one second with at least one byte |
| `Clients.EchoesAreZeroBuffers` | src/clients.rs:67-71 | every echo is all zeros and at most 65536 bytes long |
| `Clients.EchoMatchesDatagram` | src/clients.rs:69-71 | a datagram that fits the buffer is echoed at its exact length to its source |

## Left out

- Launching the feed daemon (`run_gpsd`, the `sudo pkill` / `systemctl stop` / `gpsd` calls): these are foreign processes. `Host` and `Phone` differ there (`-n`) and in logging: `Phone` logs every line read (src/gps.rs:181), while `Host`'s log line is commented out (src/gps.rs:95). Logging is not modelled, so the model has one client.
- The TCP connect, the `?WATCH={"enable":true,"json":true}` handshake write, `try_clone` and `read_line`: I/O. A connect attempt is a boolean outcome and a line is an already-parsed value. A failing handshake write or `try_clone` also panics, and that is not modelled. End of input reads as an empty line, so serde_json rejects it; the model has that case as `Unparsable`.
- JSON parsing with serde_json: a foreign library. Its `as_u64` and `as_f64` results are carried by each number instead; its `value[key]` indexing (null for a missing key or a non-object) is the helper `Gps.Index`, assumed rather than proved.
- `Clients.Receiver.constructor`: `UdpSocket::bind` on `127.0.0.1:<port>` and `set_nonblocking(true)` are I/O, and their `unwrap` panics (for example, a port already in use) are not modelled. The socket comes in already bound and non-blocking.
- Threads, `JoinHandle`, `Arc<Mutex<Position>>` and lock poisoning: concurrency. The store is the single field `FeedClient.position`, written by one method. Nothing in the code reads it back, so no getter is modelled.
- The `tracing` log calls, the `trace!` of the sender's one receive, and the `debug!` of every feed line: logging.
- The Mbps and bytes-per-second `f64` arithmetic of the receiver's rate line: floating point. A `Report` keeps the byte count and the window length the figure is computed from. `bytes_per_second > 0.0` is modelled as "the byte count is positive", which is the same for any window shorter than about 1e300 seconds.
- `Instant` and the wall clock: the clock is a sequence of integer nanosecond readings, one per loop iteration. The reset's own `Instant::now()` is taken as that iteration's reading.
- `Clients.Receiver.Run`: `bytes_received` is an unbounded integer, so `usize` overflow is not modelled. A successful `send_to` is assumed, so the `unwrap` panic on a failed send is not modelled.
- `Clients.Sender.Run`: every `send_to` succeeds, so its `unwrap` panic is not modelled. The receive result is returned instead of being logged.
- `Clients.PayloadSize`: models the debug-build panic when `packet_size - 42` underflows. A release build would wrap around to a payload of nearly 65536 bytes instead.
- `Gps.Connect`: models the debug-build panic of `2_u64.pow(retries)` once `retries` reaches 64. A release build would wrap. The source loops forever; the model stops when the given attempts run out, and reports `StillRetrying`.
- `Gps.FeedClient.ReadLoop`: the source loops forever; the model stops at the end of the given lines.
- `RunMode::Sender`'s `Display`: it formats an `f64` data rate and an `IpAddr`, neither of which is modelled.
- `GpsMode` devices are modelled as text. Rust compares `PathBuf`s by path component, so `a//b` equals `a/b`. The model's exact text equality implies the Rust equality, so the round trip proved is at least as strong.
- clap attributes and defaults, `src/cli.rs` and `src/main.rs`: command-line and start-up wiring. `main.rs` calls `sender.run` with three arguments, but `Sender::run` takes two, and `main.rs` never declares `mod gps`.
- The rate-paced (AIMD) sender and its throughput/loss window: not present in the source.
