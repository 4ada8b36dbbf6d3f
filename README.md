# ble-hrs-to-osc, modelled in Dafny

`hrs_to_osc.py` bridges a Bluetooth Low Energy heart-rate sensor to an OSC
endpoint. It scans for a peripheral that advertises the Heart Rate Service
(0x180D). It connects and subscribes to the Heart Rate Measurement
characteristic (0x2A37), decodes every notification into beats per minute,
and forwards the value and a clamped "wait time" as two OSC messages. A
`while True` loop in `main` supervises the connection with a bounded retry
count. The configuration is a JSON file deep-merged over built-in defaults.

This project models the decision logic of that file and proves what it
promises:

- `heart_rate.dfy`, module `HeartRateMeasurement`: `parse_heart_rate`.
  Bit 0 of the Flags byte (Heart Rate Value Format) selects a UINT8 value at
  offset 1 or a little-endian UINT16 value at offsets 1–2, as in section 3.1
  of the Bluetooth Heart Rate Service specification v1.0. An encoder is the
  decoder's partner; decoding inverts encoding in both directions.
- `config.dfy`, module `Config`: the `CONFIG` defaults and `merge_config`.
  `Merge` is the function that specifies the merge. `MergeConfig` is the
  source's copy-then-assign loop with its recursion, proved equal to it.
  `initialize_config` is a function of the outcome of reading the file.
- `device_scan.dfy`, module `DeviceScan`: the filter of `scan_and_connect`.
  The first device in scan order that advertises the full or short Heart
  Rate Service UUID wins.
- `notification.dfy`, module `Notification`: the notification handler's send
  list, the clamp of the wait time, and the `send_osc` loop. The sent
  messages are returned as a log.
- `supervisor.dfy`, module `Supervisor`: one turn of `main`'s loop as a
  transition `Step` over `(device_address, retry_count)`, driven by an event
  that says how the scan and the link turned out. `Run` folds `Step` over a
  sequence of events. `Supervise` is the loop itself, with its `continue`
  and `break`, proved equal to `Run`.
- `wrappers.dfy`, module `Wrappers`: `Option`.

Python truthiness is kept. `if not device_address` treats an empty address
like `None`; this is the predicate `Supervisor.Known`. `if heart_rate`
treats 0 like `None`.

The collaborators are inputs:
- Each BLE scan is the sequence of advertisements it reports, or a failure.
- Each connection is one of four outcomes: timeout, error, connected then
  lost, connected then error.
- A keyboard interrupt is its own event.
- Each OSC send failure is the index of the first send that raises.
- The wait time computed at line 142 is a function parameter. It returns
  `None` where that line raises.

## Model

| member | source | states |
|---|---|---|
| `HeartRateMeasurement.ParseHeartRate` | hrs_to_osc.py:96-112 | no value exactly when the payload is shorter than 2 bytes, or announces UINT16 with fewer than 3 bytes; a value is always below 65536, and below 256 in the UINT8 format |
| `HeartRateMeasurement.ShortPayloadHasNoValue` | hrs_to_osc.py:99-100 | every payload shorter than 2 bytes decodes to `None` |
| `HeartRateMeasurement.Uint16Value` | hrs_to_osc.py:106-108 | with Flags bit 0 set, a 2-byte payload gives `None` and a longer one gives `data[1] + 256*data[2]` |
| `HeartRateMeasurement.Uint8Value` | hrs_to_osc.py:109-110 | with Flags bit 0 clear, the value is `data[1]` |
| `HeartRateMeasurement.OtherFlagsIgnored` | hrs_to_osc.py:103-106 | replacing the Flags byte by any byte with the same bit 0 leaves the result unchanged |
| `HeartRateMeasurement.TrailingBytesIgnored` | hrs_to_osc.py:106-110 | appending bytes to a payload that decodes does not change its value |
| `HeartRateMeasurement.UnpackUint16Le` | hrs_to_osc.py:108 | `struct.unpack("<H")` gives a value below 65536 whose low byte is the first byte and whose high byte is the second |
| `HeartRateMeasurement.PackUint16Le` | hrs_to_osc.py:108 | packing gives two bytes that unpack to the packed value |
| `HeartRateMeasurement.PackUnpack` | hrs_to_osc.py:108 | unpacking then packing gives back the two bytes, so the two are inverse bijections |
| `HeartRateMeasurement.DecodeEncode` | hrs_to_osc.py:96-112 | a measurement encoded from any Flags byte, an in-range value and any trailing fields decodes to that value |
| `HeartRateMeasurement.EncodeDecode` | hrs_to_osc.py:96-112 | every payload that decodes is the encoding of its Flags byte, its decoded value and the bytes after the value |
| `Config.DefaultSettings` | hrs_to_osc.py:19-33 | the built-in `Defaults` hold the nine settings of `CONFIG` with their values: `osc.server_ip` "127.0.0.1", `osc.server_port` 9000, `osc.address` "/avatar/parameters/", `connection.timeout` 20.0, `max_retries` 5, `retry_delay` 3, `scan_timeout` 10, `scan_retry_interval` 5, `maintain_interval` 1 |
| `Config.Merge` | hrs_to_osc.py:36-43 | the keys are the union of both inputs' keys; keys only in the defaults keep the default value; an override value replaces the default unless both sides are mappings, which are merged recursively with the union of their keys |
| `Config.MergeConfig` | hrs_to_osc.py:36-43 | the copy of the defaults, updated in turn for every override key with recursion where both sides are mappings, ends equal to `Merge`; the defaults are values and are not changed |
| `Config.MergeEmptyOverride` | hrs_to_osc.py:37-38 | an empty override returns the defaults unchanged |
| `Config.MergeOverEmpty` | hrs_to_osc.py:38-42 | over empty defaults the result is the override itself |
| `Config.MergeIdempotent` | hrs_to_osc.py:36-43 | merging a configuration with itself gives it back at every nesting depth |
| `Config.MergeKeepsDefault` | hrs_to_osc.py:37-40 | a setting at any depth whose path the override does not reach, except through mappings, keeps its default |
| `Config.MergeKeepsOverride` | hrs_to_osc.py:39-42 | a non-mapping override value at any path is found at that path in the result, whatever the defaults held there |
| `Config.InitializeConfig` | hrs_to_osc.py:52-66 | loading never drops a top-level key; a missing file, malformed JSON, or JSON that is not an object leaves the configuration as it was |
| `Config.OverrideMaxRetries` | hrs_to_osc.py:19-33 | overriding `connection.max_retries` alone sets it and keeps `connection.retry_delay` at 3 and `osc.server_port` at 9000 |
| `DeviceScan.AdvertisesHeartRate` | hrs_to_osc.py:79-85 | a device without service UUIDs never matches; a device advertising either the full or the short Heart Rate Service UUID matches; a match advertises one of the two |
| `DeviceScan.FirstSensorAddress` | hrs_to_osc.py:78-93 | `None` exactly when no device advertises the full or short Heart Rate Service UUID; otherwise the address of the first device in scan order that does, with every earlier device not matching (devices without service UUIDs never match) |
| `DeviceScan.SelectDevice` | hrs_to_osc.py:78-93 | the loop with early return yields the address of the first matching device, or `None` |
| `DeviceScan.EarlierSensorWins` | hrs_to_osc.py:78-90 | devices reported later in the scan cannot displace a sensor found earlier |
| `Notification.Clamp01` | hrs_to_osc.py:143 | the wait time lies in [0.0, 1.0]; it is the raw value when that is in range, 0.0 below and 1.0 above |
| `Notification.SendList` | hrs_to_osc.py:134-158 | nothing is sent when the payload decodes to `None` or 0 or the wait-time computation raises; otherwise exactly two entries, `heartbeat_value` with the bpm then `heartbeat_waittime` with the clamped wait time |
| `Notification.SendOsc` | hrs_to_osc.py:115-126 | the entries are sent in order, each to the prefix followed by its suffix; a raising send ends the loop, so exactly the entries before it are sent |
| `Notification.HandleNotification` | hrs_to_osc.py:132-159 | the handler sends nothing for `None` or 0; otherwise it sends at most two messages, first `prefix + "heartbeat_value"` with the decoded bpm, second `prefix + "heartbeat_waittime"` with the clamped wait time, in [0.0, 1.0]; nothing is sent when the wait-time computation raises; both are sent when no send fails and the wait time computes; the messages are the send list's entries before the first failing send |
| `Supervisor.RetryCheck` | hrs_to_osc.py:232-242 | a count at or above `max_retries` clears the address and resets the count; a lower count keeps both |
| `Supervisor.ConnectRetries` | hrs_to_osc.py:200-229 | a connect that times out or raises adds 1 to the count; a successful connect sets it to 0, and an error after it leaves 1 |
| `Supervisor.Step` | hrs_to_osc.py:183-242 | a turn exits exactly on an interrupt; with `max_retries` at least 1 it keeps the count below it; every turn that reaches the retry check leaves the count below `max_retries` or the state reset |
| `Supervisor.Run` | hrs_to_osc.py:183-242 | the loop over a sequence of events sleeps exactly once per turn when it is never interrupted, and fewer times than there are events when it is |
| `Supervisor.RunStopsIffInterrupt` | hrs_to_osc.py:221-223 | the loop stops exactly when an interrupt occurs; no scan, connect or link error ends it |
| `Supervisor.RunKeepsRetriesBelowMax` | hrs_to_osc.py:183-242 | with `max_retries` at least 1, the count is below it at every loop head |
| `Supervisor.Supervise` | hrs_to_osc.py:172-242 | the loop with its `continue` and `break` ends in the state and delays `Run` gives; it stops exactly when interrupted; with `max_retries` at least 1 the count is below it |
| `Supervisor.ScanMissSkipsRetryCheck` | hrs_to_osc.py:186-193 | a scan miss leaves no address, keeps the count, skips the retry check and sleeps the scan-retry interval |
| `Supervisor.ScanErrorCountsOne` | hrs_to_osc.py:227-229 | a scan that raises adds one to the count and goes through the retry check |
| `Supervisor.ScanHitConnects` | hrs_to_osc.py:186-206 | a sensor found by the scan is connected to in the same turn, and the retry check applies to the connect's count |
| `Supervisor.ConnectFailureCountsOne` | hrs_to_osc.py:224-229 | a connect that times out or raises any other exception adds exactly 1 to the count before the retry check |
| `Supervisor.LostLinkKeepsDevice` | hrs_to_osc.py:216-242 | with `max_retries` at least 1, a lost link resets the count and keeps the address, so the same device is reconnected |
| `Supervisor.LostLinkWithoutRetriesForgetsDevice` | hrs_to_osc.py:232-237 | with `max_retries` at most 0, even a lost link clears the address |
| `Supervisor.ErrorAfterConnectCountsFromZero` | hrs_to_osc.py:206-229 | an error after a successful connect counts from the reset, leaving 1 before the retry check |
| `Supervisor.RunAppend` | hrs_to_osc.py:183-242 | running two event sequences in a row is running the second from where the first left off |
| `Supervisor.NoSensorRescansForever` | hrs_to_osc.py:186-193 | a scanner that never finds a sensor keeps the loop running; the count is unchanged and one scan-retry interval is slept per turn |
| `Supervisor.ExhaustedRetriesForgetDevice` | hrs_to_osc.py:224-238 | failing to connect until the count reaches `max_retries` clears the address and the count, sleeping the retry delay each turn |
| `Supervisor.RescanBeforeSuccessfulConnect` | hrs_to_osc.py:186-238 | after `max_retries` failed connects the device is forgotten, the next turn rescans, and the count is 0 after the successful connect |

## Left out

- BLE: `BleakScanner.discover`, `BleakClient`, `start_notify`, `is_connected` and the disconnect callback, which only prints, are foreign async calls. Their outcomes are the `ScanOutcome` and `LinkOutcome` of each event. The scan timeout and connection timeout passed to them are not modelled.
- OSC: the `pythonosc` UDP client is network output. A send is an appended `OscMessage`; a failing send is the `failAt` index.
- asyncio sleeps, timeouts and scheduling are timing, and notifications arriving while the poll loop runs are concurrency. Each turn records only which configured delay it sleeps on. The `maintain_interval` poll is left out.
- The wait-time formula at hrs_to_osc.py:142 is floating-point arithmetic. It is the parameter `waitTime`, and only the clamp at line 143 is proved.
- `while True` has no end. The model runs it over a finite sequence of events, and it stops at the first interrupt or when the events run out. An interrupt that arrives during the sleeps at lines 238 and 242 escapes the loop without reaching `break`; the model does not distinguish it, because the loop ends either way.
- File I/O and `json.load` in `initialize_config` are an input, the `ConfigFile` outcome. The assignment to the global `CONFIG` is left out: the configuration is a value.
- All `print` logging is left out.
- Dictionary insertion order is not modelled: mappings are Dafny `map`s. Neither is the sharing of nested dictionaries between the defaults and a shallow copy: values cannot alias.
- `Supervisor.Supervise` takes `max_retries` as an `int`. A configuration in which it is not an integer is not modelled. Python would then compare or raise at line 232, outside the `try`.
- A scan that raises is caught by `except Exception` (lines 187, 227-229). It adds one to the retry count and goes through the retry check, like a failed connect.
- At a bpm of exactly 300, line 142 divides by zero. The handler raises ZeroDivisionError before anything is sent, and `waitTime` returns `None` there.
