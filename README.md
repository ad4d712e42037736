# Verified model of the projetoFinal firmware core

The projetoFinal firmware runs on a Raspberry Pi Pico W (BitDogLab board).
It reads ambient light, temperature and humidity, and shows them on an SSD1306 OLED.
It drives the brightness of a WS2812 LED matrix from the ambient light or from a commanded percentage.
It publishes telemetry over MQTT and takes commands from an MQTT topic.
A second, password-protected JSON-lines protocol on the serial port does the same.

This project models the firmware's core in Dafny and proves properties of the model.
There is one module per source file:

- `JsonSimple` covers `json_simple.c`: key lookup, `json_get_string` and `json_get_int`.
- `MatrixControl` covers `matrix_control.c`: the mode, target and fade of the brightness controller, and its command decoder.
- `MqttApp` covers `mqtt_app.c`: client state, the lwIP callbacks, connect, subscribe, publish with acknowledgement, and command capture and take.
- `AppTasks` covers `app_tasks.c`: one iteration of the MQTT task loop, and the frame aggregation of the display task.
- `SerialRpc` covers `serial_rpc.c`: line reading, the `hello`/`auth`/`logout`/`cmd` protocol, implicit commands and paced telemetry.
- `MatrixLedLib` covers `matrix_led_lib.c`: the percentage to GRB word encoding and its decoding.
- `Ssd1306` covers `ssd1306.c`: the 1024-byte frame buffer, `clear`, `draw_pixel` and `draw_string`.
- `Common`, `AppConfig` and `AppCtx` hold C-string helpers, the settings of `app_config.h`, and the `sensor_frame_t` record.

Code that changes state in place becomes a class whose fields are the source's variables:

- `Controller` holds the controller's globals.
- `Client` is the `mqtt_app_t`, with its command buffer as an `array`.
- `LineReader` and `SerialTask` are the serial task's statics and locals.
- `MqttTask` and `DisplayTask` are the locals of the two task loops.
- `Oled` holds the frame buffer as an `array<bv8>`.

Each method is proved equal to a pure function of the old state, and the properties are proved about those functions.

Model conventions:

- Time is the scheduler tick count, one tick per millisecond.
- Results of the network stack are inputs: client allocation, DNS, `mqtt_client_connect`, subscribe, publish, and when and how the acknowledgement arrives.
- The frame that a mailbox peek returns is an input.
- C strings are `seq<char>` without NUL. A char buffer holds the prefix before its first NUL.
- A call to `snprintf(out, n, "%s", s)` keeps at most `n - 1` characters.
- `char` is taken as unsigned, as on the Pico's ARM target.

The lwIP constants are not defined in the firmware's own files. The model takes their values from lwIP: `ERR_OK` is 0, `MQTT_CONNECT_ACCEPTED` is 0, and `MQTT_DATA_FLAG_LAST` is 1.

Where the design description and the code disagree, the model follows the code:

- **Fade length.** The design description and a comment in `matrix_control.c` say a fade takes about 10 ticks. The code steps by the ceiling of a tenth of the remaining distance, which takes 28 ticks from 0 to 100 (`FullSwingTicks`) and `d` ticks for any distance `d` up to 10 (`UnitSteps`).
- **The CONNECTING state.** The design describes a CONNECTING state guarded by a watchdog. No code sets `connecting`: `mqtt_app_connect_once` never raises it. The model keeps this. `NothingRaisesConnecting` and `WatchdogNeverRuns` prove that the watchdog branch of the MQTT task is never taken from a reachable state.

## Model

| member | source | states |
|---|---|---|
| JsonSimple.KeyPattern | projetoFinal/src/json_simple.c:15-16 | the search pattern is the key in double quotes, cut to the 64-byte buffer |
| JsonSimple.IndexOfFirst | projetoFinal/src/json_simple.c:17 | `strstr` finds the first occurrence at or after the start, and reports none when no occurrence exists |
| JsonSimple.CharIndex | projetoFinal/src/json_simple.c:25 | `strchr` finds the first ':' after the key, or reports that there is none |
| JsonSimple.ValueStart | projetoFinal/src/json_simple.c:22-27 | a found value starts just after a ':' |
| JsonSimple.SkipSpace | projetoFinal/src/json_simple.c:29 | the skipped span is all whitespace, and the stop character is not whitespace |
| JsonSimple.SkipSpaceOrQuote | projetoFinal/src/json_simple.c:50 | `json_get_int` skips whitespace and quote characters, and stops at anything else |
| JsonSimple.DigitEnd | projetoFinal/src/json_simple.c:58-61 | the digit run is maximal |
| JsonSimple.QuoteEnd | projetoFinal/src/json_simple.c:34 | the copy stops at the first closing quote or at the end of the text |
| JsonSimple.ScanString | projetoFinal/src/json_simple.c:20-39 | a copied string fits the output buffer, holds no quote, and holds no NUL when the input holds none |
| JsonSimple.FindKey | projetoFinal/src/json_simple.c:13-18 | the key search loop returns the position of the first quoted key |
| JsonSimple.FindChar | projetoFinal/src/json_simple.c:25 | the `strchr` loop returns the first ':' position |
| JsonSimple.FindValue | projetoFinal/src/json_simple.c:22-27 | the loop finds the same value start as `ValueStart` |
| JsonSimple.JsonGetString | projetoFinal/src/json_simple.c:20-39 | when the key, the ':' or the opening quote is missing, the result is false and `out` is untouched; otherwise `out` holds the copied text NUL-terminated, the rest of `out` is unchanged, and the result is true exactly when the text is non-empty, so an empty value gives false with the NUL written |
| JsonSimple.ReadString | projetoFinal/src/json_simple.c:29-38 | from the value start it copies the quoted value or fails, as `ScanFrom` says |
| JsonSimple.SkipSpaces | projetoFinal/src/json_simple.c:29 | the skip loop stops where `SkipSpace` says |
| JsonSimple.CopyQuoted | projetoFinal/src/json_simple.c:33-37 | copies up to the closing quote or the buffer bound, terminates with NUL, and leaves the rest of the buffer unchanged |
| JsonSimple.AccumulateDigits | projetoFinal/src/json_simple.c:57-61 | the loop ends at the end of the digit run with the decimal value of the digits |
| JsonSimple.SkipSpacesAndQuotes | projetoFinal/src/json_simple.c:50 | the skip loop stops where `SkipSpaceOrQuote` says |
| JsonSimple.JsonGetInt | projetoFinal/src/json_simple.c:41-64 | `json_get_int` returns the value that `GetInt` specifies, or fails |
| JsonSimple.ReadInt | projetoFinal/src/json_simple.c:50-63 | reads an optional sign and a digit run, and fails when no digit follows |
| JsonSimple.DecimalValueOfDigits | projetoFinal/src/json_simple.c:57-61 | accumulating `v*10 + d` over a rendered number gives the number back |
| JsonSimple.KeyFoundAfter | projetoFinal/src/json_simple.c:13-18 | a key that cannot occur earlier is found where it is written |
| JsonSimple.KeyAbsent | projetoFinal/src/json_simple.c:22-23 | when a character of the quoted key is missing from the text, both getters fail |
| JsonSimple.ValueStartAfter | projetoFinal/src/json_simple.c:22-27 | in `"key":...` the value starts right after the colon |
| JsonSimple.NatFromAt | projetoFinal/src/json_simple.c:57-61 | a digit run followed by a non-digit reads as its value |
| JsonSimple.SignedFromAt | projetoFinal/src/json_simple.c:52-62 | a rendered signed integer reads back as itself |
| JsonSimple.IntFromTail | projetoFinal/src/json_simple.c:50-63 | spaces or quotes, then a rendered integer, read back as that integer |
| JsonSimple.GetIntOfRendered | projetoFinal/src/json_simple.c:41-64 | round trip: `json_get_int` on `"key":<n>` returns `n`, with or without quotes around it |
| JsonSimple.NoIntFromTail | projetoFinal/src/json_simple.c:52-55 | a value with no digit after the optional sign is rejected |
| JsonSimple.GetIntRejectsNonNumber | projetoFinal/src/json_simple.c:55 | `json_get_int` fails on a key whose value is not a number |
| JsonSimple.ScanFromAt | projetoFinal/src/json_simple.c:29-38 | a quoted value after spaces is copied, cut to the buffer |
| JsonSimple.GetStringOfRendered | projetoFinal/src/json_simple.c:20-39 | round trip: `json_get_string` on `"key": "v"` returns `v`, cut to the buffer |
| JsonSimple.ScanTail | projetoFinal/src/json_simple.c:29-37 | spaces, a quoted value, then anything: the value is copied |
| MatrixControl.Clamp | projetoFinal/src/matrix_control.c:19-24 | saturation into 0..100 that keeps values already in range |
| MatrixControl.Step | projetoFinal/src/matrix_control.c:29-44 | one fade step moves strictly toward the target without passing it, and cuts the distance by the ceiling of a tenth |
| MatrixControl.FadeDistance | projetoFinal/src/matrix_control.c:29-44 | after n steps the distance to the target is the n-fold reduction, and the value stays between start and target |
| MatrixControl.RemainingCloses | projetoFinal/src/matrix_control.c:34-35 | the distance reaches 0 exactly after `TicksToClose` steps, and decreases strictly before that |
| MatrixControl.FadeReaches | projetoFinal/src/matrix_control.c:29-44 | the fade reaches the target exactly when enough ticks have passed, and never jumps past it |
| MatrixControl.FullSwingTicks | projetoFinal/src/matrix_control.c:27-34 | a fade from 0 to 100 takes 28 ticks, not the ~10 of the comment |
| MatrixControl.TicksFrom28 | projetoFinal/src/matrix_control.c:34 | a distance of 28 takes 17 more ticks |
| MatrixControl.UnitSteps | projetoFinal/src/matrix_control.c:34-35 | distances up to 10 close one unit per tick |
| MatrixControl.ApplyCmd | projetoFinal/src/matrix_control.c:82-116 | a null or empty payload changes nothing; a percent under any of the three keys sets MANUAL and the clamped target; otherwise only a recognised mode changes; `current` never changes and the range is kept |
| MatrixControl.Update | projetoFinal/src/matrix_control.c:118-134 | mode and target are kept; `current` steps toward the target in MANUAL or toward the inverted lux percent in AUTO |
| MatrixControl.ManualFollowsTarget | projetoFinal/src/matrix_control.c:118-134 | in MANUAL, n updates are the n-step fade to the target, whatever the light |
| MatrixControl.UpdateAllInRange | projetoFinal/src/matrix_control.c:118-134 | any number of updates keeps target and current in 0..100 |
| MatrixControl.ModeAndPercent | projetoFinal/src/matrix_control.c:100-115 | `{"mode":..,"matrixPercent":n}` gives MANUAL at `Clamp(n)` whatever mode is named |
| MatrixControl.BrightnessOverridesMode | projetoFinal/src/matrix_control.c:102-113 | `{"mode":"auto","brightness":n}` still ends in MANUAL |
| MatrixControl.NonNumberFallsThrough | projetoFinal/src/matrix_control.c:102-104 | a non-numeric `matrixPercent` falls through to `brightness` |
| MatrixControl.NoMatrixPercent | projetoFinal/src/matrix_control.c:102 | a payload without the letter 'P' has no `matrixPercent` |
| MatrixControl.BrightnessAfter | projetoFinal/src/matrix_control.c:103 | a trailing `"brightness":n` reads as n |
| MatrixControl.NonNumberRejected | projetoFinal/src/matrix_control.c:102 | a quoted word is not a `matrixPercent` |
| MatrixControl.ModeOnly | projetoFinal/src/matrix_control.c:86-98 | `{"mode":"v"}` selects AUTO or MANUAL when v names one, keeps the target, and otherwise changes nothing |
| MatrixControl.ModeOfOpening | projetoFinal/src/matrix_control.c:87-97 | the 16-byte mode buffer reads "auto"/"manual" exactly when the payload names them |
| MatrixControl.NoPercentKey | projetoFinal/src/matrix_control.c:101-104 | with none of the three keys present, no percent is read |
| MatrixControl.Controller.Init | projetoFinal/src/matrix_control.c:75-80 | the initial state is AUTO, target 100, current 100 |
| MatrixControl.Controller.ApplyCmdPayload | projetoFinal/src/matrix_control.c:82-116 | the method updates the globals as `ApplyCmd` |
| MatrixControl.Controller.UpdateFromLux | projetoFinal/src/matrix_control.c:118-134 | the method updates the globals as `Update` and returns the new current value |
| MqttApp.Topic | projetoFinal/src/mqtt_app.c:26-30 | a topic is `embarcatech/<id>/telemetry` or `embarcatech/<id>/cmd`, whole, for every id that fits the 32-byte id buffer |
| MqttApp.DeviceId | projetoFinal/src/mqtt_app.c:103-113 | a non-empty given id is used as is, and otherwise the board id; either way the result fits the buffer |
| MqttApp.TopicsDistinct | projetoFinal/src/mqtt_app.c:26-30 | the telemetry and command topics never coincide, and each determines the device id |
| MqttApp.Write | projetoFinal/src/mqtt_app.c:83 | `memcpy` overwrites exactly the target range |
| MqttApp.WriteNext | projetoFinal/src/mqtt_app.c:83 | copying one byte more extends the copied range |
| MqttApp.OnPublishBegin | projetoFinal/src/mqtt_app.c:57-69 | an unconsumed command blocks the new message; otherwise the topic is recorded and the buffer reset to empty |
| MqttApp.Room | projetoFinal/src/mqtt_app.c:79-80 | the bytes taken from a fragment are its length, limited by the room left before the terminator |
| MqttApp.OnData | projetoFinal/src/mqtt_app.c:74-91 | data is ignored while a command is pending; otherwise `ready` is raised exactly by the last-fragment flag |
| MqttApp.OnDataCaptures | projetoFinal/src/mqtt_app.c:79-86 | the captured text grows by the fragment, cut to 255 characters |
| MqttApp.FeedCaptures | projetoFinal/src/mqtt_app.c:74-91 | a fragment sequence ending with the last flag leaves its concatenation, cut to the buffer, ready |
| MqttApp.TakeCmd | projetoFinal/src/mqtt_app.c:212-226 | returns true exactly when a command is ready, clears the flag, and gives NUL-free topic and payload that fit the caller's buffers |
| MqttApp.CommandDelivered | projetoFinal/src/mqtt_app.c:57-226 | end to end: begin, the fragments, then take return the recorded topic and the concatenated payload |
| MqttApp.FeedKeepsTopic | projetoFinal/src/mqtt_app.c:74-91 | data callbacks never change the recorded topic |
| MqttApp.PayloadOfCapture | projetoFinal/src/mqtt_app.c:219-221 | copying the buffer out with `snprintf` gives the captured text |
| MqttApp.OnConnection | projetoFinal/src/mqtt_app.c:38-52 | connected exactly on acceptance, subscribe is requested on acceptance, the event and status are recorded, and nothing else changes |
| MqttApp.ConnectOnce | projetoFinal/src/mqtt_app.c:124-155 | succeeds exactly when a client exists or is allocated, DNS resolves and connect returns `ERR_OK`; once DNS succeeds `connected` is cleared, whatever connect returns; a failed allocation or DNS leaves it unchanged |
| MqttApp.SubscribeCmd | projetoFinal/src/mqtt_app.c:157-172 | succeeds exactly when a client exists, it is connected and subscribe returns `ERR_OK`; the state is unchanged |
| MqttApp.PublishFrame | projetoFinal/src/mqtt_app.c:174-210 | succeeds exactly when connected, publish returns `ERR_OK` and, for QoS > 0, a good ack arrives by the last 5 ms poll, at 2005 ms; only then is the sequence recorded |
| MqttApp.NothingRaisesConnecting | projetoFinal/src/mqtt_app.c:38-226 | no operation of the client sets `connecting` |
| MqttApp.Client.Init | projetoFinal/src/mqtt_app.c:103-122 | `mqtt_app_init`: zeroed buffers, the chosen id and topics, disconnected, status -999, and the invariant `Valid` (the command buffer is NUL-filled past `cmd_len`) |
| MqttApp.Client.OnConnectionCb | projetoFinal/src/mqtt_app.c:38-52 | the callback updates the client as `OnConnection` |
| MqttApp.Client.OnIncomingPublish | projetoFinal/src/mqtt_app.c:57-69 | the callback updates the client as `OnPublishBegin` |
| MqttApp.Client.OnIncomingData | projetoFinal/src/mqtt_app.c:74-91 | the callback updates the client as `OnData` |
| MqttApp.Client.Memcpy | projetoFinal/src/mqtt_app.c:83 | the loop writes the fragment into the buffer as `Write` |
| MqttApp.Client.OnPublishAck | projetoFinal/src/mqtt_app.c:96-101 | records the ack error and marks the publish done |
| MqttApp.Client.ConnectOnceCall | projetoFinal/src/mqtt_app.c:124-155 | the method follows `ConnectOnce` |
| MqttApp.Client.SubscribeCmdCall | projetoFinal/src/mqtt_app.c:157-172 | the method follows `SubscribeCmd` |
| MqttApp.Client.PublishFrameCall | projetoFinal/src/mqtt_app.c:174-210 | the method follows `PublishFrame` |
| MqttApp.Client.AwaitAck | projetoFinal/src/mqtt_app.c:193-200 | the polling loop sees the ack exactly when it comes within the timeout |
| MqttApp.Client.TakeCmdCall | projetoFinal/src/mqtt_app.c:212-226 | the method follows `TakeCmd` |
| AppTasks.Watchdog | projetoFinal/src/app_tasks.c:294-311 | the first watching iteration records the time; `connecting` is cleared once more than 15000 ms have passed since then; nothing else changes |
| AppTasks.Backoff | projetoFinal/src/app_tasks.c:313-322 | an attempt is made exactly when more than 3000 ms have passed since the last one, and the attempt time is recorded |
| AppTasks.Resubscribe | projetoFinal/src/app_tasks.c:331-339 | the subscribe request is cleared only by a successful subscribe |
| AppTasks.TakeAndApply | projetoFinal/src/app_tasks.c:347-359 | a ready command is taken and applied to the controller, and only then does the controller change |
| AppTasks.Transmit | projetoFinal/src/app_tasks.c:364-399 | a new frame is published only when the payload fits; a failure drops the connection; the last sequence is recorded only on success |
| AppTasks.MqttStep | projetoFinal/src/app_tasks.c:261-403 | one loop iteration: attempts are spaced by the backoff, commands are taken only when connected, publishes only carry a new sequence, and a failed publish disconnects |
| AppTasks.EventIgnored | projetoFinal/src/app_tasks.c:280-286 | the connection event flag is consumed without other effect |
| AppTasks.Apply | projetoFinal/src/app_tasks.c:261-403 | callbacks interleaved with iterations never make attempts or publishes themselves |
| AppTasks.AttemptsSpaced | projetoFinal/src/app_tasks.c:313-322 | over any run, consecutive connect attempts are more than 3000 ms apart |
| AppTasks.FirstAttemptAfterBackoff | projetoFinal/src/app_tasks.c:313-322 | after boot the first attempt waits for the backoff |
| AppTasks.NoRepeatedPublish | projetoFinal/src/app_tasks.c:365-399 | over any run, no frame sequence is published twice in a row |
| AppTasks.WatchdogNeverRuns | projetoFinal/src/app_tasks.c:294-311 | from a state without `connecting`, no run ever starts the watchdog |
| AppTasks.MqttTask.constructor | projetoFinal/src/app_tasks.c:261-272 | the task starts with `connecting_since` at 0 |
| AppTasks.MqttTask.Iterate | projetoFinal/src/app_tasks.c:261-403 | one iteration of the loop follows `MqttStep` |
| AppTasks.MqttTask.Body | projetoFinal/src/app_tasks.c:291-399 | the loop body after the event check follows `MqttStep` |
| AppTasks.MqttTask.Offline | projetoFinal/src/app_tasks.c:291-323 | the disconnected branch follows `MqttStep` |
| AppTasks.MqttTask.Online | projetoFinal/src/app_tasks.c:325-399 | the connected branch follows `MqttStep` |
| AppTasks.MqttTask.Watch | projetoFinal/src/app_tasks.c:294-311 | the watchdog branch follows `Watchdog` |
| AppTasks.MqttTask.Reconnect | projetoFinal/src/app_tasks.c:313-322 | the reconnect branch follows `Backoff` and resets `connecting_since` |
| AppTasks.MqttTask.Serve | projetoFinal/src/app_tasks.c:331-359 | subscribe retry then command intake |
| AppTasks.MqttTask.SendTelemetry | projetoFinal/src/app_tasks.c:364-399 | the telemetry step follows `Transmit` |
| AppTasks.Aggregate | projetoFinal/src/app_tasks.c:203-220 | a new frame takes the peeked lux and percent, or keeps the last ones, and the sequence is incremented modulo 2^32 |
| AppTasks.FramesNumbered | projetoFinal/src/app_tasks.c:181-219 | the n-th frame carries sequence n mod 2^32 |
| AppTasks.PeeksReused | projetoFinal/src/app_tasks.c:206-216 | each frame holds the most recent lux and percent ever peeked |
| AppTasks.DisplayTask.constructor | projetoFinal/src/app_tasks.c:179-181 | readings and frame start at zero |
| AppTasks.DisplayTask.Cycle | projetoFinal/src/app_tasks.c:200-241 | one cycle follows `Aggregate` and hands out the new frame |
| SerialRpc.ReadLine | projetoFinal/src/serial_rpc.c:52-73 | a line is returned exactly on '\n'; '\r' and timeouts are ignored; other characters are kept while they fit in 255 |
| SerialRpc.Strip | projetoFinal/src/serial_rpc.c:60 | the characters kept from a line never include '\r' |
| SerialRpc.Accumulate | projetoFinal/src/serial_rpc.c:69-71 | the pending line never outgrows the buffer |
| SerialRpc.AccumulateKeeps | projetoFinal/src/serial_rpc.c:60-71 | the pending text is the non-'\r' input, cut to 255 characters |
| SerialRpc.ReadsWholeLine | projetoFinal/src/serial_rpc.c:52-73 | a short line is delivered whole on its newline, without '\r' |
| SerialRpc.StripNoNul | projetoFinal/src/serial_rpc.c:60 | dropping '\r' keeps the text NUL-free |
| SerialRpc.HandleLine | projetoFinal/src/serial_rpc.c:91-141 | empty lines are ignored; only an authenticated session changes the controller; auth succeeds only with the right password; logout clears; unknown ops are rejected; implicit commands need authentication |
| SerialRpc.AuthLine | projetoFinal/src/serial_rpc.c:106-118 | an auth line authenticates exactly when its password is `1234` |
| SerialRpc.OpOfAuthLine | projetoFinal/src/serial_rpc.c:95-96 | the op of an auth line reads as "auth" |
| SerialRpc.PasswordOfAuthLine | projetoFinal/src/serial_rpc.c:107-109 | the password of an auth line reads back whole |
| SerialRpc.TeleStep | projetoFinal/src/serial_rpc.c:143-175 | when authenticated and the period has passed, the time is recorded, and a frame with a new sequence is sent and recorded |
| SerialRpc.Banner | projetoFinal/src/serial_rpc.c:16-21 | the lines printed before the loop: the info banner, then `hello` asking for authentication exactly when the session is not authenticated |
| SerialRpc.BootAsksAuth | projetoFinal/src/serial_rpc.c:78-84 | at boot the greeting asks for authentication |
| SerialRpc.SerialStep | projetoFinal/src/serial_rpc.c:88-178 | one loop pass keeps the pending line bounded, changes the session only on a line, and records a new sequence only when it sends after the period; an empty completed line ends the pass with no output and no telemetry check |
| SerialRpc.SpacedCons | projetoFinal/src/serial_rpc.c:147-153 | prefixing a send that respects the spacing keeps a spaced log |
| SerialRpc.TelemetrySpaced | projetoFinal/src/serial_rpc.c:143-175 | over any run, telemetry lines are at least 200 ms apart and never repeat a sequence consecutively |
| SerialRpc.TelemetryBooks | projetoFinal/src/serial_rpc.c:147-153 | the recorded time and sequence after a run match the last line sent |
| SerialRpc.LineReader.constructor | projetoFinal/src/serial_rpc.c:54-55 | the line buffer starts empty |
| SerialRpc.LineReader.ReadLineCall | projetoFinal/src/serial_rpc.c:52-73 | the method follows `ReadLine` |
| SerialRpc.SerialTask.constructor | projetoFinal/src/serial_rpc.c:79-81 | the session starts unauthenticated, with sequence 0 and time 0 |
| SerialRpc.SerialTask.Greet | projetoFinal/src/serial_rpc.c:83-84 | prints `Banner` of the current session |
| SerialRpc.SerialTask.Iterate | projetoFinal/src/serial_rpc.c:88-178 | one loop pass follows `SerialStep`, including the early `continue` on an empty line |
| SerialRpc.SerialTask.SendTelemetry | projetoFinal/src/serial_rpc.c:143-175 | the telemetry part follows `TeleStep` |
| SerialRpc.SerialTask.Handle | projetoFinal/src/serial_rpc.c:91-141 | handling a line follows `HandleLine` |
| SerialRpc.SerialTask.Dispatch | projetoFinal/src/serial_rpc.c:98-131 | the op dispatch follows `HandleLine` |
| SerialRpc.SerialTask.Authenticate | projetoFinal/src/serial_rpc.c:106-118 | the auth op sets the flag from the password, answers with the result, and acknowledges success |
| SerialRpc.ReadPassword | projetoFinal/src/serial_rpc.c:107-109 | "password" is tried first, then "pass" |
| SerialRpc.IsImplicit | projetoFinal/src/serial_rpc.c:134 | an implicit command is recognised by one of the three quoted keys |
| MatrixLedLib.Cap | projetoFinal/src/matrix_led_lib.c:25 | percentages above 100 become 100 |
| MatrixLedLib.Level | projetoFinal/src/matrix_led_lib.c:28 | the channel level is at most 50 and is half the percentage rounded up |
| MatrixLedLib.Grb | projetoFinal/src/matrix_led_lib.c:29 | the word carries the level in G, R and B and 0 in the top byte |
| MatrixLedLib.SetPercentEx | projetoFinal/src/matrix_led_lib.c:23-30 | reports the capped percentage and encodes its level |
| MatrixLedLib.SetInverseEx | projetoFinal/src/matrix_led_lib.c:32-41 | reports and encodes 100 minus the capped percentage |
| MatrixLedLib.SetPercent | projetoFinal/src/matrix_led_lib.c:63-66 | the wrapper returns the `_ex` word |
| MatrixLedLib.SetInverse | projetoFinal/src/matrix_led_lib.c:68-71 | the wrapper returns the `_ex` word |
| MatrixLedLib.PercentFromGrb | projetoFinal/src/matrix_led_lib.c:81-87 | decoding gives twice the G byte, capped at 100 |
| MatrixLedLib.PercentRoundTrip | projetoFinal/src/matrix_led_lib.c:23-87 | decode after encode gives the capped percentage rounded up to even |
| MatrixLedLib.InverseRoundTrip | projetoFinal/src/matrix_led_lib.c:32-87 | decode after the inverse encoding gives 100 - p rounded up to even |
| MatrixLedLib.LevelOfGrb | projetoFinal/src/matrix_led_lib.c:81-87 | a level decodes to twice itself |
| MatrixLedLib.InverseIsComplement | projetoFinal/src/matrix_led_lib.c:32-41 | the inverse encoding is the plain encoding of the complement |
| MatrixLedLib.RoundTripWithinOne | projetoFinal/src/matrix_led_lib.c:23-87 | every percentage decodes to itself or one more |
| Ssd1306.Index | projetoFinal/src/ssd1306.c:60 | an on-screen pixel's byte lies inside the 1024-byte buffer |
| Ssd1306.BitsIndependent | projetoFinal/src/ssd1306.c:59-62 | setting or clearing one bit leaves the other bits of the byte as they were |
| Ssd1306.IndexSplit | projetoFinal/src/ssd1306.c:60 | distinct pixels differ in byte or in bit |
| Ssd1306.Blank | projetoFinal/src/ssd1306.c:45 | the cleared buffer is all zeros |
| Ssd1306.BlankIsDark | projetoFinal/src/ssd1306.c:44-46 | every pixel of a cleared buffer is off |
| Ssd1306.WithPixel | projetoFinal/src/ssd1306.c:57-63 | off-screen coordinates leave the buffer unchanged |
| Ssd1306.PixelDrawn | projetoFinal/src/ssd1306.c:59-62 | the drawn pixel takes the colour, and every other byte is unchanged |
| Ssd1306.PixelKeepsOthers | projetoFinal/src/ssd1306.c:57-63 | drawing a pixel changes no other pixel |
| Ssd1306.OffsetHits | projetoFinal/src/ssd1306.c:73 | a `uint8_t` coordinate base + d hits p exactly at the wrapped distance |
| Ssd1306.PixelStep | projetoFinal/src/ssd1306.c:57-63 | a pixel after drawing is the new colour at that point and unchanged elsewhere |
| Ssd1306.ColumnEffect | projetoFinal/src/ssd1306.c:71-74 | a drawn glyph column sets each of its 8 pixels from its bit, with wrapped coordinates, and keeps the rest |
| Ssd1306.GlyphEffect | projetoFinal/src/ssd1306.c:69-75 | a drawn glyph sets its 5x8 cell from the font and keeps the rest |
| Ssd1306.Printable | projetoFinal/src/ssd1306.c:68 | characters outside 32..126 are drawn as '?' |
| Ssd1306.WithText | projetoFinal/src/ssd1306.c:65-78 | an empty string draws nothing |
| Ssd1306.CursorAdvances | projetoFinal/src/ssd1306.c:76 | after n characters the cursor is x + 6n, wrapped to 8 bits |
| Ssd1306.TextSplits | projetoFinal/src/ssd1306.c:65-78 | drawing a + b is drawing a, then b at the cursor after a |
| Ssd1306.OffsetAdd | projetoFinal/src/ssd1306.c:73-76 | wrapped offsets compose |
| Ssd1306.UnprintableAsQuestion | projetoFinal/src/ssd1306.c:68 | an unprintable character draws exactly as '?' |
| Ssd1306.Oled.constructor | projetoFinal/src/ssd1306.c:8 | the static buffer starts zeroed |
| Ssd1306.Oled.Clear | projetoFinal/src/ssd1306.c:44-46 | the buffer becomes `Blank` |
| Ssd1306.Oled.DrawPixel | projetoFinal/src/ssd1306.c:57-63 | the buffer becomes `WithPixel` of the old one |
| Ssd1306.Oled.DrawString | projetoFinal/src/ssd1306.c:65-78 | the buffer becomes `WithText` of the old one |
| Ssd1306.Oled.DrawGlyph | projetoFinal/src/ssd1306.c:69-75 | the buffer becomes `WithGlyph` of the old one |
| Ssd1306.Oled.DrawColumn | projetoFinal/src/ssd1306.c:71-74 | the buffer becomes `WithColumn` of the old one |

## Left out

- Floating point is not modelled. The lux to percent mapping (`lux_to_percent`, `auto_percent_inverse_from_lux`) is an input already in 0..100. Frame readings are `real` values that are only copied. The `%.2f` formatting of telemetry is replaced by the payload length that `snprintf` reports, taken as an input.
- `matrix_set_brightness_percent_inverse_from_lux(_ex)` is not modelled because it is float arithmetic and a `printf`. `put_pixel` and `matrix_init` are not modelled because they are PIO hardware access.
- The getters `matrix_control_get_mode`, `matrix_control_get_target_percent` and `matrix_control_get_current_percent` are the fields of `Controller`.
- `ssd1306_init`, `ssd1306_show`, the command and data writes, and I2C are not modelled because they are bus I/O. The font table is a parameter of the drawing functions.
- The serial output lines (the startup info line, hello, auth, ack, err and telemetry lines) are modelled as message values, not as the printed JSON. The device id printed in hello and telemetry lines is not modelled.
- The device id is read from the board as a parameter, the board id.
- The MQTT task's notify wait, the 5 ms and 10 ms delays, and the sensor tasks are not modelled. Each loop iteration is one atomic step: preemption, the `volatile` fields shared with lwIP callbacks, and the mutexes are not modelled. The callbacks are modelled as events that happen between iterations.
- Tick counter wrap-around is not modelled. Times are unbounded naturals, and the model assumes the tick count never decreases. A difference `now - last` is an integer in the model, so on a clock that went backwards it is negative and no period elapses, whereas the unsigned C subtraction would wrap and fire.
- JsonSimple.JsonGetInt: the C accumulation `v = v*10 + digit` into an `int` overflows on long digit runs, which is undefined behaviour in C; the model uses unbounded integers, so it returns the exact value.
- DNS resolution, `mqtt_client_new`, `mqtt_client_connect`, `mqtt_subscribe` and `mqtt_publish` are not modelled: their results are inputs. The ack wait loop polls in 5 ms steps, and the model takes the ack time as given.
- AppTasks.Transmit: the `payloadLen` that `snprintf` returns is an input, because the telemetry payload is float formatting.
- MatrixControl.Update: the AUTO desired value is computed from the lux percent given as input, because the float mapping is not modelled.
- The ambient-light smoothing and the sensor drivers (`auto_brightness.c`, `bh1750.c`, `aht10`) are not part of this model.
