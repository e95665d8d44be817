# Wi-Fi station connector and image upload endpoint, in Dafny

This project models two pieces of the ESP32 camera firmware and its collector.

The first is the station-connection logic of `main/main.c`:

- **The event handler** is the retry/latch state machine. It runs on the radio driver's callbacks.
  - On station start it issues a connect.
  - On a disconnect it reconnects while the retry counter is below `WIFI_MAXIMUM_RETRY` (5). After that it latches the FAIL bit and resets the counter.
  - On got-IP it resets the counter and latches the CONNECTED bit.

  The globals it mutates are the fields of the class `WifiEvents.EventHandler`. Its connect calls are counted in a ghost field. The pure functions `Step` and `Run` give the same behaviour on values, and the lemmas are stated about them.
- **The target-AP search** inside `scan_for_ap`. It gives up when the AP count is 0 or the record buffer cannot be allocated. Otherwise it does a linear, first-match search for the target SSID. The comparison uses `strcmp` on NUL-terminated names. `ApScan.ScanForAp` is that loop. `FirstMatch` and the `exists`-style `TargetListed` are its specifications.
- **The supervisor loop** of `app_main`. Each pass recreates the event group, sets the station up and waits for CONNECTED or FAIL; the wait does not clear the bits. If CONNECTED is set when the wait returns, the loop is left, even if FAIL is set too. With FAIL alone, the loop stops Wi-Fi and rescans, assuming the rescan's driver calls succeed. It sleeps 5000 ms only when the target was not seen; otherwise it sets up again at once.
  - `Supervisor.Decide` is one pass's decision, from the bits the wait returned.
  - `WifiEvents.WakeFrom` says where the wait returns. If a bit is already set when `app_main` reaches the wait, it returns at once. Otherwise it returns just after the first later event that sets one, with the bits as they are at that moment.
  - `Supervisor.Pass` is one pass, and `Supervise` is the loop over a finite script of passes. Each pass gives the driver's events, how many arrive before `app_main` reaches the wait, and the driver's answers to the rescan. Events after the one that ends the wait are handled while the pass stops Wi-Fi and scans.
  - `RunPass` and `AppMain` are the imperative pass and loop. They drive an `EventHandler` object and are proved equal to `Pass` and `Supervise`.

The second piece is `upload_image` in `server_env/server.py`. It is a pure decision from the Content-Type header, Flask's `request.data` bytes, the current time and the outcome of the file write. It yields a status, a JSON body and the write it attempts.
- A missing header, or one without `image/jpeg` in it, gets 400. This check runs before the body check.
- An empty body gets 400.
- Otherwise the bytes are written to `uploaded_images/esp32cam_<%Y%m%d_%H%M%S>.jpg`. The reply is 200 with the size and file name, or 500 with the exception text if the write raised.

Facts about the firmware that shape the model:

- Nothing in `main/main.c` captures or uploads a frame. After connecting, `app_main` only logs every 10 s (main/main.c:186-189).
- The station does not scan before its first connect: the start event issues the connect (main/main.c:31-32).
- The scan runs only after FAIL (main/main.c:168-176). Its result only decides whether to sleep first, and both branches set the station up again on the next pass (main/main.c:176-181).
- The cooldown is a fixed 5000 ms (main/main.c:180).
- The retry counter is reset when FAIL is latched (main/main.c:43), not when the scan begins.

## Model

| member | source | states |
|---|---|---|
| WifiEvents.EventHandler.constructor | main/main.c:26 | the counter starts at 0, with no bit set and no connect issued |
| WifiEvents.EventHandler.NewEventGroup | main/main.c:55 | a newly created event group has both bits clear; the retry counter, a separate static, carries over |
| WifiEvents.EventHandler.OnStaStart | main/main.c:31-32 | station start issues exactly one connect and changes nothing else |
| WifiEvents.EventHandler.OnStaDisconnected | main/main.c:33-44 | below 5, a disconnect issues one reconnect and adds one to the counter, with no bit changed; at 5 it latches FAIL, resets the counter to 0 and issues no connect |
| WifiEvents.EventHandler.OnGotIp | main/main.c:45-50 | got-IP resets the counter to 0 and latches CONNECTED, leaving FAIL and the connect count alone |
| WifiEvents.EventHandler.Handle | main/main.c:28-51 | the handler's dispatch has exactly the effect of `Step` on the whole state, and events of other ids change nothing |
| WifiEvents.EventHandler.Deliver | main/main.c:64-75 | handing a sequence of events to the registered handler in order has the effect of `Run` |
| WifiEvents.EventHandler.AwaitLatch | main/main.c:159-163 | the wait lets the handler take events until a bit is latched and returns exactly at the point `WakeFrom` gives; the bits it reports are the ones latched there, at least one of them unless the events ran out, and they stay set (clearOnExit false) |
| WifiEvents.WakeFrom | main/main.c:159-163 | a wait on both bits entered after m events returns at the first point at or after m where a bit is latched: no earlier point has one, and it blocks to the end only if none does |
| WifiEvents.WakeFromPrefix | main/main.c:159-163 | events that arrive after the wait has returned do not change where it returned |
| WifiEvents.RunKeepsRetryBound | main/main.c:26-50 | under any event sequence the counter stays within 0..5 |
| WifiEvents.RunLatchesBits | main/main.c:39-49 | no event clears CONNECTED or FAIL once set, and the connect count never decreases |
| WifiEvents.DisconnectsRetry | main/main.c:34-37 | while the budget lasts, k disconnects add exactly k to the counter and k connects, and set no bit |
| WifiEvents.SixthDisconnectFails | main/main.c:34-43 | from boot, five disconnects give five reconnects and no FAIL; the sixth latches FAIL, resets the counter and issues no connect |
| WifiEvents.FailedCycle | main/main.c:31-43 | a fresh pass that sees start and six disconnects issues 6 connects (1 initial + 5 retries), then latches FAIL with the counter at 0 |
| WifiEvents.FailedCycleLatchesLast | main/main.c:33-43 | in a failed cycle no bit is set before the sixth disconnect, so a wait entered anywhere in it returns only at that disconnect |
| WifiEvents.GotIpRefreshesBudget | main/main.c:45-49 | after got-IP, five disconnects are all retried, nothing new is latched and CONNECTED stays set |
| WifiEvents.FailNeedsDisconnects | main/main.c:34-48 | FAIL is never latched early: from counter r without FAIL, latching it takes at least 6 - r disconnects, and until then the counter has grown by at most the disconnects seen |
| ApScan.CStr | main/main.c:131 | the C string in a buffer is the longest NUL-free prefix, ending at the first NUL or the buffer's end |
| ApScan.CStrOfTerminated | main/main.c:131 | a NUL-free name followed by NUL reads back as itself, whatever follows |
| ApScan.StrcmpIsExact | main/main.c:131 | the SSID comparison is exact: padding after the NUL is ignored, but a longer name or a proper prefix of "420C" does not match |
| ApScan.FirstMatch | main/main.c:129-136 | the result is the lowest index whose SSID matches, with no match before it, or none when no record matches |
| ApScan.FirstMatchAppend | main/main.c:130-135 | the search stops at the first match: records after a matching prefix are never consulted, and a prefix without a match only shifts the later match |
| ApScan.ScanSpecFindsFirst | main/main.c:129-139 | the scan reports the target iff the AP count is positive, the buffer was allocated and some record matches; the RSSI it reports belongs to the lowest-index match |
| ApScan.EarlyExitIgnoresRecords | main/main.c:116-125 | with an AP count of 0 or a failed allocation the outcome depends on no record, and the target is not reported |
| ApScan.ScanForAp | main/main.c:113-139 | the loop with `break` returns true iff the target is listed (after both early exits), and its outcome is the first match's RSSI as `ScanSpec` gives it |
| Supervisor.Decide | main/main.c:165-181 | CONNECTED leaves the loop whatever FAIL says; FAIL alone rescans and sleeps 5000 ms exactly when the target is absent, 0 otherwise; with neither bit the chain falls through |
| Supervisor.Pass | main/main.c:155-181 | a pass whose wait returns ends in the application or in a rescan, never in the fall-through |
| Supervisor.SuperviseKeepsRetryBound | main/main.c:154-183 | across passes with fresh event groups, the carried-over counter stays within 0..5 |
| Supervisor.SuperviseShape | main/main.c:154-183 | at most one action per pass; every action but the last is a rescan; the loop is left exactly when the last action enters the application; every rescan sleeps 0 ms or 5000 ms, 0 exactly when the target was found |
| Supervisor.ConnectedWins | main/main.c:155-167 | a pass that starts and gets an address leaves the loop with one action, wherever the wait is entered and whatever FAIL the previous pass left |
| Supervisor.StaleFailDropped | main/main.c:155-163 | a FAIL from the previous pass does not carry over: the group is recreated, so a pass whose events never set a bit blocks in the wait, wherever it is entered, with no action taken and every event of the pass handled |
| Supervisor.BothBitsConnectedWins | main/main.c:159-167 | when six disconnects and then an address have all arrived by the time the wait is reached, both bits are set and CONNECTED wins |
| Supervisor.WaitWakesAtFail | main/main.c:159-168 | when `app_main` is already waiting before the sixth disconnect, the wait returns at FAIL with CONNECTED still clear, and the pass rescans even though an address arrives right after |
| Supervisor.AbsentTargetNeverConnects | main/main.c:168-181 | when every pass exhausts the retries and the rescan never sees the target, the loop never exits, wherever the wait is entered; every pass rescans and sleeps 5000 ms with the counter back at 0 |
| Supervisor.RunPass | main/main.c:155-181 | one imperative pass blocks exactly when `Pass` does; otherwise it decides and leaves the handler in the state `Pass` gives |
| Supervisor.AppMain | main/main.c:154-183 | the imperative loop produces exactly the actions, exit and handler state of `Supervise` |
| UploadServer.Contains | server_env/server.py:21 | Python's substring `in`: true iff the pattern occurs at some index |
| UploadServer.ContentTypeExamples | server_env/server.py:21 | `image/jpeg` with parameters passes the header check; `image/png` and a missing header do not |
| UploadServer.UploadImage | server_env/server.py:17-54 | 400 iff the header is bad or the body empty; 200 iff both are good and the write succeeded; 500 iff both are good and the write raised; a write is attempted iff both checks pass |
| UploadServer.BadContentTypeWins | server_env/server.py:21-31 | a bad or missing Content-Type gets the Content-Type error and no write, even with an empty body |
| UploadServer.EmptyBodyRejected | server_env/server.py:29-31 | a good header with an empty body gets 400 "No image data received" and no write |
| UploadServer.SuccessReply | server_env/server.py:34-50 | a successful save replies 200 with `success` true, `size` equal to the body length and the file name `esp32cam_<timestamp>.jpg`, and writes the whole body under `uploaded_images/` |
| UploadServer.SaveFailureReply | server_env/server.py:52-54 | a write that raises gives 500 with the exception text as `error` |
| UploadServer.Timestamp | server_env/server.py:34 | the `%Y%m%d_%H%M%S` stamp is 15 characters: digits, with `_` at position 8 |
| UploadServer.TimestampRoundTrip | server_env/server.py:34 | the date and time read back from the stamp are the ones it was made from |
| UploadServer.SameFileIffSameSecond | server_env/server.py:34-36 | two uploads get the same path exactly when they arrive in the same second, so a second upload in that second overwrites the first |

## Left out

- NVS flash initialisation and its erase-and-retry (main/main.c:145-150): storage I/O.
- `wifi_init_sta`'s driver setup (main/main.c:57-96) is left out except the event-group creation. It is made of foreign ESP-IDF calls: netif, event loop, handler registration, configuration and start. `esp_event_loop_create_default` and the handler registration are repeated on every pass. On a second pass the first would fail its error check and the second would register the handler twice. Neither is modelled.
- The scan configuration and the driver's scan calls (main/main.c:100-114, 127) are left out. The AP count, the allocation result and the records are inputs. `esp_wifi_stop` and `vEventGroupDelete` (main/main.c:172-173) are not modelled beyond the next pass recreating the group.
- Events that arrive after the wait has returned are handled by the same handler in the model. Their bit writes are then dropped when the next pass recreates the group. In C, an event that sets a bit after `vEventGroupDelete` (main/main.c:173) writes to a deleted group, and that is not modelled.
- The `ESP_ERROR_CHECK` aborts are not modelled: `esp_wifi_stop` (main/main.c:172) and the scan calls (main/main.c:111, 114, 127). The model assumes the rescan succeeds after `esp_wifi_stop`. The driver may refuse a scan on stopped Wi-Fi, and `ESP_ERROR_CHECK` would then abort. That is driver behaviour outside these sources.
- Logging (`ESP_LOGI`/`ESP_LOGE`) is left out. The only logged value kept is the RSSI of the found target, as `FoundTarget(rssi)`.
- FreeRTOS timing: `vTaskDelay`, the conversion of milliseconds to ticks, and asynchronous callback delivery. Events are handled one at a time in script order, and the wait returns exactly after the event that latches a bit. A delay is recorded as its value in milliseconds.
- Supervisor.AppMain: the source loop never ends. The model runs a finite script of passes. It ends when the script runs out, or with `WaitBlocked` when a pass's events latch no bit. The real wait would block until a later event.
- The application loop after connecting (main/main.c:186-189) only logs every 10 s. It is the `EnteredApp` exit.
- ApScan.CStr: the model's SSID buffer has no length bound, while the C field is 33 bytes. Comparing against the 5-byte `"420C\0"` reads at most 5 bytes, so the two comparisons agree on every 33-byte buffer.
- main/camera_manager.c and main/camera_manager.h are not part of this model. They are a fixed hardware configuration and thin wrappers over the camera driver, and `main.c` never calls them.
- monitor.py is not part of this model: it is a serial-port reader loop.
- In server.py, these are left out: the Flask routing, the creation of the upload directory, `datetime.now()` (the time is a parameter), the file write itself (returned as a `FileWrite`, with its success or exception text as a parameter), logging, and the constant `/status` route. Content-Type header lookup is case-insensitive in Flask. The model receives the looked-up value as an `Option`.
- UploadServer.Request: the body is Flask's `request.data` (server_env/server.py:27) as given, not the raw request body. Flask leaves `request.data` empty when it parses the body as form data. A header such as `application/x-www-form-urlencoded; x=image/jpeg` passes the check, and the server then answers 400 "No image data received" even for a non-empty body. The model's answer depends on the `data` it is given, and Flask's form parsing is not modelled.
- UploadServer.Timestamp: only years 1000 to 9999 are modelled, which `%Y` writes as four digits. Day numbers are allowed up to 31 in every month.
- UploadServer.SavePath: `os.path.join` is modelled only for a relative file name, which inserts one `/`. The file name always starts with `esp32cam_`, so it is relative.
