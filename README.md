# VeSync purifier dashboard — a Dafny model

The system is a live dashboard for VeSync air purifiers. A Python backend
(`backend/app.py`) polls the VeSync cloud. It keeps the last known state of
every purifier and pushes a `devices_update` message, a list of per-device
records, over a socket whenever something changed. It polls faster right
after a change and slows down when nothing happens. A React frontend
(`frontend/src/App.js`) draws one card per purifier and briefly highlights a
card whose state changed. It also animates a field of dust particles whose
density follows the worst PM2.5 reading.

This project models the bookkeeping of both sides and proves what it promises:

- `json.dfy` (module `Json`): the device record shared by both sides, and the
  backend's state hash seen as an injective function of the record.
- `pydict.dfy` (module `PyDict`): the insertion-ordered Python `dict` the
  backend relies on (assignment, `get`, `update`, `values()`).
- `backend.dfy` (module `Backend`): `collect_device_states`, the change
  detection and adaptive poll interval of `check_device_states`, the refresh
  and sleep decisions of `update_vesync`, and the staleness test and merge
  of `handle_connect`. The shared globals form the class `Server`.
- `readings.dfy` (module `Readings`): the frontend's pure mappings. These are
  the PM2.5 colour ramp (`getPM25Color`), the air-quality colour and label,
  the cleanliness band, and the driver value that steers the particles.
- `device_cards.dfy` (module `DeviceCards`): `handleDeviceUpdate` with its
  per-card timers, as the class `CardHighlights`. Timer expiry and the
  clean-up on unmount are explicit methods.
- `particle_field.dfy` (module `ParticleField`): the smoother, the spawn-rate
  controller, the spawn loop, the per-frame physics, and the reverse cull
  loop, as the class `Field`.
- `dashboard.dfy` (module `Dashboard`): the socket handler that connects a
  message to the cards and to the particle field.

Clock readings, the canvas size, `Math.random()` draws and the square root
are parameters. A message sent on the socket is a method result.

## Model

| member | source | states |
|---|---|---|
| Json.StateHashInjective | backend/app.py:125-127 | Two records have equal state hashes exactly when they are equal, because the hash serialises every key in sorted order. |
| Json.StateHash | backend/app.py:125-127 | The hash has one entry per record key, with the keys in the sorted order `sort_keys` gives. |
| PyDict.Get | backend/app.py:218-219 | A lookup finds a value exactly when the key is present, and the value found is stored under that key. |
| PyDict.GetAt | backend/app.py:218-219 | In a dict without duplicate keys, looking up the key of any entry yields that entry's value. |
| PyDict.Put | backend/app.py:112 | Assigning a key adds it to the key set. A new key is appended at the end. An existing key keeps its position and every key keeps its place. |
| PyDict.PutGet | backend/app.py:112 | After an assignment the dict still has distinct keys, the key maps to the new value, and every other key keeps its value. |
| PyDict.Update | backend/app.py:155 | `update` produces the union of both key sets. Keys of the argument take the argument's values, all other keys keep their old values, and keys stay distinct. |
| PyDict.Values | backend/app.py:225 | `list(d.values())` has one value per entry, in the dict's insertion order. |
| Backend.Collected | backend/app.py:97-113 | The collected dict has exactly one entry per distinct device name of the fan list. |
| Backend.Info | backend/app.py:102-111 | A fan's record carries its name, model, power state, mode, fan level, air quality and filter life. Its PM2.5 value is the `air_quality_value` of its details when they hold one, and null otherwise. |
| Backend.CollectedLastWins | backend/app.py:101-112 | A fan whose name no later fan repeats has its own record in the dict, so a later duplicate name overwrites an earlier one. |
| Backend.CollectDeviceStates | backend/app.py:97-113 | With no manager, or with no fans, the result is empty. Otherwise it is the dict produced by recording every fan under its name in list order. |
| Backend.DetectChanges | backend/app.py:214-221 | The scan reports a change exactly when some current device is missing from the last states or has a different recorded state. |
| Backend.ChangeDetectedIff | backend/app.py:216-221 | No change is reported exactly when every current device is among the last states with the same state. A device that only disappeared does not count as a change. |
| Backend.IntervalAfter | backend/app.py:230-239 | While nothing changes, the poll interval lies in [10, 30] s. It is 10 s right after a change and 30 s from 120 s on. |
| Backend.IntervalMonotone | backend/app.py:232-239 | The poll interval never shrinks as the time since the last change grows. |
| Backend.SleepTime | backend/app.py:200-201 | The sleep is never negative and never longer than the interval. When the round fits in the interval, round plus sleep equals the interval. |
| Backend.Server.constructor | backend/app.py:64-123 | Start-up sets the update interval to its maximum (lines 64-67) and stores the states collected after login, none without a manager (lines 116-123). |
| Backend.Server.CheckDeviceStates | backend/app.py:212-239 | On a change, the current list is emitted and becomes the reference, the change time becomes now and the interval 10 s. Otherwise nothing is emitted and the interval follows the time since the last change. Without a manager or fans nothing changes. |
| Backend.Server.UpdateVesyncStep | backend/app.py:180-201 | The devices are refreshed exactly when the states are at least 59 s old or a client room is active. The refresh time is recorded only then, and the sleep is `SleepTime`. |
| Backend.Server.HandleConnect | backend/app.py:135-157 | Stored states go out first when there are any. A refresh happens exactly when more than 30 s have passed or nothing is stored, and a manager exists. A non-empty fresh collection is merged into the stored states and emitted. The stored key set only grows. |
| Backend.MergeOnConnect | backend/app.py:155 | After the connect-time merge, every stored device is still present. Each freshly collected device has its fresh record. A device that was not collected keeps its stored record. |
| Readings.FoldMax | frontend/src/App.js:337 | The fold is at least the seed and at least every reading, and it equals the seed or one of the readings. |
| Readings.Pm | frontend/src/App.js:320 | `air_quality_value \|\| 0` gives a number as it is, `true` as 1, and every other value as 0. |
| Readings.Driver | frontend/src/App.js:320 | `Math.max(1, ...)` is at least 1 and at least every reading, and it is 1 or one of the readings. |
| Readings.DriverIsFlooredMax | frontend/src/App.js:320 | The driver value is the highest reading floored at 1, so it is always at least 1. |
| Readings.ClassName | frontend/src/App.js:336-341 | Each band has its own class: `dusty` only for the dusty band and `clean` only for the clean band. |
| Readings.CleanlinessOf | frontend/src/App.js:336-341 | The band is dusty exactly when some device reads above 50. It is clean exactly when every device reads at most 20. |
| Readings.AirQualityColor | frontend/src/App.js:39-47 | Only the numbers 1 to 4 select a tier colour (tier k for the number k + 1). Every other level gets the grey fallback. |
| Readings.QualityLabel | frontend/src/App.js:427 | The label is a tier name exactly for the numbers 1 to 4, and for `true`, which the subtraction turns into index 0 and so gets tier 0's name. The number k + 1 gets tier k's name. Everything else gets "N/A". |
| Readings.LabelMatchesColor | frontend/src/App.js:427 | For every level except `true`, the label and the colour pick the same tier or both fall back. |
| Readings.Round | frontend/src/App.js:31-33 | Math.round gives the integer nearest to its argument, rounding halves up. |
| Readings.FirstBracket | frontend/src/App.js:18-24 | The search returns the first pair of stops that encloses the value, or reports that no pair does. |
| Readings.PM25Color | frontend/src/App.js:6-36 | The loop-and-break search with its interpolation computes the colour function `PM25ColorOf`. |
| Readings.ColorAtStops | frontend/src/App.js:7-12 | Each stop's reading gets exactly that stop's colour. |
| Readings.LerpBetween | frontend/src/App.js:31-33 | A rounded interpolation between two channel values stays between them. |
| Readings.ColorBetweenStops | frontend/src/App.js:14-33 | For a non-negative reading, each channel lies between the channels of the enclosing stops, so it is a valid 0–255 value. |
| Readings.ColorSaturates | frontend/src/App.js:18-28 | From 120 on, the colour is the last stop's red. |
| DeviceCards.AnyDiffersIff | frontend/src/App.js:76-83 | The `some` scan finds a difference exactly when one of the listed fields differs. |
| DeviceCards.HasChangedIff | frontend/src/App.js:76-83 | A card changed exactly when one of `is_on`, `mode`, `fan_speed`, `air_quality`, `air_quality_value`, `filter_life` differs. Name and model do not matter. |
| DeviceCards.Flagged | frontend/src/App.js:73-87 | A flagged position is present in both messages, is not already animating, and has a tracked field that changed. |
| DeviceCards.UnchangedFieldsFlagNothing | frontend/src/App.js:73-87 | A message whose six tracked fields equal the previous ones at every common position flags nothing, whatever its length. |
| DeviceCards.SetSlot | frontend/src/App.js:93 | Writing an array element past its end extends the array with holes, and the other elements are untouched. |
| DeviceCards.OneTimerPerCard | frontend/src/App.js:89-100 | In a well-formed timer table, a card has at most one pending timer. |
| DeviceCards.ClearIdleSlot | frontend/src/App.js:89-91 | Clearing the slot of a card with nothing pending clears nothing. |
| DeviceCards.Arm | frontend/src/App.js:89-100 | Arming puts a fresh id in the card's slot, with a timer for that card at the deadline. It clears the id that was in the slot and bumps the next id. |
| DeviceCards.ArmKeepsOthers | frontend/src/App.js:89-100 | Apart from the fresh id, arming keeps exactly the pending timers other than the one cleared from the card's slot, each unchanged. It invents no other timer. |
| DeviceCards.ArmTimer | frontend/src/App.js:89-100 | Arming a timer for an idle card keeps the table well formed. Every pending timer stays, the one new timer is the card's and due at the deadline, and that card alone joins the timed cards. |
| DeviceCards.ExpireTimer | frontend/src/App.js:93-99 | A timer's expiry keeps the table well formed and frees only its own card. |
| DeviceCards.ClearNextSlot | frontend/src/App.js:329-331 | Clearing slot k removes exactly card k's pending timer. |
| DeviceCards.ScanCards | frontend/src/App.js:73-103 | The `forEach` flags exactly the fresh changed common positions and adds them to `animating`. Every pre-existing timer is kept. Each new timer belongs to a flagged card and is due 1500 ms from now. The timer table stays well formed. |
| DeviceCards.ScanSkip | frontend/src/App.js:73-85 | A position with no previous device, no tracked difference, or a running highlight leaves the flagged set, the animating set and the timers as they were. |
| DeviceCards.ScanArm | frontend/src/App.js:85-100 | A flagged position joins the flagged and animating sets and gets a timer due 1500 ms from now. Earlier timers stay and the table stays well formed. |
| DeviceCards.ScanStep | frontend/src/App.js:73-101 | One turn of the `forEach` keeps the scan invariant for the next position. The flagged set is exactly the flagged cards so far, `animating` grows by them, and the timer table stays well formed and extended. |
| DeviceCards.CardHighlights.constructor | frontend/src/App.js:50-66 | A fresh component has no cards, no highlights and no timers. |
| DeviceCards.CardHighlights.HandleDeviceUpdate | frontend/src/App.js:69-110 | `animating` and `updating` each grow by exactly the flagged cards. A card already animating keeps its timer and deadline. New timers are due 1500 ms from now. The message replaces the retained and displayed devices whole. A card animates exactly when it has a pending timer, and `updating == animating`. |
| DeviceCards.CardHighlights.FireTimer | frontend/src/App.js:93-99 | A timer fires only once its deadline has passed. It removes its card from `animating` and `updating` and keeps the invariants. |
| DeviceCards.CardHighlights.Unmount | frontend/src/App.js:327-333 | Clearing every slot on unmount leaves no timer pending. |
| DeviceCards.PowerToggleFlags | frontend/src/App.js:73-87 | Switching a purifier on flags its card. A further message while that card is still animating flags nothing, whatever it changes. |
| ParticleField.SmoothStep | frontend/src/App.js:213 | The smoothed value moves towards the target without overshooting, and its distance to the target shrinks by the factor 0.98. |
| ParticleField.SmoothConverges | frontend/src/App.js:213 | After n frames with a fixed target, the value has not overshot and is within the initial distance divided by 1 + n/50. |
| ParticleField.SpawnRateBounds | frontend/src/App.js:187-198 | For a target of at least 1, the rate lies in [10, 500], reaches 500 exactly when pm² ≥ 50, and grows with pm. The population target is at most 3000 and the spawn interval lies in [2, 100] ms. |
| ParticleField.SpawnRate | frontend/src/App.js:187-198 | The rate is between 0 and 500 per second. It is either the cap or 10 · pm². |
| ParticleField.TargetCount | frontend/src/App.js:187-198 | The population target is between 0 and 3000. |
| ParticleField.CreatedParticle | frontend/src/App.js:150-184 | A new particle starts at full life on its edge, 10 px outside the canvas. Its opacity, size and fade rate are in their ranges, and it passes the removal test. |
| ParticleField.CreateParticle | frontend/src/App.js:150-184 | A new particle starts at full life on one of the four edges, 10 px outside the canvas, whatever the draws. |
| ParticleField.Advance | frontend/src/App.js:234-255 | A frame moves the particle by its new velocity. It takes at least the fade rate off its life and leaves fade rate, opacity and size unchanged. |
| ParticleField.Lifetime | frontend/src/App.js:252-255 | Over any frames, life drops by at least the fade rate per frame, so every particle has died within 1000 frames. |
| ParticleField.Survivors | frontend/src/App.js:231-267 | The cull never lengthens the list. |
| ParticleField.SurvivorsProperties | frontend/src/App.js:231-267 | The cull pass never adds particles. It keeps only particles passing the removal test and keeps every particle well formed. |
| ParticleField.SurvivorsCount | frontend/src/App.js:264-266 | The list keeps its length exactly when every advanced particle passes the removal test. |
| ParticleField.SurvivorsMembers | frontend/src/App.js:231-267 | The survivors are exactly the advanced particles that pass the removal test. |
| ParticleField.SpawnCount | frontend/src/App.js:221-228 | The spawn loop never takes the population past 3000. |
| ParticleField.SpawnCountBounds | frontend/src/App.js:221-228 | The spawn loop adds no particle once the population reaches the target, and no more than the whole intervals elapsed. It stops only when one of the two runs out. |
| ParticleField.AdvancedIsProduct | frontend/src/App.js:227 | Adding the spawn interval k times to `lastSpawn` advances it by k intervals. |
| ParticleField.CreatedWellFormed | frontend/src/App.js:150-184 | Every particle the spawn loop creates from valid draws is well formed. |
| ParticleField.SpawnLoop | frontend/src/App.js:221-228 | The loop pushes exactly `SpawnCount` particles, created from the draws in order. `lastSpawn` advances one interval per particle, and the population stays within 3000. |
| ParticleField.CullStep | frontend/src/App.js:231-267 | One turn of the reverse loop advances particle i and then splices it out or stores it back. This extends the processed suffix by one position. |
| ParticleField.Cull | frontend/src/App.js:231-267 | The reverse loop with its splice leaves exactly the survivors of the list, in their original order. |
| ParticleField.Field.constructor | frontend/src/App.js:56-65 | The refs start with smoothed 0, target 1, rate 2, target population 50 and no particles. |
| ParticleField.Field.SetTarget | frontend/src/App.js:320 | The target becomes the message's driver value, at least 1. |
| ParticleField.Field.Smooth | frontend/src/App.js:213 | The smoothed value takes one `SmoothStep` towards the target. |
| ParticleField.Field.UpdateParticleSystem | frontend/src/App.js:187-198 | Rate and population target are computed from the unsmoothed target, within their caps. |
| ParticleField.Field.SpawnParticles | frontend/src/App.js:221-228 | The loop pushes exactly `SpawnCount` particles from the draws in order, and `lastSpawn` advances one interval per particle. The population stays within 3000. |
| ParticleField.Field.StepParticles | frontend/src/App.js:231-267 | The reverse loop with its splice leaves exactly the survivors, in their original order. |
| ParticleField.Field.Resume | frontend/src/App.js:280-281 | Showing the tab again restarts spawning from now. |
| ParticleField.Field.Animate | frontend/src/App.js:201-270 | A frame smooths, then recomputes rate and target. It spawns `SpawnCount` particles, and `lastSpawn` advances one interval each. The new list is the survivors of the old particles followed by the created ones. Every particle passes the removal test, and the invariants hold. |
| Dashboard.OnDevicesUpdate | frontend/src/App.js:311-321 | A message updates the cards as `HandleDeviceUpdate` states: both highlight sets grow by the flagged cards, old timers are kept, and new ones are due 1500 ms later. It sets the particle target to the driver value, at least 1. The class is `dusty` exactly when some reading exceeds 50 and `clean` exactly when none exceeds 20. |

## Left out

- Rendering: JSX, CSS classes, the splash delay, the mobile layout, and all canvas drawing (the sprite, `clearRect`, `drawImage`, opacity), because they are output only.
- Real time: `setTimeout`, `requestAnimationFrame` and the visibility handler. Timers are explicit pending entries with a deadline, `FireTimer` is their expiry at any time from the deadline on, and frames, resumes and clock readings are method calls with parameters.
- React state updates are taken to apply at once. Between a `setUpdatingDevices` call and the next render, the real `updating` set can lag behind.
- The frame effect restarts (`animate(0)`) whenever the devices change. `Animate` with a timestamp of 0 covers that frame, but the restart itself is not modelled.
- The window resize handler. The canvas size is a parameter of each frame.
- `Math.random()` and `Math.sqrt` are parameters: a sequence of draws in [0, 1), and an arbitrary function. No property here depends on the square root's value.
- Floating point: readings, times and particle coordinates are exact reals, so rounding error, NaN and infinities are not modelled. A reading that is a string (`Math.max` coerces it) is read as 0 by `Readings.Pm`. A string quality level (`"2" - 1` is 1) gets "N/A" from `Readings.QualityLabel`.
- Readings.ColorBetweenStops: proved for non-negative readings only. A negative reading falls back to the blue-to-red pair and extrapolates past blue.
- ParticleField.SpawnLoop: termination rests on the population cap (at most 3000) rather than on the time guard. Both hold in the code.
- The population can stay above the target when the target drops. The spawn loop then adds nothing, and no frame removes the excess. The model keeps this behaviour: `SpawnCountBounds` bounds the population by the larger of its previous size and the target.
- The backend's I/O: Flask, Socket.IO, eventlet, the threads, `time.sleep`, logging, the VeSync login and the `init_vesync` retry loop, and the exception handlers around them. The fans the library reports are a parameter, and `UpdateVesyncStep` assumes a logged-in manager.
- md5 and JSON serialisation. The state hash is the sorted-key serialisation itself, so digest collisions are not modelled.
- The JSON distinction between `1` and `1.0` does not exist in `Json.Value`.
- Backend.Server.UpdateVesyncStep: the update call to the cloud and its timing are the parameters `refreshedAt` and `loopDuration`.
- The frontend compares cards by position, and the code has no separate path for a change in the number of devices. A longer message simply has positions with nothing to compare. Highlights are per card, one 1500 ms timer each, with no per-field highlight and no second, later timer.
- The spawn rate and population target follow the raw target reading, not the smoothed value. The smoothed value is computed every frame but used nowhere else. The population target is `6 · rate` with no rounding.
