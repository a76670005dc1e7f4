# S-ADAPT adaptive light — a verified model of its decision logic

S-ADAPT is firmware for an STM32L4 desk light. The light dims itself with the
ambient light and switches off when nobody is at the desk.

**Inputs**
- A light-dependent resistor (LDR), sampled through the ADC, sets an
  automatic brightness.
- An ultrasonic range finder watches the seat.
- A rotary encoder with a push switch shifts the brightness by a manual
  offset and toggles the light.
- A button pages through the OLED screens and, on a long hold, opens a
  settings menu. The menu's values persist in an append-only record log in
  one flash page.

**Outputs**
- The main LED is driven by PWM.
- An RGB status LED shows the classifier's state.

This project models the decision logic behind those features in Dafny and
proves what the code promises about it. Each source file becomes one Dafny
module:

| module | file | what it holds |
|---|---|---|
| `Wrap` | (shared) | the firmware's 8/16/32-bit integers; unsigned 32-bit addition and subtraction modulo 2^32 and the signed view of a difference |
| `Filters` | `support/filter_utils.c` | the LDR moving average over a 16-slot ring with a running sum; the median-of-3 distance filter |
| `Settings` | `app/app_settings.c` | the six user settings, clamp and clamp-to-step, defaults, validation |
| `Crc` | `support/settings_store.c` | the reflected CRC-32 (polynomial 0xEDB88320), as the nested loop and as a function |
| `SettingsStore` | `support/settings_store.c` | the range check, the record image and its validity check, the log scan, load and save over a page of slots |
| `EventQueue` | the three input drivers | the 8-entry FIFO ring buffer that drops on overflow |
| `Debounce` | the three input drivers | the 3-sample debouncer |
| `EncoderInput` | `input/encoder_input.c` | the encoder driver; the earlier `encoder_input.c` shares its queue, debouncer and pop |
| `LegacyEncoderInput` | `encoder_input.c` | the earlier edge handler, which carries the raw switch pin |
| `SwitchInput` | `switch_input.c` | the button and SW2 debouncers and their event queue |
| `StatusLed` | `bsp/status_led.c` | the state-to-colour map, the fault latch and the red blink |
| `MainLed` | `bsp/main_led.c` | percent to compare value, and the start and enable gates |
| `AppState` | `app/app_internal.h` | the sub-structs of the application context, as classes |
| `AppSensors` | `app/app_sensors.c` | sampling and the presence engine |
| `AppControl` | `app/app_control.c` | the output chain and the status classifier |
| `AppEvents` | `app/app_events.c` | encoder and button handling, the settings menu, the light toggle |
| `AppUi` | `app/app_ui.c` | view composition, change detection, the redraw gate |
| `LegacyApp` | `app/app.c` | the earlier application: double-click offset reset and the 80 cm presence threshold |
| `ProtoApp` | `app.c` | the first application: status evaluation, RGB test cycle, log-on-change |

The presence engine and the output controller work on a pure state value
(`Presence`), each with a function for one step. The methods that update the
context in place are proved equal to those functions. The lemmas are then
proved about the functions.

**Parameters.** Configuration and helpers whose definitions are not in the
source are parameters, never guessed:
- the policy and timing configurations: `PolicyCfg`, `TimingCfg`;
- `input_has_elapsed_ms`: an `ElapsedFn`;
- the `APP_SETTINGS_*_STEP` constants: `Steps`;
- `app_settings_apply_build_defaults`: a `defaults: Settings` argument.

**Hardware reads** are inputs:
- ADC and GPIO levels;
- the ultrasonic distance and status;
- the flash driver's answers (`FlashHal`);
- the display's readiness;
- the clock.

**Where the design description and the code differ, the model follows the code:**
- The presence engine never sets "no user" itself. On an away or stale
  condition it only raises the candidate flag and records the reason
  (`app_sensors.c:107-116`); `AppSensors.StepNeverDropsPresence` states this.
- The ramp converges to the hysteresis output, not to the raw target.
  The two differ by less than the hysteresis band while the band holds
  (`AppControl.RampRunConverges`, `AppControl.HysteresisOf`).

## Model

| member | source | states |
|---|---|---|
| Wrap.Clamp | S-ADAPT/Core/Src/app/app_settings.c:4-13 | the value limited to [lo, hi]: the identity inside, lo below, hi above, and always one of lo, hi or the value; clamp_u16 here and clamp_offset at app/app_events.c:27-37 and app/app.c:114-124 are this one function |
| Wrap.ClampMonotone | S-ADAPT/Core/Src/app/app_events.c:27-37 | clamping keeps the order of its arguments, so turning further never moves the offset back |
| Filters.Advance | S-ADAPT/Core/Src/support/filter_utils.c:53 | `(index + 1) % window` inside the window is the next slot, wrapping to 0 |
| Filters.Median3Of | S-ADAPT/Core/Src/support/filter_utils.c:3-21 | the three compare-and-swaps return a true median: one of the arguments, with one argument at or below it and one at or above it |
| Filters.MedianIsUnique | S-ADAPT/Core/Src/support/filter_utils.c:3-21 | any two medians of the same three values are equal, so the median is a function of the values alone |
| Filters.MedianRotations | S-ADAPT/Core/Src/support/filter_utils.c:3-21 | rotating the three arguments does not change the median |
| Filters.NotFullStep | S-ADAPT/Core/Src/support/filter_utils.c:51-55 | while the window fills, storing at `count` extends the filled prefix by the sample and adds it to the sum |
| Filters.RingStep | S-ADAPT/Core/Src/support/filter_utils.c:56-61 | in a full ring, overwriting the oldest slot and advancing the index drops the oldest sample and appends the new one |
| Filters.LastSumStep | S-ADAPT/Core/Src/support/filter_utils.c:45-64 | the sum of the last `c` samples after a push is the old sum of the last `c - 1` plus the sample, and fits in `c * 0xFFFF` |
| Filters.RingPushFilling | S-ADAPT/Core/Src/support/filter_utils.c:51-55 | a push into a filling window keeps the invariant: `sum` is the sum of the filled slots, and they are the pushed samples oldest first |
| Filters.RingPushFull | S-ADAPT/Core/Src/support/filter_utils.c:56-61 | a push into a full window subtracts the evicted slot, never driving `sum` negative, and keeps the invariant |
| Filters.MovingAverage.constructor | S-ADAPT/Core/Src/support/filter_utils.c:23-43 | a new filter is initialised: window 0 or above 16 becomes 1, no samples |
| Filters.MovingAverage.Init | S-ADAPT/Core/Src/support/filter_utils.c:23-43 | window 0 or above 16 becomes 1; sum, count and index are 0 and all 16 slots are zeroed (the zeroing loop) |
| Filters.MovingAverage.Push | S-ADAPT/Core/Src/support/filter_utils.c:45-64 | the sample goes into slot `index`, and `index` advances mod the window; while filling, count grows by one and the sum by the sample; when full, count stays and the evicted slot is subtracted; the return is the floored mean of the last min(n, window) samples |
| Filters.MovingAverage.Get | S-ADAPT/Core/Src/support/filter_utils.c:66-73 | 0 before any sample; otherwise the floored mean of the last min(n, window) samples |
| Filters.MovingAverage.IsReady | S-ADAPT/Core/Src/support/filter_utils.c:75-82 | true exactly when at least `window` samples have been pushed |
| Filters.TriplePush | S-ADAPT/Core/Src/support/filter_utils.c:97-108 | a round-robin write keeps the median filter's invariant with count saturating at 3 |
| Filters.TripleLast | S-ADAPT/Core/Src/support/filter_utils.c:110-125 | for each count, the slots hold the newest samples that `get` reads |
| Filters.Median3.constructor | S-ADAPT/Core/Src/support/filter_utils.c:84-95 | a new median filter is empty |
| Filters.Median3.Init | S-ADAPT/Core/Src/support/filter_utils.c:84-95 | the three samples, count and index are zeroed |
| Filters.Median3.Push | S-ADAPT/Core/Src/support/filter_utils.c:97-108 | writes `samples[index]`, cycles the index 0→1→2→0, saturates count at 3 |
| Filters.Median3.Get | S-ADAPT/Core/Src/support/filter_utils.c:110-125 | count 0 → 0; count 1 → the sample; count 2 → the 32-bit mean of the two; count 3 → the true median of the last three samples |
| Filters.Median3.IsReady | S-ADAPT/Core/Src/support/filter_utils.c:127-134 | true exactly when three samples have been pushed |
| Settings.FloorMultiple | S-ADAPT/Core/Src/app/app_settings.c:29 | the largest multiple of the step not above x |
| Settings.FloorMultipleIsDivision | S-ADAPT/Core/Src/app/app_settings.c:29 | that multiple is the C expression `(x / step) * step` |
| Settings.FloorMultipleOnGrid | S-ADAPT/Core/Src/app/app_settings.c:29 | the floor multiple is divisible by the step |
| Settings.FloorMultipleUnique | S-ADAPT/Core/Src/app/app_settings.c:29 | a multiple of the step within one step below x is the floor multiple |
| Settings.FloorMultipleMonotone | S-ADAPT/Core/Src/app/app_settings.c:29 | the floor multiple is monotone in x |
| Settings.ClampStepU16 | S-ADAPT/Core/Src/app/app_settings.c:15-32 | with step 0 it is exactly `clamp_u16` |
| Settings.ClampStepNoWrap | S-ADAPT/Core/Src/app/app_settings.c:25-31 | when the 16-bit casts cannot wrap, the result is min plus the clamped offset rounded half up to the step, capped at max - min |
| Settings.ClampStepRounds | S-ADAPT/Core/Src/app/app_settings.c:25-31 | for step > 0: the result is in [min, max]; (result - min) is a multiple of the step or the result is max; it is the nearest grid point, half up, within step/2 of the clamped value |
| Settings.ClampStepIdempotent | S-ADAPT/Core/Src/app/app_settings.c:15-32 | normalising twice is normalising once |
| Settings.ClampStepOnGrid | S-ADAPT/Core/Src/app/app_settings.c:25-31 | when the range is a whole number of steps, every result is on the grid |
| Settings.ClampStepRounds0 | S-ADAPT/Core/Src/app/app_settings.c:15-32 | for the settings' own ranges, every step (0 included) keeps the result in [min, max] |
| Settings.OnGridFixed | S-ADAPT/Core/Src/app/app_settings.c:25-31 | a value on the grid is left unchanged |
| Settings.Defaults | S-ADAPT/Core/Src/app/app_settings.c:34-46 | the defaults 1, 1, 30, 120, 10, 10 lie within every field's bounds |
| Settings.Flag | S-ADAPT/Core/Src/app/app_settings.c:54-55 | a mode flag becomes 1 exactly when it was nonzero, else 0 |
| Settings.Validate | S-ADAPT/Core/Src/app/app_settings.c:48-73 | the result is within all bounds and keeps each flag's truth value |
| Settings.ValidateIdempotent | S-ADAPT/Core/Src/app/app_settings.c:48-73 | validating twice is validating once, for every choice of step sizes |
| Settings.ValidateFixesOnGrid | S-ADAPT/Core/Src/app/app_settings.c:48-73 | a struct whose flags are 0/1 and whose fields are on their grids is unchanged |
| Settings.ValidateOnGrid | S-ADAPT/Core/Src/app/app_settings.c:48-73 | when every range is a whole number of steps, every validated field is on its grid |
| Crc.ShiftByte | S-ADAPT/Core/Src/support/settings_store.c:80-86 | the inner loop performs eight reflected shifts with conditional XOR of 0xEDB88320 |
| Crc.Crc32 | S-ADAPT/Core/Src/support/settings_store.c:72-89 | the loop computes the CRC-32: preset 0xFFFFFFFF, every byte fed, final complement |
| Crc.EightShifts | S-ADAPT/Core/Src/support/settings_store.c:80-86 | the eight shifts of the inner loop written out one by one |
| Crc.CheckValueBytes | S-ADAPT/Core/Src/support/settings_store.c:72-89 | the register after each byte of "123456789" |
| Crc.Crc32CheckValue | S-ADAPT/Core/Src/support/settings_store.c:72-89 | the CRC-32 of "123456789" is 0xCBF43926, the standard check value of the IEEE 802.3 frame check sequence |
| SettingsStore.InRangeIsValidated | S-ADAPT/Core/Src/support/settings_store.c:39-70 | a configuration that passes `settings_is_in_range` is a fixed point of `app_settings_validate` |
| SettingsStore.ValidatedIsInRange | S-ADAPT/Core/Src/support/settings_store.c:39-70 | when every range is a whole number of steps, validation yields a configuration the store accepts |
| SettingsStore.LeBytes | S-ADAPT/Core/Src/support/settings_store.c:274 | a field of the record image has exactly its width in bytes |
| SettingsStore.MakeRecord | S-ADAPT/Core/Src/support/settings_store.c:267-274 | the record save builds passes `settings_record_is_valid`, carries the sequence number and the payload, and has reserved word 0xFFFFFFFF |
| SettingsStore.ScanUpToValidFacts | S-ADAPT/Core/Src/support/settings_store.c:150-161 | after the first n slots the scan holds the first valid record of greatest sequence number among them, which later ties do not replace |
| SettingsStore.ScanUpToErasedFacts | S-ADAPT/Core/Src/support/settings_store.c:143-148 | after the first n slots the next-write slot is the first erased one among them |
| SettingsStore.ScanWithCharacterized | S-ADAPT/Core/Src/support/settings_store.c:131-166 | the scan finds a record iff some slot is valid; it picks a valid record whose sequence number is at least every other's, the first such; `next_write` is the first erased slot or END, and every slot before it is programmed |
| SettingsStore.ScanPicksUniqueMax | S-ADAPT/Core/Src/support/settings_store.c:156-160 | a valid record whose sequence number beats every other valid one is the record the scan returns |
| SettingsStore.ErasedPage | S-ADAPT/Core/Src/support/settings_store.c:168-184 | an erased page: every slot erased |
| SettingsStore.SaveOf | S-ADAPT/Core/Src/support/settings_store.c:232-279 | an out-of-range configuration gives INVALID_CFG with the page untouched; any failure before programming leaves the page unchanged |
| SettingsStore.SaveAppends | S-ADAPT/Core/Src/support/settings_store.c:243-276 | a successful save wrote the record with the next sequence number into the first erased slot or, when none is left, into slot 0 of a freshly erased page |
| SettingsStore.SaveThenLoad | S-ADAPT/Core/Src/support/settings_store.c:206-279 | loading after a successful save returns OK and the saved configuration (unless a stored sequence number is already 0xFFFFFFFF) |
| SettingsStore.LoadWithoutRecord | S-ADAPT/Core/Src/support/settings_store.c:218-225 | with no valid record, load returns the defaults, sets `used_defaults` and reports NO_VALID_RECORD |
| SettingsStore.Flash.constructor | S-ADAPT/Core/Src/support/settings_store.c:131-166 | the page holds the given slots |
| SettingsStore.Flash.Scan | S-ADAPT/Core/Src/support/settings_store.c:131-166 | the loop over the slots computes the scan result |
| SettingsStore.Flash.Load | S-ADAPT/Core/Src/support/settings_store.c:206-230 | load computes the load result: the latest valid payload through validation, or the defaults |
| SettingsStore.Flash.Save | S-ADAPT/Core/Src/support/settings_store.c:232-279 | the status and the new page are exactly those of the save function above |
| EventQueue.PushAllKeepsOldest | S-ADAPT/Core/Src/input/encoder_input.c:37-53 | a burst of pushes keeps the oldest events: the queue becomes the first 8 of old contents followed by the burst |
| EventQueue.Queue.constructor | S-ADAPT/Core/Src/input/encoder_input.c:32-35 | an empty queue |
| EventQueue.Queue.Clear | S-ADAPT/Core/Src/input/encoder_input.c:67-69 | head, tail and count are 0 and the queue is empty |
| EventQueue.Queue.Push | S-ADAPT/Core/Src/input/encoder_input.c:37-53 | below 8 entries: stores at `tail`, advances `tail` mod 8, increments count, and the event is appended; when full nothing changes; `tail == (head + count) mod 8` is kept |
| EventQueue.Queue.Pop | S-ADAPT/Core/Src/input/encoder_input.c:120-139 | empty returns nothing with no change; otherwise returns the oldest event, advances `head` mod 8 and decrements count (FIFO) |
| Debounce.Seeded | S-ADAPT/Core/Src/switch_input.c:31-37 | stable and candidate are the current level, with 0 ticks |
| Debounce.Step | S-ADAPT/Core/Src/switch_input.c:56-75 | the candidate becomes the sampled level; ticks stay at most 3; the stable level changes only to the candidate, and only once the candidate agreed for 3 samples |
| Debounce.Trailing | S-ADAPT/Core/Src/switch_input.c:56-75 | the length of the run of equal samples at the end of the history |
| Debounce.TrailingMeans | S-ADAPT/Core/Src/switch_input.c:56-75 | the last n samples, for n up to that run, all equal the level |
| Debounce.StepAgrees | S-ADAPT/Core/Src/switch_input.c:56-75 | the candidate and its ticks always describe the trailing run of samples; a stable change needs the current sample and the two before it to agree |
| Debounce.ThreeAgreeingSettle | S-ADAPT/Core/Src/switch_input.c:56-75 | three agreeing samples always make the level stable |
| Debounce.Debouncer.constructor | S-ADAPT/Core/Src/switch_input.c:31-37 | a new debouncer is seeded with the level |
| Debounce.Debouncer.Seed | S-ADAPT/Core/Src/switch_input.c:31-37 | re-seeds stable and candidate with the level, ticks 0 |
| Debounce.Debouncer.Sample | S-ADAPT/Core/Src/switch_input.c:56-75 | one sample is one debouncer step, reporting whether the stable level changed |
| EncoderInput.SwitchEventKind | S-ADAPT/Core/Src/input/encoder_input.c:97 | a new stable level 0 is PRESSED, level 1 is RELEASED |
| EncoderInput.RotationKind | S-ADAPT/Core/Src/input/encoder_input.c:117 | DT low is CW, DT high is CCW |
| EncoderInput.AfterSampleEvents | S-ADAPT/Core/Src/input/encoder_input.c:94-100 | an unchanged stable level enqueues nothing; a change enqueues exactly one event carrying the new level, PRESSED iff it is 0 |
| EncoderInput.Encoder.constructor | S-ADAPT/Core/Src/input/encoder_input.c:55-72 | empty queue, switch seeded with the level, sample time now, edge time 0 |
| EncoderInput.Encoder.Init | S-ADAPT/Core/Src/input/encoder_input.c:55-72 | empties the queue and seeds stable = candidate = the level with 0 ticks |
| EncoderInput.Encoder.Tick | S-ADAPT/Core/Src/input/encoder_input.c:74-101 | within 10 ms of the last sample nothing changes; otherwise one debouncer step, and one PRESSED/RELEASED event per stable change |
| EncoderInput.Encoder.OnClkEdge | S-ADAPT/Core/Src/input/encoder_input.c:103-118 | an edge within 2 ms (wrapping) of the last accepted one is ignored; otherwise CW or CCW is enqueued with the debounced switch level |
| EncoderInput.Encoder.PopEvent | S-ADAPT/Core/Src/input/encoder_input.c:120-139 | a NULL destination or an empty queue returns nothing with no change; otherwise the oldest event is removed and returned |
| LegacyEncoderInput.OnClkEdge | S-ADAPT/Core/Src/encoder_input.c:123-138 | the same 2 ms guard, but the event carries the raw switch pin level |
| LegacyEncoderInput.RevisionsDifferOnBounce | S-ADAPT/Core/Src/encoder_input.c:134-137 | the two revisions enqueue the same event iff the raw pin equals the debounced level |
| SwitchInput.MakeEvent | S-ADAPT/Core/Src/switch_input.c:47-49 | an event carries its input and level, with `pressed = 1` iff the level is 0 |
| SwitchInput.ButtonBeforeSw2 | S-ADAPT/Core/Src/switch_input.c:88-97 | when both switches change on one tick, the BUTTON event is queued before the SW2 event |
| SwitchInput.Switches.constructor | S-ADAPT/Core/Src/switch_input.c:77-86 | both switches are seeded and the queue is empty |
| SwitchInput.Switches.Init | S-ADAPT/Core/Src/switch_input.c:77-86 | empties the queue and seeds stable = candidate = the level for both switches |
| SwitchInput.Switches.ProcessSwitch | S-ADAPT/Core/Src/switch_input.c:56-75 | one debouncer step; one event per stable-level change |
| SwitchInput.Switches.Tick | S-ADAPT/Core/Src/switch_input.c:88-97 | within 10 ms of the last sample nothing changes; otherwise BUTTON then SW2 are processed, in that order |
| SwitchInput.Switches.PopEvent | S-ADAPT/Core/Src/switch_input.c:99-109 | a NULL destination or an empty queue returns nothing with no change; otherwise FIFO removal |
| StatusLed.ColorsDistinguishStates | S-ADAPT/Core/Src/bsp/status_led.c:36-61 | only FAULT leaves the pins alone, and distinct known states have distinct colours: BOOT (1,0,1), LIGHT_OFF (1,0,0), AUTO (0,0,1), OFFSET (0,1,0), NO_USER (1,1,0) |
| StatusLed.DistanceState | S-ADAPT/Core/Src/bsp/status_led.c:121-136 | below 10 cm NO_USER, below 20 cm OFFSET_POSITIVE, else AUTO (each an iff) |
| StatusLed.Indicator.constructor | S-ADAPT/Core/Src/bsp/status_led.c:63-71 | state BOOT, no fault, default blink period, purple pins |
| StatusLed.Indicator.ApplyStateColor | S-ADAPT/Core/Src/bsp/status_led.c:36-61 | known states paint their colour (an unknown one paints blue); FAULT leaves the pins; nothing else changes |
| StatusLed.Indicator.Init | S-ADAPT/Core/Src/bsp/status_led.c:63-71 | state BOOT, fault latch and red flag cleared, default blink period, purple pins |
| StatusLed.Indicator.SetFatalFault | S-ADAPT/Core/Src/bsp/status_led.c:102-119 | enabling latches the fault and shows red; clearing resets latch and red flag, turns state FAULT into AUTO and repaints the state colour |
| StatusLed.Indicator.SetState | S-ADAPT/Core/Src/bsp/status_led.c:73-85 | always records the state; FAULT enables the fault; other states repaint only when no fault is latched |
| StatusLed.Indicator.Tick | S-ADAPT/Core/Src/bsp/status_led.c:87-100 | without a latched fault, or before a blink period passed, nothing changes; otherwise red toggles with green and blue off |
| StatusLed.Indicator.SetForDistance | S-ADAPT/Core/Src/bsp/status_led.c:121-136 | sets the state the distance maps to, painted unless a fault is latched |
| StatusLed.Indicator.BlinkError | S-ADAPT/Core/Src/bsp/status_led.c:138-146 | period 0 keeps the previous blink period, any other replaces it; the fault is latched either way |
| MainLed.CompareAsWritten | S-ADAPT/Core/Src/bsp/main_led.c:9-26 | the compare value as the 32-bit code computes it never exceeds ARR |
| MainLed.CompareBounds | S-ADAPT/Core/Src/bsp/main_led.c:18-23 | compare = min((arr+1)·percent/100, arr): 0 % gives 0, 100 % gives ARR, never above ARR |
| MainLed.CompareMonotone | S-ADAPT/Core/Src/bsp/main_led.c:18-23 | a higher percentage never gives a lower compare value |
| MainLed.CompareAsWrittenAgrees | S-ADAPT/Core/Src/bsp/main_led.c:19 | the written formula is the intended one whenever (arr+1)·100 fits in 32 bits |
| MainLed.CompareAsWrittenWrapsAtFullScale | S-ADAPT/Core/Src/bsp/main_led.c:19 | at ARR 0xFFFFFFFF, 100 % as written gives compare 0 instead of ARR |
| MainLed.Driver.constructor | S-ADAPT/Core/Src/bsp/main_led.c:3-7 | no timer, not started, disabled, percent 0 |
| MainLed.Driver.ApplyPercent | S-ADAPT/Core/Src/bsp/main_led.c:9-26 | NULL timer gives NOT_INIT with no write; otherwise writes the compare value as the 32-bit code computes it (`CompareAsWritten`, at most ARR), which equals the intended share `Compare` whenever (ARR + 1) · 100 fits in 32 bits |
| MainLed.Driver.Init | S-ADAPT/Core/Src/bsp/main_led.c:28-35 | records the timer and resets started, enabled and percent to 0 |
| MainLed.Driver.Start | S-ADAPT/Core/Src/bsp/main_led.c:37-49 | NULL timer gives NOT_INIT and a failed PWM start gives HAL_START_ERROR, each with no change; otherwise marks started and applies 0 % |
| MainLed.Driver.SetPercent | S-ADAPT/Core/Src/bsp/main_led.c:51-69 | above 100 gives INVALID_PERCENT with no change; before start, NOT_INIT; otherwise stores the percent and drives its 32-bit compare value (`CompareAsWritten`), or 0 while disabled; without wrap that is `Compare` |
| MainLed.Driver.SetEnabled | S-ADAPT/Core/Src/bsp/main_led.c:76-91 | before start NOT_INIT; disabling drives 0 and keeps the stored percent; enabling re-applies it through the 32-bit formula, which is `Compare` without wrap |
| AppSensors.AbsDiff | S-ADAPT/Core/Src/app/app_sensors.c:3-6 | equals \|a − b\| with no underflow |
| AppSensors.ConditionsOf | S-ADAPT/Core/Src/app/app_sensors.c:56-64 | away iff the distance exceeds reference + body margin (32-bit sum); flat and motion need a previous sample, with \|Δ\| ≤ flat band and \|Δ\| ≥ motion delta respectively |
| AppSensors.StepCapturesReference | S-ADAPT/Core/Src/app/app_sensors.c:42-47 | a pending capture takes the filtered distance as reference and clears pending and fallback, even with the light off; every valid sample becomes the previous sample (136-137) |
| AppSensors.StepLightOff | S-ADAPT/Core/Src/app/app_sensors.c:49-54 | with the light off the four streaks and the candidate flag are zeroed; presence and reason are untouched |
| AppSensors.StepNeverDropsPresence | S-ADAPT/Core/Src/app/app_sensors.c:107-133 | the engine never clears `last_valid_presence` |
| AppSensors.StepWhilePresent | S-ADAPT/Core/Src/app/app_sensors.c:66-116 | while present: away and flat streaks add the sample period while their condition holds, else reset; motion and near streaks are 0; reason AWAY iff the away streak reached its timeout, else FLAT iff the flat streak reached the stale timeout; candidate iff a reason was set |
| AppSensors.StepWhileAbsent | S-ADAPT/Core/Src/app/app_sensors.c:78-133 | while absent: away and flat streaks are 0 and no candidate is raised; presence returns iff AWAY with the near-reference streak confirmed or FLAT with motion on this sample, and then the reason is NONE, otherwise the reason stays |
| AppSensors.StepRecoveryStreaks | S-ADAPT/Core/Src/app/app_sensors.c:84-105 | the motion streak is nonzero only while absent for FLAT; without motion it decays by half the period, never below 0; the near streak is nonzero only while absent for AWAY and within the return band |
| AppSensors.RunNeverDropsPresence | S-ADAPT/Core/Src/app/app_sensors.c:107-133 | over any run of samples, a present user stays present as far as this engine goes |
| AppSensors.AwayStreakAccumulates | S-ADAPT/Core/Src/app/app_sensors.c:66-72 | n samples beyond the reference + margin add exactly n sample periods to the away streak |
| AppSensors.AwayRunFlagsCandidate | S-ADAPT/Core/Src/app/app_sensors.c:107-112 | once such a run brings the away streak to its timeout, the candidate is raised with reason AWAY |
| AppSensors.AwayStep | S-ADAPT/Core/Src/app/app_sensors.c:66-112 | one sample beyond the margin while present adds one period to the away streak and flags AWAY once it reaches the timeout |
| AppSensors.AwayWithoutWrap | S-ADAPT/Core/Src/app/app_sensors.c:62 | when reference + margin fits in 32 bits, away is exactly "farther than reference + margin" |
| AppSensors.SampleLdrIfDue | S-ADAPT/Core/Src/app/app_sensors.c:8-18 | when not due nothing changes; when due the sample time advances by exactly the period, and only an OK reading is pushed into the moving average and sets the filtered value |
| AppSensors.SampleUltrasonicIfDue | S-ADAPT/Core/Src/app/app_sensors.c:20-140 | when due the sample time advances by exactly the period; the error sentinel or a non-OK status changes no presence, filter or reference state; a valid reading goes through the median filter and one step of the presence engine |
| AppSensors.FilterDistance | S-ADAPT/Core/Src/app/app_sensors.c:37-40 | the raw reading is pushed into the median filter; the filtered and last-valid distances are its output |
| AppSensors.RunPresence | S-ADAPT/Core/Src/app/app_sensors.c:42-137 | the in-place updates compute one step of the presence engine |
| AppSensors.Track | S-ADAPT/Core/Src/app/app_sensors.c:56-133 | the lit-light branch computes its part of the presence step |
| AppSensors.UpdateStreaks | S-ADAPT/Core/Src/app/app_sensors.c:66-105 | the four streak updates |
| AppSensors.UpdateAwayFlat | S-ADAPT/Core/Src/app/app_sensors.c:66-81 | the away and flat streak updates |
| AppSensors.UpdateMotion | S-ADAPT/Core/Src/app/app_sensors.c:84-97 | the motion streak update |
| AppSensors.UpdateNear | S-ADAPT/Core/Src/app/app_sensors.c:99-105 | the near-reference streak update |
| AppSensors.Decide | S-ADAPT/Core/Src/app/app_sensors.c:107-133 | the reason, candidate and recovery decision |
| AppControl.ClampPercent | S-ADAPT/Core/Src/app/app_control.c:3-13 | the result is in [0, 100] and is the identity on [0, 100] (the same helper as app/app.c:102-112) |
| AppControl.LdrPercent | S-ADAPT/Core/Src/app/app_ui.c:51-58 | min(raw·100/4095, 100): in [0, 100], 0 at raw 0, 100 from raw 4095 |
| AppControl.LdrPercentMonotone | S-ADAPT/Core/Src/app/app_ui.c:51-58 | a brighter reading never gives a smaller percentage |
| AppControl.AutoPercent | S-ADAPT/Core/Src/app/app_control.c:15-24 | 100 − LDR percent, in [0, 100] (the same formula as app/app.c:126-135) |
| AppControl.AutoPercentShape | S-ADAPT/Core/Src/app/app_control.c:15-24 | raw 0 gives 100, raw ≥ 4095 gives 0, and the value is non-increasing in raw |
| AppControl.TargetPercent | S-ADAPT/Core/Src/app/app_control.c:130-137 | clamp(auto + offset), forced to 0 when the light is off or nobody is present |
| AppControl.HysteresisOf | S-ADAPT/Core/Src/app/app_control.c:36-46 | the last applied value is replaced iff the target is 0 or differs from it by at least the band, and then by the target |
| AppControl.HysteresisExamples | S-ADAPT/Core/Src/app/app_control.c:36-46 | with last 50 and band 5: 53 holds 50, 55 adopts 55, 0 adopts 0 |
| AppControl.RampStep | S-ADAPT/Core/Src/app/app_control.c:58-69 | the step is never 0 |
| AppControl.RampStepCases | S-ADAPT/Core/Src/app/app_control.c:58-69 | `step_on` when switching on from 0, `step_off` when switching off to 0, otherwise `step`; a zero step is replaced by 1 |
| AppControl.RampOf | S-ADAPT/Core/Src/app/app_control.c:71-89 | the result lies between current and desired (no overshoot); it moves by exactly the step when the gap is larger and snaps to desired otherwise |
| AppControl.RampConverges | S-ADAPT/Core/Src/app/app_control.c:71-89 | with one fixed step, repeated ramp movements reach the desired value after ⌈gap/step⌉ of them and stay there |
| AppControl.RampRunConverges | S-ADAPT/Core/Src/app/app_control.c:49-89 | calling apply_output_ramp repeatedly towards one value, with the on, off or normal step chosen afresh on each call, reaches that value within \|desired − current\| calls and stays there, whatever the configured steps |
| AppControl.EvaluateState | S-ADAPT/Core/Src/app/app_control.c:91-114 | the status priority: fault > boot window > light off > not present > offset ≠ 0 > auto, each state an iff (the same order as app/app.c:137-160) |
| AppControl.ControlTickDue | S-ADAPT/Core/Src/app/app_control.c:116-124 | due exactly when the period elapsed, and then the tick time advances by exactly the period; otherwise nothing changes |
| AppControl.ApplyHysteresis | S-ADAPT/Core/Src/app/app_control.c:26-47 | the first call seeds with and returns the target; later calls follow the hysteresis rule |
| AppControl.ApplyRamp | S-ADAPT/Core/Src/app/app_control.c:49-89 | the first call seeds with and returns the desired value; later calls take one ramp step |
| AppControl.UpdateOutputControl | S-ADAPT/Core/Src/app/app_control.c:126-143 | auto → target → hysteresis → ramp, every stage ≤ 100, output equals ramped, and a started LED receives the output |
| AppControl.UpdateRgb | S-ADAPT/Core/Src/app/app_control.c:145-150 | the RGB state is the classifier's verdict and is passed to the status LED |
| AppEvents.WrapSettingsU16 | S-ADAPT/Core/Src/app/app_events.c:50-67 | step 0 or max ≤ min falls back to clamping; otherwise the value moves one step, overshooting max wraps to min and undershooting min wraps to max; the result is in [min, max] |
| AppEvents.WrapUndo | S-ADAPT/Core/Src/app/app_events.c:50-67 | one step up then one step down (or the reverse) returns the value when no wrap occurs |
| AppEvents.WrapKeepsGrid | S-ADAPT/Core/Src/app/app_events.c:50-67 | editing a value on its grid keeps it on the grid when the range is a whole number of steps |
| AppEvents.SettingsEqual | S-ADAPT/Core/Src/app/app_events.c:69-95 | field-wise comparison is equality of the six settings |
| AppEvents.ToastUntil | S-ADAPT/Core/Src/app/app_events.c:102-110 | no toast has deadline 0; any other lasts 1500 ms (wrapping) |
| AppEvents.ToggleFlag | S-ADAPT/Core/Src/app/app_events.c:267 | a mode flag toggles between 0 and 1 |
| AppEvents.ToggleFlagTwice | S-ADAPT/Core/Src/app/app_events.c:267-271 | toggling a 0/1 flag twice restores it |
| AppEvents.Direction | S-ADAPT/Core/Src/app/app_events.c:242 | CW is +1, anything else −1 |
| AppEvents.AdjustValue | S-ADAPT/Core/Src/app/app_events.c:143-181 | only the selected row's field changes (a non-numeric row changes nothing), and in-bounds drafts stay in bounds |
| AppEvents.AdjustKeepsInRange | S-ADAPT/Core/Src/app/app_events.c:143-181 | an edited in-range draft stays in range, so a later save accepts it and validation leaves it unchanged |
| AppEvents.NextRow | S-ADAPT/Core/Src/app/app_events.c:183-194 | the row stays in [0, ROW_COUNT): forward is +1 wrapping to 0, backward from 0 goes to ROW_COUNT−1 |
| AppEvents.NextRowInverse | S-ADAPT/Core/Src/app/app_events.c:183-194 | forward then backward (or the reverse) returns to the row |
| AppEvents.RowsAhead | S-ADAPT/Core/Src/app/app_events.c:183-194 | repeated cycling stays among the rows |
| AppEvents.NextRowCycles | S-ADAPT/Core/Src/app/app_events.c:183-194 | n steps move n rows modulo ROW_COUNT; ROW_COUNT steps return to the start |
| AppEvents.RuntimeCleared | S-ADAPT/Core/Src/app/app_events.c:196-207 | all streaks, the reason and the candidate are cleared; presence, reference and previous sample are kept |
| AppEvents.SwitchedOn | S-ADAPT/Core/Src/app/app_events.c:209-228 | switching on: presence 1, reference := fallback with valid, pending and fallback flags set, no previous sample, runtime cleared |
| AppEvents.SwitchOnRecapturesReference | S-ADAPT/Core/Src/app/app_events.c:209-228 | the first valid sample after switching on becomes the reference and the previous sample, with the user still present |
| AppEvents.OnSwitchEvent | S-ADAPT/Core/Src/app/app_events.c:362-388 | SW2 changes nothing; a press records its start; a release clears pressed and the latch, and advances the page mod page_count only when it is not consuming a long press and the menu is closed |
| AppEvents.DrainKeepsMenuPage | S-ADAPT/Core/Src/app/app_events.c:362-388 | draining any events keeps menu mode and page count, keeps the page while the menu is open, and keeps the page in range |
| AppEvents.LongPressAsWritten | S-ADAPT/Core/Src/app/app_events.c:390-399 | as written: a due hold toggles menu mode, but enter/exit clear the latch it just set |
| AppEvents.LongPress | S-ADAPT/Core/Src/app/app_events.c:390-399 | the corrected variant of the finding below, not the code as written: a due hold toggles the menu mode, keeps the page, clears `button_pressed` and leaves the latch set |
| AppEvents.LongPressDiffersOnlyInLatch | S-ADAPT/Core/Src/app/app_events.c:390-399 | the written and the corrected long-press check agree in every field but the latch, and differ in it exactly when a long press is due |
| AppEvents.AsWrittenLatchNeverSet | S-ADAPT/Core/Src/app/app_events.c:368-399 | as written, the long-press latch is never observed set after a pass, so the consume branch at 370-373 is dead |
| AppEvents.LongPressExitPagesAsWritten | S-ADAPT/Core/Src/app/app_events.c:368-399 | as written, releasing a long press that closed the menu advances the page |
| AppEvents.LongPressReleaseConsumed | S-ADAPT/Core/Src/app/app_events.c:368-399 | for the corrected `LongPress`, the release after a long press is consumed: menu toggled once, page unchanged |
| AppEvents.RefreshDirty | S-ADAPT/Core/Src/app/app_events.c:97-100 | dirty iff draft differs from active |
| AppEvents.SetToast | S-ADAPT/Core/Src/app/app_events.c:102-110 | records the toast and its deadline |
| AppEvents.EnterSettingsMode | S-ADAPT/Core/Src/app/app_events.c:112-126 | menu open, draft := active, not dirty, row 0, not editing, toast cleared, overlay closed, redraw marked |
| AppEvents.ExitSettingsModeDiscard | S-ADAPT/Core/Src/app/app_events.c:128-141 | menu closed, the draft is discarded (draft := active, not dirty), row 0, not editing, toast cleared, redraw marked |
| AppEvents.ResetPresenceRuntimeState | S-ADAPT/Core/Src/app/app_events.c:196-207 | presence runtime cleared and the pre-off state zeroed |
| AppEvents.ToggleLightEnabled | S-ADAPT/Core/Src/app/app_events.c:209-232 | the light flag flips; on 0→1 the presence state is switched on (reference re-armed), on 1→0 runtime is cleared; pre-off cleared; fast-on follows the new flag |
| AppEvents.RotateInSettings | S-ADAPT/Core/Src/app/app_events.c:241-253 | while editing, rotation adjusts the selected value and refreshes dirty; otherwise it cycles the row |
| AppEvents.SaveDraft | S-ADAPT/Core/Src/app/app_events.c:280-298 | the validated draft is saved; only an OK save makes it active (and clears dirty) with toast SAVED; any other status leaves the settings unchanged with toast SAVE_ERR |
| AppEvents.ActivateRow | S-ADAPT/Core/Src/app/app_events.c:265-312 | a release on each row: toggle a mode flag, start editing, save, reset the draft to the build defaults with toast RESET, or exit discarding; only the Save row touches flash |
| AppEvents.HandleSettingsEvent | S-ADAPT/Core/Src/app/app_events.c:240-314 | in the menu: rotation edits or cycles; a press does nothing; a release stops editing or activates the row; the row stays in range and `dirty` stays equal to draft ≠ active |
| AppEvents.HandleNormalEvent | S-ADAPT/Core/Src/app/app_events.c:316-354 | outside the menu: rotation moves the offset by ±step (clamped) and opens the overlay only with the light on; a release at least `long_press_ms` after the press (wrapping) zeroes the offset without toggling, a shorter one toggles the light |
| AppEvents.HandleEncoderEvent | S-ADAPT/Core/Src/app/app_events.c:234-355 | NULL changes nothing; in the menu, click, sensors and control are untouched; outside it, the menu and flash are untouched; the offset stays in range and dirty stays consistent |
| AppEvents.ProcessEncoderEvents | S-ADAPT/Core/Src/app/app_events.c:402-413 | one encoder tick, then every queued event is handled until the queue is empty, keeping offset range and dirty consistency |
| AppEvents.ApplySwitchEvent | S-ADAPT/Core/Src/app/app_events.c:368-387 | one pass of the switch loop is one switch-event step |
| AppEvents.DrainSwitchQueue | S-ADAPT/Core/Src/app/app_events.c:362-388 | the loop empties the queue and folds every event, oldest first |
| AppEvents.ProcessSwitchEvents | S-ADAPT/Core/Src/app/app_events.c:357-400 | a switch tick, then the drain, then the long-press check; the menu state ends as `LongPressAsWritten` of the drained state: a due long press toggles the menu with the draft reset and leaves the latch cleared, so the following release pages the display after an exit; otherwise the settings are untouched |
| AppEvents.CheckLongPress | S-ADAPT/Core/Src/app/app_events.c:390-399 | a due long press sets the latch, then enters or exits the menu, whose routines clear it again (`LongPressAsWritten`); otherwise nothing changes |
| AppUi.ModeOf | S-ADAPT/Core/Src/app/app_ui.c:28-37 | OFF when the light is off, else SLEEP when absent, else ON (each an iff) |
| AppUi.ReasonOf | S-ADAPT/Core/Src/app/app_ui.c:39-49 | code 1 → AWAY, 2 → FLAT, anything else → NONE |
| AppUi.ReasonName | S-ADAPT/Core/Src/app/app_ui.c:16-26 | the log string is one of "away", "flat", "none" |
| AppUi.ReasonNameAgrees | S-ADAPT/Core/Src/app/app_ui.c:16-49 | the log string and the display reason agree for every code |
| AppUi.MainBadge | S-ADAPT/Core/Src/app/app_ui.c:60-76 | away streak > 0 → LEAVE; else pre-off → DIM; else candidate or absent → LEAVE; else NONE |
| AppUi.ComposeView | S-ADAPT/Core/Src/app/app_ui.c:78-94 | the view carries mode, reason and badge from the mappings above, LDR percent ≤ 100, presence and reference |
| AppUi.ViewChangedForPage | S-ADAPT/Core/Src/app/app_ui.c:96-140 | page 0 compares only mode, LDR %, output %, offset and badge; other pages only distance, LDR raw, reference, presence and reason |
| AppUi.ChangeSeenOnSomePage | S-ADAPT/Core/Src/app/app_ui.c:96-140 | two views differ iff page 0 or page 1 sees a change |
| AppUi.CommitLeavesNoChange | S-ADAPT/Core/Src/app/app_ui.c:142-182 | right after a commit the dirty check finds nothing to redraw |
| AppUi.ChangeAfterCommit | S-ADAPT/Core/Src/app/app_ui.c:142-171 | without the overlay, a redraw is marked iff the overlay was shown, the page changed, or the page's fields changed |
| AppUi.OverlayExpiryWindow | S-ADAPT/Core/Src/app/app_ui.c:232-236 | the signed wrap compare treats the half-range after the deadline as expired and the half-range before it as pending |
| AppUi.ScreenOf | S-ADAPT/Core/Src/app/app_ui.c:184-200 | the overlay takes the screen when active; otherwise page 0 shows the main page and any other page the sensor page |
| AppUi.Snapshot.constructor | S-ADAPT/Core/Src/app/app_ui.c:173-182 | the snapshot starts invalid |
| AppUi.Snapshot.Commit | S-ADAPT/Core/Src/app/app_ui.c:173-182 | the snapshot becomes the current view, page and overlay, marked valid |
| AppUi.UpdateUiDirtyFromData | S-ADAPT/Core/Src/app/app_ui.c:142-171 | only ever sets `render_dirty`, and sets it iff the data changed since the snapshot |
| AppUi.UpdateOledIfDue | S-ADAPT/Core/Src/app/app_ui.c:222-261 | without a display nothing changes; the overlay expires once now ≥ until; a redraw happens iff the periodic refresh is due or a marked change is not rate-limited, and then clears dirty and commits the snapshot |
| LegacyApp.OnEncoderEvent | S-ADAPT/Core/Src/app/app.c:173-212 | rotation moves the offset ±5 within [−50, 50] only with the light on; a release within a pending click's deadline zeroes the offset and clears pending with no toggle, otherwise it arms pending with deadline = release + 350 |
| LegacyApp.HandleAllKeepsLightAndRange | S-ADAPT/Core/Src/app/app.c:321-327 | handling any events never toggles the light and keeps the offset in range |
| LegacyApp.OnTimeout | S-ADAPT/Core/Src/app/app.c:162-171 | the light toggles iff a click is pending and now ≥ deadline (signed wrap compare), which also clears pending |
| LegacyApp.SingleClickTogglesOnce | S-ADAPT/Core/Src/app/app.c:162-207 | a lone click toggles the light exactly once after 350 ms, and later timeouts change nothing |
| LegacyApp.DoubleClickResetsOffset | S-ADAPT/Core/Src/app/app.c:196-207 | a second release within 350 ms of the first resets the offset without toggling, and no timeout fires in between |
| LegacyApp.Context.constructor | S-ADAPT/Core/Src/app/app.c:220-302 | the initial context: timers at now, presence assumed, offset 0, light off, state BOOT |
| LegacyApp.Context.SetFatalFault | S-ADAPT/Core/Src/app/app.c:214-218 | records the fault flag |
| LegacyApp.Context.HandleClickTimeout | S-ADAPT/Core/Src/app/app.c:162-171 | the click state takes the timeout step |
| LegacyApp.Context.HandleEncoderEvent | S-ADAPT/Core/Src/app/app.c:173-212 | NULL changes nothing; otherwise the click state takes the event step |
| LegacyApp.Context.DrainEncoderEvents | S-ADAPT/Core/Src/app/app.c:321-327 | the queue is emptied and every event handled, oldest first |
| LegacyApp.Context.DrainSwitchEvents | S-ADAPT/Core/Src/app/app.c:313-319 | the switch queue is emptied (the events are only logged) |
| LegacyApp.Context.SampleUltrasonic | S-ADAPT/Core/Src/app/app.c:338-349 | every 100 ms a reading is taken; only one that is not 999 and has status OK updates distance and presence (distance < 80 cm) |
| LegacyApp.Context.UpdateOutputs | S-ADAPT/Core/Src/app/app.c:351-362 | auto percent, output = clamp(auto + offset) forced to 0 when off or absent, and the status priority with a 1000 ms boot window |
| LegacyApp.Context.ControlStep | S-ADAPT/Core/Src/app/app.c:331-362 | nothing happens within 50 ms of the last control tick; otherwise LDR, ultrasonic and outputs are updated as above |
| LegacyApp.Context.ProcessInputs | S-ADAPT/Core/Src/app/app.c:313-329 | both queues are drained; the click state becomes the fold of the encoder events followed by the timeout check, keeping the offset range |
| LegacyApp.Context.Step | S-ADAPT/Core/Src/app/app.c:304-386 | inputs, then the gated control step; the fault flag and boot time are kept |
| ProtoApp.EvaluateState | S-ADAPT/Core/Src/app.c:50-69 | fault > boot window > (light on ∧ absent) NO_USER > (light on ∧ offset > 0) OFFSET_POSITIVE > AUTO, each an iff |
| ProtoApp.TestOverride | S-ADAPT/Core/Src/app.c:71-95 | FAULT passes through; otherwise the state is AUTO, OFFSET, NO_USER, BOOT by ((now − boot)/1000) mod 4 |
| ProtoApp.TestOverrideCycles | S-ADAPT/Core/Src/app.c:71-95 | one second later the test state is the next in the cycle |
| ProtoApp.ApplyReading | S-ADAPT/Core/Src/app.c:149-157 | 999 or a non-OK status leaves distance and presence; otherwise presence = distance < 80 |
| ProtoApp.ReadingsKeepLastValid | S-ADAPT/Core/Src/app.c:149-157 | after any readings, distance and presence come from the last valid one, or are unchanged without one |
| ProtoApp.LogStep | S-ADAPT/Core/Src/app.c:169-173 | logs iff nothing was logged yet or the state differs from the last logged one, which it then records |
| ProtoApp.LogsEveryChangeOnce | S-ADAPT/Core/Src/app.c:169-173 | the first state is logged, then exactly each change |
| ProtoApp.LoggedAfterFirst | S-ADAPT/Core/Src/app.c:169-173 | after the first log, exactly the state changes are logged |
| ProtoApp.Context.constructor | S-ADAPT/Core/Src/app.c:103-135 | timers at boot, presence assumed, nothing logged; a failed display latches the fault |
| ProtoApp.Context.SetFatalFault | S-ADAPT/Core/Src/app.c:97-101 | records the fault flag |
| ProtoApp.Context.Step | S-ADAPT/Core/Src/app.c:137-174 | nothing within 100 ms of the last tick; otherwise the reading is applied, the state evaluated and passed through the test override, and logged on change |

## Left out

- Hardware access is left out: GPIO, ADC, timers, the ultrasonic echo capture, the I2C display and the flash HAL. Their results are inputs: levels, readings with a status, `FlashHal`, `halStartOk`, `displayReady`.
- Interrupt masking around the queues is left out; push and pop are sequential operations, so concurrency between the edge interrupt and the main loop is not modelled.
- Logging is left out: the `debug_logln` calls, `app_log_summary_if_due` and the legacy `last_log_ms` timer.
- OLED rendering is left out. A redraw is reported as the `Screen` it would show, and the legacy `last_oled_ms` distance display is not modelled.
- `s_policy_cfg`, `s_timing_cfg`, `input_has_elapsed_ms`, the `APP_SETTINGS_*_STEP` constants and `app_settings_apply_build_defaults` are not shown in the source, so they are parameters.
- The pre-off dim logic that actually drops presence to "no user" is not part of this model. The engine only raises the candidate and the reason.
- `presence_resume_motion_ms` is never read, and the fast-on flag is set but never consumed by the ramp. Only the flag's value is modelled.
- NULL-pointer guards are left out: `filter_utils.c` (lines 27, 47, 68, 77, 86, 99, 112), `app_settings_defaults`/`app_settings_validate` (app_settings.c:36, 50-52), `settings_are_equal` (app_events.c:71-73), and `app_ui.c` (lines 80, 100-102, 186). Every call site passes the address of a static struct, so those branches cannot be reached.
- NULL arguments of `settings_store_load`/`settings_store_save` (SETTINGS_STORE_NULL_PTR) are left out, and so is a NULL `used_defaults`. The model's load and save always have their arguments.
- `settings_store_reset_defaults` is left out. It is defaults followed by validation, both of which are modelled.
- The flash is modelled as a page of slots, each erased or holding a record. A record is programmed or erased as a whole, so torn writes are not modelled. The byte image under the CRC is modelled field by field (little-endian, with the ARM padding byte).
- The return codes of `app_init` in both app revisions and of the driver init calls are left out; only the state they set up is modelled.
- AppEvents.HandleNormalEvent: the int32 sum `manual_offset ± offset_step` is taken without wrap-around; it cannot overflow for offsets inside their clamp range and any realistic step.
- LegacyApp.Context.Step: states the click state, the control gate and the outputs; the ultrasonic update is stated once, by `LegacyApp.Context.ControlStep`. The status LED and main LED calls it makes are not modelled.
- The flash store's range check divides by the `APP_SETTINGS_*_STEP` constants, so the store's members require them to be nonzero (`StepsNonZero`); a zero step is undefined in C.
- SettingsStore.SaveThenLoad: excludes a page that already holds sequence number 0xFFFFFFFF, whose successor wraps to 0 and would lose to the older record.

## Findings

| source | as written | input that shows it | evidently intended | confidence | as-written member | corrected member |
|---|---|---|---|---|---|---|
| S-ADAPT/Core/Src/bsp/main_led.c:19 | `(arr + 1U) * percent` is computed in 32 bits, so the increment and the product wrap before the division | ARR = 0xFFFFFFFF (a 32-bit timer at full period) and 100 %: compare 0, the light is off at full brightness | compare = min((arr+1)·percent/100, arr) in exact arithmetic, 100 % giving ARR | not executed | MainLed.CompareAsWrittenWrapsAtFullScale | MainLed.CompareBounds |
| S-ADAPT/Core/Src/app/app_events.c:390-399 | the long press sets `long_press_fired = 1`, then `app_enter_settings_mode`/`app_exit_settings_mode_discard` clear it again, so the release-consuming branch at lines 370-373 never runs | a hold of 1000 ms inside the menu on page 0 of 2: the menu closes, and the release then advances the page to 1 | the release that ends a long press is consumed: the menu toggles and the page stays | not executed | AppEvents.LongPressExitPagesAsWritten | AppEvents.LongPressReleaseConsumed |
