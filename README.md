# OPlus brightness adaptor: a Dafny model of its core

The adaptor is a small Android daemon for Transsion devices running an
OPlus-style system image. The system reports screen brightness on a logical
scale (a `debug.tracing.screen_brightness` property, or an OPlus panel file)
that does not match the panel's hardware range; the daemon polls that value
and the screen state, maps the value onto the hardware range with a
perceptual curve, a linear map or a custom curve, and writes the result into
the kernel's backlight file, blanking the panel when the screen leaves the
on state and handling always-on-display (AOD) states.

This project models, in Dafny, the integer core of the daemon:

- `Scaling` (`scaling.dfy`): the curved scaler of `src/bin/scaling.rs` and
  its legacy twin `sb` in `src/bin/xia.displayadaptor.rs` (one table-driven
  definition, `ScaleByTable`, instantiated with each file's coefficients),
  and the linear scaler with its `i64` intermediate.
- `Range` (`range.dfy`): the logical-range calibrator `BrightnessRange` of
  `src/bin/range.rs` (and its copy `IR` in the legacy binary), as a pure
  transition `Refresh` plus a class whose methods are proved against it.
- `Writer` (`writer.dfy`): `write_brightness` (and `wb`): the
  skip-if-unchanged rule, the NUL-terminated decimal bytes, and the rule that
  `last_val` only advances when the write succeeds.
- `Properties` (`properties.dfy`): the property store behind `get_prop`,
  `get_prop_int` and `set_prop`, as a map from an enumerated key to its
  string value, with every `set_prop` call logged.
- `State` (`state.dfy`): `get_prop_brightness` and `get_screen_state` (and
  the legacy `gb`/`gs`).
- `Utils` (`utils.dfy`): `read_file_int` and the cached hardware bounds
  `get_max_brightness` / `get_min_brightness`.
- `Modes` (`modes.dfy`): the mode flags, the default loop (startup, the
  per-iteration decision table for on, off, doze and lux-AOD states, and the
  change guard) and the DisplayPanel loop with its quarter-step ramp; each
  loop is a class whose `Start` constructor and `Tick` method are proved
  against pure functions (`DefaultStartup`, `DefaultTick`, `PanelStartup`,
  `PanelTick`) that the lemmas reason about.
- `Legacy` (`legacy.dfy`): the two loops of `src/bin/xia.displayadaptor.rs`
  (legacy mode and the old OPlus panel mode) in the same style.
- `Decimal` and `Base` (`decimal.dfy`, `base.dfy`): the Rust library
  behaviour the core depends on (`to_string`, `parse::<i32>`, `trim`,
  `split('.')`, `take_while(is_digit)`, truncating `/`, `clamp`) and the
  constants of `src/constants.rs`.

Everything the daemon reads from the outside world is a parameter: file
contents are `Option<string>` (`None` when the read fails), the property
store is a `PropertyStore` object, the result of the `write(2)` system call
is an integer (negative on failure), the panoramic-AOD check is a boolean,
and the floating-point curves of `src/scaling.rs` are a `Curves` value of
three functions. One poll of a loop is one `Tick` call.

Facts about the scaling and the loops that the model makes explicit:

- The perceptual curve's middle segment is `57 + 197 * (percent - 70) / 20`
  and its last is `254 + 257 * (percent - 90) / 10`, so percent 71 gives 66
  and percent 91 gives 279. The percent of an interior value is at most 99,
  so the `_ => 511` arm is unreachable; the input maximum itself is mapped
  straight to `hw_max` before the table.
- With the default range 222..8191 and hardware 1..511, the value 4099 gives
  percent 48, internal 39 and hardware 39.
- `refresh_range` runs once at startup (`src/modes.rs:155-156`), so the
  logical range is fixed for the life of the loop.

Facts the proofs bring out about the code as written (they are modelled as
written, not corrected):

- `get_prop_brightness` returns -1 both for a reported brightness of 0 and
  for a reported `-1`; the default loop treats both as "keep the previous
  brightness" (`State.PropBrightness`, `Modes.CurrentBrightness`).
- The default and legacy loops only try to write when the screen state or
  the brightness changed, so a write that fails is not retried until one of
  them changes again (`Modes.RepeatedSnapshotIsIgnored`,
  `Legacy.LegacyRepeatedSnapshotIsIgnored`); the old panel loop retries on
  every poll (`Legacy.OldPanelRetriesUntilWritten`).
- The ramp's overshoot guard (`src/modes.rs:120-122`) never fires: a quarter
  step, or a unit step, never passes the target (`Modes.RampGuardIsRedundant`).

## Model

| member | source | states |
|---|---|---|
| Decimal.IntToStringParses | src/bin/writer.rs:12 | the decimal text `to_string` prints for any `i32` parses back with `parse::<i32>` to the same value |
| Decimal.IntToString | src/bin/range.rs:31 | `to_string` of an integer: a minus sign exactly when it is negative, then decimal digits with no leading zero except for 0 itself |
| Decimal.ParseI32 | src/bin/properties.rs:16 | `parse::<i32>` accepts exactly an optional `+` or `-` followed by a non-empty run of ASCII digits whose signed value fits an `i32`, and returns that value |
| Decimal.BeforeDot | src/state.rs:18 | the text before the first dot is a dot-free prefix followed by a dot or by the end of the input |
| Decimal.DigitPrefix | src/utils.rs:36-39 | the kept prefix is all ASCII digits and is followed by a non-digit or by the end of the input |
| Decimal.Trim | src/utils.rs:36 | the trimmed text is the slice of the input that starts right after its leading whitespace and is followed only by whitespace, and neither of its ends is whitespace |
| Decimal.LeadingWhitespace | src/utils.rs:36 | the offset `trim` starts at: everything before it is whitespace and the character at it, if any, is not |
| Decimal.ParseDigits | src/utils.rs:40 | a run of ASCII digits parses with `parse::<i32>` exactly when it is non-empty and its value fits an `i32`, and then to that value |
| Properties.GetProp | src/bin/properties.rs:6-15 | a property reads as `Some` exactly when it is set to a non-empty value, and then reads as that value |
| Properties.GetPropInt | src/bin/properties.rs:16 | an integer property reads as the `parse::<i32>` of its value when it is set and non-empty, and as `None` otherwise |
| Properties.ApplyAppend | src/bin/properties.rs:17-21 | two batches of `set_prop` calls applied one after the other give the same store as the batches applied together |
| Properties.SetIntReadsBack | src/bin/properties.rs:16-21 | an `i32` stored with `set_prop(k, n.to_string())` reads back through `get_prop_int(k)` as `n` |
| Properties.PropertyStore.Set | src/bin/properties.rs:17-21 | the key now holds the value, every other key is unchanged, and the call is appended to the log |
| Scaling.ScaleByTable | src/bin/scaling.rs:2-16 | for a degenerate hardware range the result is `max(hw_min, 0)`; otherwise it lies in `[hw_min, hw_max]`, is `hw_max` at or above the input maximum, `hw_min` at or below the input minimum, and below `hw_max` in between |
| Scaling.Internal | src/bin/scaling.rs:9-14 | the table's segments climb from 1 to the middle base, from there to 254 and from there to 511; a percent outside 0..100 gives 511 |
| Scaling.ScaleCurved | src/bin/scaling.rs:2-16 | the bounds and endpoint behaviour of `ScaleByTable` for the perceptual table 56/57/197 |
| Scaling.ScaleSb | src/bin/xia.displayadaptor.rs:97-111 | the same bounds and endpoints for the legacy table 149/150/104 |
| Scaling.ScaleLinear | src/bin/scaling.rs:18-23 | a degenerate input or hardware range gives `max(hw_min, 0)`; otherwise the result is in `[hw_min, hw_max]`, maps the clamped input endpoints to the hardware endpoints, and is the floor of the proportional value (`sb_linear`, src/bin/xia.displayadaptor.rs:113-118, is the same function) |
| Scaling.PerceptualTablePoints | src/bin/scaling.rs:9-14 | the internal scale at percents 0, 70, 71, 90, 91 and 99 is 1, 57, 66, 254, 279 and 485 |
| Scaling.LegacyTablePoints | src/bin/xia.displayadaptor.rs:104-109 | the legacy internal scale at percents 0, 70, 90 and 99 is 1, 150, 254 and 485 |
| Scaling.CurvedDefaultRangeExamples | src/bin/scaling.rs:2-16 | with hardware 1..511 and input 222..8191, inputs 222, 4099 and 8191 map to 1, 39 and 511 |
| Scaling.InternalMonotone | src/bin/scaling.rs:9-14 | the internal scale never decreases as the percent grows, for any table whose segments join |
| Scaling.InteriorMonotone | src/bin/scaling.rs:8-15 | between the input endpoints the scaled value never decreases as the input grows |
| Scaling.ScaleByTableMonotone | src/bin/scaling.rs:2-16 | the curved scaler is monotone in its input over the whole domain |
| Scaling.ScaleLinearMonotone | src/bin/scaling.rs:18-23 | the linear scaler is monotone in its input |
| Scaling.LinearProductFitsI64 | src/bin/scaling.rs:21-22 | the widened product fits an `i64` and the result fits an `i32` whenever the inputs are `i32` values with the difference operands representable |
| Scaling.LinearQuotient | src/bin/scaling.rs:21 | the proportional quotient lies in `[0, h]`, is the floor of `x*h/w`, and is 0 at `x = 0` and `h` at `x = w` |
| Scaling.PercentRange | src/bin/scaling.rs:8 | the percent of a value strictly inside the input range is between 0 and 99 |
| Scaling.InternalRange | src/bin/scaling.rs:9-14 | for percents 0..99 the internal scale is between 1 and 485, so the 511 arm is never reached |
| Scaling.InteriorBelowMax | src/bin/scaling.rs:8-15 | a value strictly inside the input range maps strictly below `hw_max` |
| Range.InitRange | src/bin/range.rs:11-18 | a fresh range is unlocked with `min < max`: the persisted pair when both are set and ordered, else 222..8191 |
| Range.Refresh | src/bin/range.rs:20-42 | a locked range is left alone with no writes; an unlocked one keeps `min < max`, writes only the persisted keys and only when it locks, and locks only on a valid live pair; the legacy binary's `IR::rf` (src/bin/xia.displayadaptor.rs:137-159) is the same transition |
| Range.WriteThrough | src/bin/range.rs:31-32 | the persisted minimum is written first and the maximum second, each exactly when it does not already hold the live value |
| Range.RefreshLocksOnLivePair | src/bin/range.rs:27-34 | a valid live pair is adopted, locks the range, and is written to the persisted keys that differ from it |
| Range.WriteThroughIn | src/bin/range.rs:31-32 | the store's properties and log become those the two conditional persisted writes leave |
| Range.WriteThroughReadsBack | src/bin/range.rs:31-32 | after the conditional writes, both persisted keys read back as the adopted live pair, whether or not a write was needed |
| Range.RefreshLocksExactlyOnLivePair | src/bin/range.rs:27-41 | from an unlocked ordered range, the refresh locks if and only if the live pair is present and ordered |
| Range.RefreshIgnoresPersistedOnBadLivePair | src/bin/range.rs:27-36 | a live pair that is present but not ordered leaves the range unchanged and writes nothing, whatever the persisted pair is |
| Range.RefreshWithoutLivePair | src/bin/range.rs:35-40 | without a live pair the range stays unlocked and writes nothing; it takes the persisted pair when that is ordered, keeps its old bounds when both persisted values are set but unordered, and falls back to 222..8191 when one is missing |
| Range.LockIsPermanent | src/bin/range.rs:21 | once locked, any number of further refreshes leave the range as it is |
| Range.RefreshAllSettles | src/bin/range.rs:20-42 | after any sequence of refreshes `min < max` still holds, and the range is locked once it started locked or some snapshot held a valid live pair |
| Range.LockedRangeSurvivesRestart | src/bin/range.rs:11-42 | after a lock, a restarted daemon initialises from the persisted pair to the same `min`/`max` |
| Range.BrightnessRange.Init | src/bin/range.rs:11-18 | the new object's state is `InitRange` of the store |
| Range.BrightnessRange.RefreshRange | src/bin/range.rs:20-42 | the new state and the store's new contents and log are those `Refresh` computes from the old ones |
| Writer.WireBytes | src/bin/writer.rs:12-14 | the bytes written are the decimal text of the value followed by a single NUL, with no NUL inside |
| Writer.WireBytesRoundTrip | src/bin/writer.rs:12-14 | the bytes written, read back as text and parsed, give the value again |
| Writer.WriteStep | src/bin/writer.rs:6-22 | an unchanged value is not written; a changed one is written once; `last_val` becomes the value exactly when it was unchanged or the write succeeded; the legacy binary's `wb` (src/bin/xia.displayadaptor.rs:270-286) is the same step |
| Writer.WriteTwiceWritesOnce | src/bin/writer.rs:7-21 | after a successful write, writing the same value again sends nothing |
| Writer.FailedWriteIsRetried | src/bin/writer.rs:17-21 | after a failed write, writing the same value again sends it again |
| Writer.BrightnessWriter.constructor | src/modes.rs:88 | a new writer has `last_val = -1` and has sent nothing |
| Writer.BrightnessWriter.Write | src/bin/writer.rs:6-22 | `last_val` and the sent bytes advance as `WriteStep` says |
| State.IntegerPart | src/state.rs:17-18 | the brightness property's integer part is the `i32` parse of its text before the first dot when the property is set and non-empty, and `None` otherwise |
| State.PropBrightness | src/state.rs:6-25 | the result is never 0: an integer part of 0 gives -1, a missing or unparseable one gives 222, any other is returned as is |
| State.ScreenState | src/state.rs:28-36 | the screen-state property's value when it parses as an `i32`, else 2 (on); the legacy binary's `gs` (src/bin/xia.displayadaptor.rs:94) is the same function |
| State.LegacyPropBrightness | src/bin/xia.displayadaptor.rs:88-92 | the integer part when present (0 included), else 222 |
| State.PropBrightnessVersusLegacy | src/state.rs:19-23 | the current reader differs from the legacy one only by mapping 0 to -1 |
| State.PropBrightnessDropsFraction | src/state.rs:17-21 | "2937.773" reads as 2937 |
| State.PropBrightnessZeroIsSentinel | src/state.rs:17-20 | "0.5" reads as the skip sentinel -1 |
| State.PropBrightnessFallbacks | src/state.rs:17-22 | ".5", "abc" and an unset property read as 222 |
| Utils.ReadFileInt | src/utils.rs:33-44 | a file reads as `Some(n)` exactly when its trimmed text starts with a digit, and `n` is the value of that leading digit run, which must fit an `i32` |
| Utils.ReadFileIntDigitsThenText | src/utils.rs:36-40 | "123abc" reads as 123 |
| Utils.ReadFileIntRejectsText | src/utils.rs:36-40 | "abc" reads as nothing |
| Utils.ReadFileIntRejectsSign | src/utils.rs:33-43 | "-5" and an unreadable file read as nothing |
| Utils.MaxBrightness | src/utils.rs:47-71 | a positive custom maximum wins with no write; otherwise the cached value with no write; otherwise the file's value, cached with one `set_prop`; otherwise 511 with no write |
| Utils.MinBrightness | src/utils.rs:73-94 | the cached minimum wins with no write; otherwise the file's value (0 replaced by 1) is cached, or 1 when the file is unreadable |
| Utils.MaxBrightnessStable | src/utils.rs:55-64 | asking again after the cache write gives the same maximum and writes nothing more |
| Utils.MinBrightnessStable | src/utils.rs:74-87 | asking again after the cache write gives the same minimum and writes nothing more |
| Utils.GetMaxBrightness | src/utils.rs:47-71 | returns `MaxBrightness` of the old store and applies and logs its writes |
| Utils.GetMinBrightness | src/utils.rs:73-94 | returns `MinBrightness` of the old store and applies and logs its writes |
| Modes.IsPanelMode | src/modes.rs:26-28 | panel mode is on exactly when the support property is the text "true" (the dispatcher of src/modes.rs:45-51 and src/bin/xia.displayadaptor.rs:163-169 branches on it) |
| Modes.IsIpsMode | src/modes.rs:32-34 | IPS mode is on exactly when the display-type property is "IPS" |
| Modes.IsLuxAodMode | src/modes.rs:35-37 | lux AOD is on exactly when its property is "true" |
| Modes.CurrentMode | src/modes.rs:40-42 | linear exactly when the mode property parses as 1, custom exactly when it parses as 2, curved otherwise |
| Modes.Scale | src/modes.rs:174-178 | the mode picks the curve: 1 the linear one, 2 the custom one, any other the curved one |
| Modes.LookupHw | src/modes.rs:152-153 | the bounds are those of `MinBrightness` and of `MaxBrightness` on the original store, and the writes are the minimum's followed by the maximum's |
| Modes.MaxIgnoresMinCache | src/modes.rs:152-153 | caching the minimum first does not change what the maximum lookup returns or writes |
| Modes.MinSetsKeepOtherKeys | src/utils.rs:86 | caching the minimum changes no property but the cached minimum |
| Modes.HwSetsKeepRangeKeys | src/modes.rs:152-156 | the hardware lookups leave the range and panel properties as they were |
| Modes.LookupHwIn | src/modes.rs:152-153 | returns `LookupHw` of the old store and applies and logs its writes |
| Modes.MaxBrightnessReadsTwoKeys | src/utils.rs:47-64 | the maximum looked up depends on the store only through the custom device maximum and the cached hardware maximum |
| Modes.HwSetsKeepKey | src/modes.rs:152-153 | the hardware lookups leave every key other than the two cached bounds reading as before |
| Modes.StartupLocksOnLivePair | src/modes.rs:152-156 | after the hardware lookups, the startup refresh locks exactly when the original store held a valid live pair |
| Modes.CalibrateRange | src/modes.rs:155-156 | the new range's state is one `Refresh` of `InitRange`, with the store updated as `Refresh` says |
| Modes.DefaultStartup | src/modes.rs:150-156 | hardware bounds from the lookups, a logical range with `min < max` that is locked exactly when the original store held a valid live pair, and the store and log those calls leave |
| Modes.DefaultSetupIn | src/modes.rs:150-156 | the store and log end as `DefaultStartup` says and the returned bounds are its bounds |
| Modes.Decide | src/modes.rs:197-267 | screen on gives the scaled value; IPS off-states and off states give 0; doze with lux AOD gives the lux brightness (1 when unset) or keeps the display lit when panoramic AOD is on; other states give 0 just after leaving on and otherwise repeat the last value |
| Modes.Decision | src/modes.rs:197-267 | for a snapshot: screen on gives the current brightness through the mode's curve; IPS or off states give 0; an unrecognised state not just after leaving on keeps the last value |
| Modes.PanoramicKeepsDisplayLit | src/modes.rs:214-253 | with panoramic AOD on and not IPS, doze states never blank the panel |
| Modes.LeavingOnBlanks | src/modes.rs:204-262 | leaving the on state blanks the panel unless the screen enters doze with lux AOD |
| Modes.BrightnessIgnoredWhileOff | src/modes.rs:197-267 | away from the on state (and from the lux-AOD doze branch) the decision does not depend on the scaled brightness |
| Modes.CurrentBrightness | src/modes.rs:186-192 | the sentinel -1 keeps the previous brightness; any other reading is used, and is never 0 |
| Modes.DefaultTick | src/modes.rs:184-276 | the previous state and brightness are updated on every poll; nothing is written when neither changed; otherwise the decision goes through `WriteStep` |
| Modes.RepeatedSnapshotIsIgnored | src/modes.rs:196-275 | a second poll of the same snapshot writes nothing and changes no state, whatever the first write returned |
| Modes.ScreenOnShowsScaledBrightness | src/modes.rs:197-203 | turning the screen on writes the scaled brightness |
| Modes.ScreenOffBlanks | src/modes.rs:254-262 | turning the screen off from on (outside the lux-AOD doze branch) writes 0 |
| Modes.StartBrightness | src/modes.rs:168-172 | the start brightness is the reading, or 222 in place of the sentinel -1; it is never -1 or 0 |
| Modes.DefaultBegin | src/modes.rs:166-179 | the loop starts from the current screen state and start brightness; the scaled value goes through `WriteStep` from `last_val` -1, so it is written once unless it is -1, and `last_val` stays -1 when the write fails |
| Modes.DefaultBeginIn | src/modes.rs:166-179 | the writer and loop state it creates are those `DefaultBegin` describes: first value written once, same screen state and brightness |
| Modes.DefaultLoop.Start | src/modes.rs:138-182 | bounds, range and store as `DefaultStartup` says; state and first write as `DefaultBegin` says, on a fresh writer |
| Modes.DefaultLoop.Tick | src/modes.rs:184-276 | the loop's state and the writer advance as `DefaultTick` says |
| Modes.RampDelta | src/modes.rs:112-116 | the step has the sign of the difference, is at least one unit, and is the truncated quarter once the difference is 4 or more |
| Base.QuarterTowardZero | src/modes.rs:113 | `diff / 4` truncates toward zero: for a non-negative difference the quotient times 4 is at most it and within 3, for a negative one at least it and within 3, never positive |
| Modes.RampStep | src/modes.rs:111-122 | a step never passes the target, always gets strictly closer, and lands on it exactly when the distance is at most 1 |
| Modes.RampToward | src/modes.rs:111-122 | the value the loop's stepping code yields is `RampStep`, so it never passes the target and always gets strictly closer |
| Modes.RampGuardIsRedundant | src/modes.rs:120-122 | the overshoot guard never changes the stepped value |
| Modes.RampReachesTarget | src/modes.rs:111-125 | as many steps as the distance always reach the target |
| Modes.PanelTick | src/modes.rs:93-131 | the current value is re-read from the brightness file; a missing panel value changes nothing; a zero one sets 0 and, unless the current value was already 0, sends 0 through `WriteStep`; any other sends `RampStep` toward the scaled target through `WriteStep`, and does nothing at the target |
| Modes.PanelSettles | src/modes.rs:93-134 | with a fixed panel value, as many polls as the distance bring the current value to the scaled target |
| Modes.PanelStartup | src/modes.rs:74-78 | hardware bounds from the lookups and input range from the panel properties, 22..5118 by default |
| Modes.PanelLoop.Start | src/modes.rs:74-91 | bounds and store as `PanelStartup` says; the current value is the brightness file's, else `hw_min`, and is written once |
| Modes.PanelLoop.Tick | src/modes.rs:93-134 | the current value and the writer advance as `PanelTick` says |
| Legacy.ReadWhole | src/bin/xia.displayadaptor.rs:78 | a file reads as the `i32` parse of its whole trimmed text |
| Legacy.ReadWholeRejectsTrailingText | src/bin/xia.displayadaptor.rs:78 | "123abc" reads as nothing, unlike `read_file_int` |
| Legacy.ReadWholeAcceptsSign | src/bin/xia.displayadaptor.rs:78 | "-5" reads as -5, unlike `read_file_int` |
| Legacy.LegacyHw | src/bin/xia.displayadaptor.rs:224-225 | the hardware bounds are the files' values, 1 and 511 when unreadable |
| Legacy.LegacyDecide | src/bin/xia.displayadaptor.rs:249-256 | leaving on gives 0, on gives the scaled value, anything else repeats the last value |
| Legacy.LegacyTick | src/bin/xia.displayadaptor.rs:244-266 | the previous state and brightness are updated on every poll; nothing is written when neither changed; otherwise the decision goes through `WriteStep` |
| Legacy.LegacyScreenOffBlanks | src/bin/xia.displayadaptor.rs:249-250 | turning the screen off from on writes 0 |
| Legacy.LegacyOnStaysInHwRange | src/bin/xia.displayadaptor.rs:251-253 | with the screen on, a changed brightness is written within the hardware range |
| Legacy.LegacyRepeatedSnapshotIsIgnored | src/bin/xia.displayadaptor.rs:248-264 | a second poll of the same snapshot writes nothing and changes no state |
| Legacy.LegacyBegin | src/bin/xia.displayadaptor.rs:238-242 | the loop starts from the current state and brightness; the legacy-scaled value goes through `WriteStep` from `last_val` -1, so it is written once unless it is -1, and `last_val` stays -1 when the write fails |
| Legacy.LegacyLoop.Start | src/bin/xia.displayadaptor.rs:218-242 | hardware bounds from the files, logical range from one refresh, state and first write as `LegacyBegin` says |
| Legacy.LegacyLoop.Tick | src/bin/xia.displayadaptor.rs:244-266 | the loop's state and the writer advance as `LegacyTick` says |
| Legacy.OldPanelDecide | src/bin/xia.displayadaptor.rs:195-206 | off gives 0; on gives the linear-scaled panel value, or the last value when the panel file is unreadable |
| Legacy.OldPanelTick | src/bin/xia.displayadaptor.rs:194-210 | each poll sends the decision through `WriteStep` |
| Legacy.OldPanelRetriesUntilWritten | src/bin/xia.displayadaptor.rs:193-214 | after a failed write, the next poll of the same snapshot sends the value again |
| Legacy.OldPanelBounds | src/bin/xia.displayadaptor.rs:176-180 | hardware bounds from the files and input range from the panel properties, 22..5118 by default |
| Legacy.OldPanelLoop.Start | src/bin/xia.displayadaptor.rs:172-190 | bounds as `OldPanelBounds` says, on a fresh writer that has sent nothing |
| Legacy.OldPanelLoop.Tick | src/bin/xia.displayadaptor.rs:193-214 | the writer advances as `OldPanelTick` says |

## Left out

- The floating-point curves of `src/scaling.rs` (linear, custom and curved for the
  default and panel loops) are taken as a `Curves` parameter; only the integer
  scalers of `src/bin/scaling.rs` and the legacy binary are modelled.
- The float brightness path (`is_float_mode`, src/modes.rs:29-31; src/state.rs:7-16;
  src/bin/xia.displayadaptor.rs:80-87) is not modelled: the loops are modelled with
  `is_float` false.
- `is_panoramic_aod_enabled` (src/utils.rs:7-30) reads framework settings through
  a shell command; its answer is a boolean input.
- File reads are `Option<string>` inputs and the `write(2)` result is an integer
  input; failures to open the brightness file (which end a loop before it starts)
  and the panel-file creation loop of src/modes.rs:58-73 are not modelled.
- Sleeps, the 33 ms and 100 ms poll intervals and the endless loops: one `Tick`
  is one poll.
- Debug logging (`dbg_on` and every log call) has no effect on the brightness and
  is left out.
- The property FFI: the 92-byte value buffer, lossy UTF-8 conversion and the
  result of `__system_property_set` (every `set_prop` is assumed to take effect).
  Keys are an enumeration; the lux-AOD brightness key's name is not part of this
  model.
- Each poll reads the properties from one snapshot; a property changing between
  two reads within one poll is not modelled.
- Scaling.ScaleByTable: requires every `i32` intermediate to be in range
  (`CurvedDefined`) instead of modelling wrap-around.
- Scaling.ScaleCurved: requires its `i32` intermediates to be in range instead of
  modelling wrap-around.
- Scaling.ScaleSb: requires its `i32` intermediates to be in range instead of
  modelling wrap-around.
- Scaling.ScaleLinear: requires its `i32` differences to be in range
  (`LinearDefined`) instead of modelling wrap-around.
- Legacy.LegacyTick: requires the legacy scaler to be defined on the snapshot
  (`LegacyScalable`), so wrap-around on extreme property values is not modelled.
- Legacy.OldPanelDecide: requires the linear scaler to be defined on the panel
  value (`PanelScalable`), so wrap-around is not modelled.
- Modes.RampStep: uses unbounded integers, so `i32` overflow of
  `target_val - current_val` and of `current_val + step` is not modelled.
- Modes.PanelSettles: assumes the brightness file is unreadable during the run,
  so the current value is only changed by the ramp itself.
- Legacy.OldPanelLoop.Tick: the loop's `prev_state` only chooses an extra sleep,
  so it is not kept.
