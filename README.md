# Study Focus App — verified model of the timer, settings and classifier core

The app is a Pomodoro focus timer for Android. A FOCUS session counts down.
Picking the phone up during FOCUS pauses it. A finished FOCUS session starts
a BREAK, and a finished BREAK returns to an idle FOCUS session. The session
lengths are stored as minutes in a two-key preference store. A settings
screen edits them through a forgiving integer parser. The app also carries a
TensorFlow Lite classifier that turns 39 accelerometer features into a
"stationary" / "pick_up" label.

This project models that core in Dafny:

- `java_lang.dfy` (`JavaLang`) holds the Java library behaviour the core
  relies on:
  - 32-bit `int`;
  - `long` division and remainder, which round toward zero;
  - the `(int)` cast;
  - `Math.max` and `Math.round(float)`;
  - `String.trim`;
  - `Integer.parseInt` in radix 10;
  - `Integer.toString`.
- `prefs.dfy` (`Prefs`) is the preference store, a class holding a map that
  the setters update in place.
- `settings.dfy` (`Settings`) holds `parseIntOrDefault` and the settings
  screen, with its Save, Cancel and back handlers.
- `pomodoro.dfy` (`Pomodoro`) is the main screen's state machine, a class
  whose methods are the button, countdown, sensor and resume events. Its
  invariant `Valid()` is kept by every event:
  - durations lie in range;
  - a running timer belongs to a started session;
  - an unstarted session is a full FOCUS session;
  - the button label matches the state.
- `quantization.dfy` (`Quantization`) holds affine quantization of inputs,
  byte narrowing and dequantization of outputs, and the input buffer as a
  function of the tensor description and the features.
- `classifier.dfy` (`Classifier`) is the TFLite adapter:
  - the feature-count check;
  - buffer building and inference, as methods proved equal to the
    specification functions;
  - the lowest-index arg-max;
  - the label fallback.

## Model

| member | source | states |
|---|---|---|
| JavaLang.Max | App/study111/app/src/main/java/com/example/study111/Prefs.java:29 | `Math.max`: the result is at least both arguments and is one of them |
| JavaLang.Quot | App/study111/app/src/main/java/com/example/study111/MainActivity.java:358-360 | `long` division by a positive divisor rounds toward zero, for negative dividends too |
| JavaLang.Rem | App/study111/app/src/main/java/com/example/study111/MainActivity.java:360 | `%` is the remainder of the truncating quotient; it takes the dividend's sign and is smaller than the divisor in magnitude |
| JavaLang.WrapInt | App/study111/app/src/main/java/com/example/study111/MainActivity.java:359-360 | the `(int)` cast is congruent to its argument modulo 2^32 and is the identity on values that fit |
| JavaLang.JavaRound | App/study111/app/src/main/java/com/example/study111/TFLiteClassifier.java:263 | `Math.round` gives the nearest integer, with halves rounded up, and saturates at both ends of the `int` range |
| JavaLang.JavaRoundMonotone | App/study111/app/src/main/java/com/example/study111/TFLiteClassifier.java:263 | rounding keeps order |
| JavaLang.NatToDigits | App/study111/app/src/main/java/com/example/study111/SettingsActivity.java:37-38 | the decimal digits of `n` are non-empty and denote `n`, with no leading zero |
| JavaLang.AccumulateDigitsCorrect | App/study111/app/src/main/java/com/example/study111/SettingsActivity.java:64 | the digit loop of `parseInt` yields the digits' value exactly when every character is a digit and the value does not pass the limit |
| JavaLang.ParseInt | App/study111/app/src/main/java/com/example/study111/SettingsActivity.java:64 | every value `Integer.parseInt` returns is the value of a signed decimal literal |
| JavaLang.ParseIntCorrect | App/study111/app/src/main/java/com/example/study111/SettingsActivity.java:63-67 | `parseInt` succeeds iff the text is an optionally signed decimal literal whose value fits in 32 bits, and then returns that value |
| JavaLang.ParseIntToDecimal | App/study111/app/src/main/java/com/example/study111/SettingsActivity.java:37-38 | `parseInt(String.valueOf(n)) == n` for every `int` |
| JavaLang.TrimLeading | App/study111/app/src/main/java/com/example/study111/SettingsActivity.java:64 | the result is a suffix that starts with a non-space, and everything removed is at or below U+0020 |
| JavaLang.TrimTrailing | App/study111/app/src/main/java/com/example/study111/SettingsActivity.java:64 | the result is a prefix that ends with a non-space, and everything removed is at or below U+0020 |
| JavaLang.Trim | App/study111/app/src/main/java/com/example/study111/SettingsActivity.java:64 | `trim` returns the slice of the text between a leading and a trailing run of characters at or below U+0020; the result neither starts nor ends with such a character |
| JavaLang.ToDecimal | App/study111/app/src/main/java/com/example/study111/SettingsActivity.java:37-38 | `String.valueOf(n)`: a `-` for negative values, then the digits of the magnitude; `parseInt` reads it back (`ParseIntToDecimal`) |
| JavaLang.AccumulateDigits | App/study111/app/src/main/java/com/example/study111/SettingsActivity.java:64 | the digit loop of `parseInt` never returns a magnitude above its limit |
| JavaLang.TrimPadded | App/study111/app/src/main/java/com/example/study111/SettingsActivity.java:64 | `trim` removes exactly the padding around a core that neither starts nor ends with a space |
| Prefs.GetInt | App/study111/app/src/main/java/com/example/study111/Prefs.java:21-25 | `getInt(key, def)`: the stored value when the key is present, else the default |
| Prefs.PrefStore.constructor | App/study111/app/src/main/java/com/example/study111/Prefs.java:16-18 | a store with nothing written is empty and satisfies the invariant (every stored minutes value is at least 1) |
| Prefs.PrefStore.GetFocusMin | App/study111/app/src/main/java/com/example/study111/Prefs.java:20-22 | with no stored value the focus length is 25; under the invariant it is at least 1 |
| Prefs.PrefStore.GetBreakMin | App/study111/app/src/main/java/com/example/study111/Prefs.java:24-26 | with no stored value the break length is 5; under the invariant it is at least 1 |
| Prefs.PrefStore.SetFocusMin | App/study111/app/src/main/java/com/example/study111/Prefs.java:28-30 | stores `max(1, min)` under the focus key only and keeps the invariant; a value of at least 1 reads back unchanged; the break length is untouched |
| Prefs.PrefStore.SetBreakMin | App/study111/app/src/main/java/com/example/study111/Prefs.java:32-34 | stores `max(1, min)` under the break key only and keeps the invariant; a value of at least 1 reads back unchanged; the focus length is untouched |
| Settings.ParseIntOrDefault | App/study111/app/src/main/java/com/example/study111/SettingsActivity.java:61-68 | empty text gives the default; any other result is either the default or the value of the trimmed text read as a decimal literal |
| Settings.ParseIntOrDefaultAccepts | App/study111/app/src/main/java/com/example/study111/SettingsActivity.java:64 | an optionally signed literal that fits in 32 bits parses to its value, whatever whitespace surrounds it |
| Settings.ParseIntOrDefaultRejects | App/study111/app/src/main/java/com/example/study111/SettingsActivity.java:63-67 | any text `parseInt` rejects after trimming gives the default instead of failing |
| Settings.WhitespaceGivesDefault | App/study111/app/src/main/java/com/example/study111/SettingsActivity.java:62-66 | text made only of characters at or below U+0020 gives the default |
| Settings.ParseIntOrDefaultOfValueOf | App/study111/app/src/main/java/com/example/study111/SettingsActivity.java:37-38 | the preloaded text `String.valueOf(n)` parses back to `n` |
| Settings.UneditedSaveKeepsValue | App/study111/app/src/main/java/com/example/study111/SettingsActivity.java:35-50 | saving a stored value without editing it writes back the same value |
| Settings.SettingsScreen.constructor | App/study111/app/src/main/java/com/example/study111/SettingsActivity.java:35-38 | both fields start as the decimal text of the stored minutes, and no result is set |
| Settings.SettingsScreen.EditFocusInput | App/study111/app/src/main/java/com/example/study111/SettingsActivity.java:29 | user typing replaces only the focus field's text |
| Settings.SettingsScreen.EditBreakInput | App/study111/app/src/main/java/com/example/study111/SettingsActivity.java:30 | user typing replaces only the break field's text |
| Settings.SettingsScreen.OnSaveClicked | App/study111/app/src/main/java/com/example/study111/SettingsActivity.java:46-53 | Save stores `max(1, parseIntOrDefault(text, default))` for focus (default 25) and break (default 5), keeps the store invariant and finishes with OK |
| Settings.SettingsScreen.OnCancelClicked | App/study111/app/src/main/java/com/example/study111/SettingsActivity.java:55-58 | Cancel finishes with CANCELED and leaves the store unchanged |
| Settings.SettingsScreen.OnNavigateBack | App/study111/app/src/main/java/com/example/study111/SettingsActivity.java:41-44 | the toolbar back arrow behaves like Cancel |
| Pomodoro.MinutesToMs | App/study111/app/src/main/java/com/example/study111/MainActivity.java:330-331 | `min * 60L * 1000L` fits in a `long` for every `int`, and a length of at least one minute gives a valid duration |
| Pomodoro.TimerText | App/study111/app/src/main/java/com/example/study111/MainActivity.java:357-362 | for any time left in range, seconds lie in [0,59] and `mm:ss` is the whole seconds left: `(mm*60+ss)*1000 <= ms < (mm*60+ss+1)*1000` |
| Pomodoro.TimerTextOfMinutes | App/study111/app/src/main/java/com/example/study111/MainActivity.java:327-362 | a full session of `m` minutes shows as `m:00` |
| Pomodoro.StartLabel | App/study111/app/src/main/java/com/example/study111/MainActivity.java:369-380 | "Pause" iff running; "Resume" iff not running, started and time left; "Start" otherwise |
| Pomodoro.Moved | App/study111/app/src/main/java/com/example/study111/MainActivity.java:297-298 | the summed axis change exceeds 2.0: an unchanged reading never counts as movement, and movement needs some axis to change by more than 2/3 |
| Pomodoro.PomodoroTimer.SessionDurationMs | App/study111/app/src/main/java/com/example/study111/MainActivity.java:158 | the current session's full length: the focus duration in FOCUS, the break duration in BREAK, always a valid duration |
| Pomodoro.PomodoroTimer.constructor | App/study111/app/src/main/java/com/example/study111/MainActivity.java:88-119 | `onCreate` loads both durations, starts an idle, unstarted FOCUS session of full length, labelled "Start", and establishes the invariant |
| Pomodoro.PomodoroTimer.LoadDurationsFromPrefs | App/study111/app/src/main/java/com/example/study111/MainActivity.java:327-332 | both durations become the stored minutes times 60000, and only they change |
| Pomodoro.PomodoroTimer.UpdateTimerText | App/study111/app/src/main/java/com/example/study111/MainActivity.java:357-362 | the display shows `TimerText(timeLeftMs)`, and nothing else changes |
| Pomodoro.PomodoroTimer.UpdateStartButton | App/study111/app/src/main/java/com/example/study111/MainActivity.java:369-380 | the button shows the label for the current state, and nothing else changes |
| Pomodoro.PomodoroTimer.CancelTimer | App/study111/app/src/main/java/com/example/study111/MainActivity.java:253-260 | the timer stops and the time left is kept |
| Pomodoro.PomodoroTimer.StartTimer | App/study111/app/src/main/java/com/example/study111/MainActivity.java:202-250 | the timer runs, a new sensor baseline is awaited and the button shows "Pause" |
| Pomodoro.PomodoroTimer.StartFocus | App/study111/app/src/main/java/com/example/study111/MainActivity.java:185-190 | the session becomes FOCUS and the timer runs |
| Pomodoro.PomodoroTimer.StartBreak | App/study111/app/src/main/java/com/example/study111/MainActivity.java:192-197 | the session becomes BREAK and the timer runs |
| Pomodoro.PomodoroTimer.PauseTimer | App/study111/app/src/main/java/com/example/study111/MainActivity.java:263-271 | the timer stops and the session counts as started, so Start resumes it; the invariant is kept |
| Pomodoro.PomodoroTimer.StopDueToMovement | App/study111/app/src/main/java/com/example/study111/MainActivity.java:274-277 | a movement pause is a pause |
| Pomodoro.PomodoroTimer.OnStartClicked | App/study111/app/src/main/java/com/example/study111/MainActivity.java:146-168 | running: pause, keeping session and time left. Idle: run the same session; an unstarted one reloads the durations and takes its full length, a started one resumes with the time left. The invariant is kept |
| Pomodoro.PomodoroTimer.OnResetClicked | App/study111/app/src/main/java/com/example/study111/MainActivity.java:170-180 | from any state: an idle, unstarted FOCUS session of the freshly loaded focus length, labelled "Start" |
| Pomodoro.PomodoroTimer.OnTick | App/study111/app/src/main/java/com/example/study111/MainActivity.java:214-217 | the time left and the display follow the countdown; the session keeps running |
| Pomodoro.PomodoroTimer.OnFinish | App/study111/app/src/main/java/com/example/study111/MainActivity.java:218-246 | FOCUS is followed by a running BREAK of full break length (display `00:00`). BREAK returns to an idle, unstarted FOCUS session of full length. Durations are kept |
| Pomodoro.PomodoroTimer.OnSensorChanged | App/study111/app/src/main/java/com/example/study111/MainActivity.java:282-303 | ignored unless running in FOCUS with an accelerometer event. The first event only records the baseline. Later events pause iff the summed axis change exceeds 2.0, and always become the new baseline. Session and time left never change |
| Pomodoro.PomodoroTimer.ApplyDurationsFromPrefsIfIdle | App/study111/app/src/main/java/com/example/study111/MainActivity.java:335-352 | does nothing while running. Otherwise it reloads the durations; an unstarted session takes its new full length, and a started one keeps its time left |
| Pomodoro.PomodoroTimer.OnResume | App/study111/app/src/main/java/com/example/study111/MainActivity.java:314-322 | a session running in FOCUS with an accelerometer keeps every field, the sensor baseline included; otherwise the settings are re-applied if idle. The sensor fields and the button label never change |
| Quantization.Clamp | App/study111/app/src/main/java/com/example/study111/TFLiteClassifier.java:264-265 | the result lies in `[lo, hi]` and is the input when the input already does |
| Quantization.QuantizeCode | App/study111/app/src/main/java/com/example/study111/TFLiteClassifier.java:259-265 | every input code lies in [-128,127] for INT8 and [0,255] for UINT8 |
| Quantization.QuantizeSaturates | App/study111/app/src/main/java/com/example/study111/TFLiteClassifier.java:263-265 | values beyond the range saturate at its ends instead of failing |
| Quantization.QuantizeMonotone | App/study111/app/src/main/java/com/example/study111/TFLiteClassifier.java:263-265 | quantization keeps the order of values |
| Quantization.ToByte | App/study111/app/src/main/java/com/example/study111/TFLiteClassifier.java:266 | `(byte) q` is lossless for every INT8 code read signed and every UINT8 code read unsigned |
| Quantization.SignedByte | App/study111/app/src/main/java/com/example/study111/TFLiteClassifier.java:292 | a byte widened to `int` lies in [-128,127] |
| Quantization.UnsignedByte | App/study111/app/src/main/java/com/example/study111/TFLiteClassifier.java:292 | a byte read unsigned lies in [0,255] |
| Quantization.CodeOf | App/study111/app/src/main/java/com/example/study111/TFLiteClassifier.java:292 | the corrected reading of an output byte: a code inside the type's range that narrows back to the same byte |
| Quantization.Dequantize | App/study111/app/src/main/java/com/example/study111/TFLiteClassifier.java:292-293 | `(q - zeroPoint) * scale`, with `q` read unsigned for UINT8 and signed otherwise |
| Quantization.DequantizeAsWritten | App/study111/app/src/main/java/com/example/study111/TFLiteClassifier.java:292-293 | the code as written: `q` is always read sign-extended |
| Quantization.QuantizeRoundTrip | App/study111/app/src/main/java/com/example/study111/TFLiteClassifier.java:258-294 | quantize, narrow to a byte, read back and dequantize returns any non-saturating value to within half a quantization step |
| Quantization.AsWrittenAgreesOffUInt8 | App/study111/app/src/main/java/com/example/study111/TFLiteClassifier.java:290-294 | the code as written reads every non-UINT8 output correctly |
| Quantization.AsWrittenMisreadsUInt8 | App/study111/app/src/main/java/com/example/study111/TFLiteClassifier.java:290-294 | for UINT8 the code as written reads every code from 128 to 255 as exactly `256 * scale` too low |
| Quantization.AsWrittenUInt8Counterexample | App/study111/app/src/main/java/com/example/study111/TFLiteClassifier.java:292 | UINT8 byte 200 with scale 1 and zero point 0 means 200.0, but the code as written yields -56.0 |
| Quantization.ShapeProduct | App/study111/app/src/main/java/com/example/study111/TFLiteClassifier.java:251-252 | the element count of a shape with non-negative dimensions is non-negative |
| Quantization.FeatureAt | App/study111/app/src/main/java/com/example/study111/TFLiteClassifier.java:262 | element `i` is the feature at `i`, or 0 past the end of the features |
| Quantization.EncodeInput | App/study111/app/src/main/java/com/example/study111/TFLiteClassifier.java:250-276 | the buffer holds product(shape) elements, 1 byte each for INT8/UINT8 and 4 otherwise. Element `i` holds the clamped code of feature `i` (quantized) or the feature itself (float). Positions past the features are encoded as 0 |
| Quantization.EncodedCodesInRange | App/study111/app/src/main/java/com/example/study111/TFLiteClassifier.java:258-266 | every stored input code lies in the type's range |
| Quantization.PaddingMatchesZeros | App/study111/app/src/main/java/com/example/study111/TFLiteClassifier.java:262-270 | appending zero features never changes the buffer: missing positions are encoded exactly as 0 |
| Classifier.FirstMaxUnique | App/study111/app/src/main/java/com/example/study111/TFLiteClassifier.java:106-110 | ties go to the lowest index, so the top class is determined by the scores |
| Classifier.SelectTop | App/study111/app/src/main/java/com/example/study111/TFLiteClassifier.java:106-110 | the scan returns the first index of a maximal score and that score |
| Classifier.LabelFor | App/study111/app/src/main/java/com/example/study111/TFLiteClassifier.java:111 | the table entry when the index is inside the table; otherwise `"class_"` followed by the index's decimal digits, with no leading zero |
| Classifier.FallbackLabelsDistinct | App/study111/app/src/main/java/com/example/study111/TFLiteClassifier.java:111 | classes beyond the table get pairwise distinct labels |
| Classifier.EmptyWindowFeatures | App/study111/app/src/main/java/com/example/study111/TFLiteClassifier.java:147 | an empty window gives 39 zero features |
| Classifier.EmptyWindowEncodesZeros | App/study111/app/src/main/java/com/example/study111/TFLiteClassifier.java:85-88 | an empty window's 39 zero features become a buffer whose every element, padding included, is the encoding of 0 |
| Classifier.TFLiteClassifier.constructor | App/study111/app/src/main/java/com/example/study111/TFLiteClassifier.java:47-73 | the tensor descriptions are read once and the label table is `["stationary", "pick_up"]` |
| Classifier.TFLiteClassifier.DecodeOutput | App/study111/app/src/main/java/com/example/study111/TFLiteClassifier.java:279-297 | one score per class (the last output dimension): the FLOAT32 output copied verbatim, otherwise each byte dequantized with the corrected reading (`Quantization.Dequantize`: UINT8 bytes unsigned, unlike line 292 as written) |
| Classifier.TFLiteClassifier.BuildInputBuffer | App/study111/app/src/main/java/com/example/study111/TFLiteClassifier.java:250-276 | the loops over the shape and the elements build exactly `EncodeInput(input, features)` |
| Classifier.TFLiteClassifier.RunInference | App/study111/app/src/main/java/com/example/study111/TFLiteClassifier.java:279-297 | the array filled by the copy or the dequantization loop is exactly `DecodeOutput` of the buffer |
| Classifier.TFLiteClassifier.PredictFeatures | App/study111/app/src/main/java/com/example/study111/TFLiteClassifier.java:93-113 | an empty input shape or a feature count other than the last input dimension throws. An empty output throws. Otherwise the scores are `DecodeOutput` of the encoded features (UINT8 outputs read unsigned, the corrected reading), and the label and confidence belong to the first highest score |

## Left out

- Floating point. Feature values, scales, scores and accelerometer readings
  are reals. `float` rounding in `v / inScale + inZeroPoint`,
  `(q - zeroPoint) * outScale` and the movement sum is not modelled.
- The statistics of `computeFeaturesFromWindow` (double accumulation,
  `Math.sqrt`, skew, kurtosis) are not modelled. Only the empty-window branch
  is (`Classifier.EmptyWindowFeatures`). `predictFromWindow` is therefore
  left out too.
- The TFLite `Interpreter`, which is a foreign library. Model loading, tensor
  inspection and `close` are left out. `interpreter.run` is a pair of
  functions from the input buffer to each output element.
- `ByteBuffer` byte order and the IEEE layout written by `putFloat` depend on
  the platform. The float buffer holds the values themselves.
- Classifier.TFLiteClassifier.BuildInputBuffer: the element count is an
  unbounded integer. The Java `int` product of the dimensions, and the
  capacity `numElements * bytesPer`, could overflow for huge shapes; that is
  not modelled.
- Classifier.TFLiteClassifier.Valid: a quantized tensor is taken to have a
  positive scale and every dimension to be non-negative. A zero scale (float
  division by zero) and negative dimensions (`NegativeArraySizeException`)
  are outside the model.
- Classifier.TFLiteClassifier.PredictFeatures: a `null` feature array is not
  modelled.
- Classifier.TFLiteClassifier.RunInference: it reads UINT8 output bytes
  unsigned (the corrected behaviour, see Findings). The sign-extending read as
  written is `Quantization.DequantizeAsWritten`.
- Classifier.TFLiteClassifier.DecodeOutput: it specifies the corrected
  unsigned reading of UINT8 output bytes, not the sign-extending read at line
  292 as written (see Findings).
- Classifier.TFLiteClassifier.PredictFeatures: its scores are `DecodeOutput`,
  so UINT8 outputs are read unsigned (the corrected behaviour, see Findings).
  The interpreter is a pure function here, so no contract states that it is
  not called on the paths that throw.
- JavaLang.ParseInt: accepts ASCII digits only. `Integer.parseInt` also
  accepts the other Unicode decimal digits that `Character.digit` knows.
- Pomodoro.PomodoroTimer.OnTick: ticks are taken to come only while the timer
  runs and never to raise the time left. This is the contract of the
  framework's countdown, which is not modelled.
- Pomodoro.PomodoroTimer.OnFinish: taken to come only while the timer runs.
  `AUTO_LOOP` is the constant `false`, so only its `else` branch is modelled.
- The Android framework is not modelled:
  - `CountDownTimer` scheduling;
  - sensor registration and unregistration, and `onPause`;
  - notifications, sound and vibration;
  - the session label and `messageText` strings;
  - toolbar and menu wiring;
  - result formatting with `%.3f`.
- The `%02d:%02d` string formatting is not modelled. `TimerText` yields the
  minutes and seconds pair that is formatted.
- `SharedPreferences` persistence and the asynchronous `apply()` are not
  modelled; writes take effect at once. `getInt` on a key holding a non-int
  value (a `ClassCastException`) is not modelled.
- SplashActivity is not part of this model: it only posts a delayed
  navigation.

## Findings

| source | as written | input that shows it | evidently intended | confidence | as-written member | corrected member |
|---|---|---|---|---|---|---|
| App/study111/app/src/main/java/com/example/study111/TFLiteClassifier.java:292 | `int q = outQ[0][i]` sign-extends the output byte for every non-FLOAT32 output, UINT8 included | UINT8 output byte 200 with scale 1.0 and zero point 0 gives score -56.0 | read UINT8 bytes unsigned (`outQ[0][i] & 0xFF`) and give 200.0, matching the UINT8 handling of `buildInputBuffer` | medium (the shipped model is INT8, where the read is right); not executed | Quantization.AsWrittenUInt8Counterexample | Quantization.Dequantize |
