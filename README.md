# Pybricks motor observer, tacho, light animations, remote and I/O-device helpers

A Dafny model of five pieces of the Pybricks firmware for LEGO hubs.

- **Motor state observer** (`Observer`, from `lib/pbio/src/observer.c`).
  - It is a fixed-point, discrete state-space model of a DC motor. Each control tick it predicts the angle, speed and current from the applied voltage and a static friction torque.
  - A clamped proportional feedback voltage pulls the estimate toward the measured angle.
  - A zero-crossing guard stops the speed at zero when friction alone would flip its sign.
  - A debounced stall flag latches the time of its rising edge.
  - Alongside sit the torque↔voltage conversions and the feedforward torque.
  - The pure parts are functions over a `State` value; `Step` is one `update` and `Run` is a sequence of ticks.
  - The `Observer` class holds the fields that `reset`, `update_stall_state` and `update` change in place. Each mutating method is proved to leave the fields equal to the transition function applied to the old fields.
- **Tachometer** (`Tacho`, from `lib/pbio/src/tacho.c`).
  - A hardware counter is seen through a direction sign and an offset.
  - Counter readings are inputs, each a value or a driver error. `setup` and `reset_count` write the `Tacho` object's fields.
- **Light-animation registry** (`Animation`, from `lib/pbio/src/light/animation.c`).
  - Started animations form an intrusive singly-linked list through their `next_animation` field. A stopped animation holds a sentinel there instead.
  - A ghost sequence mirrors the list. The invariant that an initialised animation is started exactly when it is on the list holds across `init`, `start`, `stop` and `stop_all`.
  - `stop` keeps the C search loop with its `break`.
- **Powered Up remote** (`Remote`, from `pybricks/pupdevices/pb_type_pupdevices_remote.c`).
  - It parses the LEGO Wireless Protocol 3.0 notifications that carry button states. These are messages with the common header of section 3.1 of that protocol: length byte, hub id, message type.
  - The button query maps the stored button bytes to the set of pressed buttons.
- **I/O-device helpers** (`IODevice`, from `extmod/pbiodevice.c`).
  - Type-id and mode checks.
  - The element codec of `get_values` / `set_values`: 8-, 16- and 32-bit elements at byte offsets i, 2i and 4i.
  - Both loops are imperative methods over arrays, proved against specification functions. A write followed by a read is proved to round-trip.

Shared pieces:

- `CInt` holds C's truncating division (`CDiv`; Dafny's `/` is Euclidean), the firmware's symmetric clamp and sign, and `uint32_t` wrap-around subtraction.
- `PbioError` holds the error codes and the result wrappers.

Inputs and collaborators become parameters:

- the differentiator's output;
- `pbio_control_settings_mul_by_gain`, a function-typed constant of the observer;
- `fix16_mul`, a function parameter of `Tacho.Setup`;
- the counter driver's readings;
- the bluetooth connection state;
- the device driver's data buffer and data format, each with the outcome of reading it.

Angles are plain millidegree integers: `pbio_angle_add_mdeg` is `+` and `pbio_angle_diff_mdeg` is `-`.

## Model

| member | source | states |
|---|---|---|
| CInt.CDivIsTruncation | lib/pbio/src/observer.c:206 | C's `/` truncates: the quotient's magnitude is the floor of the magnitudes' quotient, and a nonzero quotient has the sign of the operands' product |
| CInt.CDivNegate | lib/pbio/src/observer.c:147 | truncating division commutes with negating the dividend, so `-tf / 2 == -(tf / 2)` |
| CInt.CDivShrinks | lib/pbio/src/observer.c:206 | a quotient never exceeds its dividend in magnitude |
| CInt.CDivMonotone | lib/pbio/src/observer.c:206 | for a positive divisor, truncating division is monotone in the dividend |
| CInt.Clamp | lib/pbio/src/observer.c:113 | the clamped value lies in [-max, max], equals the input inside that range, and equals the nearer bound outside it |
| CInt.ClampNegate | lib/pbio/src/observer.c:202 | clamping commutes with negation |
| CInt.Sign | lib/pbio/src/observer.c:197 | the sign is ±1 for a nonzero input and 0 for zero, and sign times input is the absolute value |
| CInt.U32Sub | lib/pbio/src/observer.c:187 | `uint32_t` subtraction is the difference when it is non-negative, and the difference plus 2^32 otherwise |
| Observer.TorqueToVoltage | lib/pbio/src/observer.c:205-207 | the torque is clamped to ±1,000,000 before scaling; the scaled product fits `int32_t`; the result is bounded by that product |
| Observer.VoltageToTorque | lib/pbio/src/observer.c:209-211 | the voltage is clamped to ±12,000 before scaling; the scaled product fits `int32_t`; the result is bounded by that product |
| Observer.TorqueToVoltageSaturates | lib/pbio/src/observer.c:206 | every torque beyond ±1,000,000 converts like the bound itself |
| Observer.VoltageToTorqueSaturates | lib/pbio/src/observer.c:210 | every voltage beyond ±12,000 converts like the bound itself |
| Observer.ConversionsAreOdd | lib/pbio/src/observer.c:205-211 | reversing the input of either conversion reverses its output exactly |
| Observer.TorqueToVoltageMonotone | lib/pbio/src/observer.c:205-207 | with a positive coefficient, more torque never asks for less voltage |
| Observer.FrictionCompensation | lib/pbio/src/observer.c:197 | the friction term is 0 at zero reference rate, and ±tf/2 (C-truncated) signed like the rate otherwise |
| Observer.FeedforwardTorque | lib/pbio/src/observer.c:195-203 | the feedforward torque always lies within ±1,000,000 |
| Observer.FeedforwardAtRest | lib/pbio/src/observer.c:197-202 | at zero reference rate only the clamped acceleration torque remains |
| Observer.FeedforwardIsOdd | lib/pbio/src/observer.c:195-203 | reversing rate and acceleration references reverses the feedforward torque exactly |
| Observer.PrescaleProductsFit | lib/pbio/src/observer.c:16-25 | each prescale factor times the bound of its quantity is at most 2^31-1 |
| Observer.FeedbackVoltage | lib/pbio/src/observer.c:111-114 | the feedback voltage lies in [-12000, 12000] and is the gain-scaled angle error whenever that is in range |
| Observer.NonVoltageClearsStall | lib/pbio/src/observer.c:68-71 | any actuation other than voltage clears the stall flag and changes nothing else |
| Observer.StallUpdateLatchesRisingEdge | lib/pbio/src/observer.c:64-102 | the flag rises exactly when the tick's condition holds; the start time is overwritten exactly on a rising edge; no other field changes |
| Observer.StallUpdate | lib/pbio/src/observer.c:64-102 | `update_stall_state` touches only the flag and its start time; the flag can be up only under voltage actuation; a rising edge records the tick's time, and the start time moves on no other tick |
| Observer.StallMirrorsNegativeVoltage | lib/pbio/src/observer.c:73-79 | under negative voltage the decision equals that for negated speed, voltage and feedback |
| Observer.StallNeedsAllConditions | lib/pbio/src/observer.c:81-92 | a stall needs voltage actuation and all four conditions on the forward-normalised values |
| Observer.StallReport | lib/pbio/src/observer.c:185-193 | a report of true means the flag is up for longer than the stall time; a report of false carries duration 0 |
| Observer.FrictionTorqueSign | lib/pbio/src/observer.c:147 | the modelled torque is +tf/2 for positive speed and -tf/2 otherwise |
| Observer.FrictionTorque | lib/pbio/src/observer.c:147 | the modelled torque always has the magnitude of half the static friction, in either direction of motion |
| Observer.StepCommits | lib/pbio/src/observer.c:125-174 | after `update`: speed and current are within their bounds; the speed is exactly 0 when removing the torque term flips its sign, and the clamped prediction otherwise; current, numeric speed and stall fields are as computed |
| Observer.Step | lib/pbio/src/observer.c:125-174 | one `update` leaves speed and current within their bounds, records the differentiator's speed, and raises the stall flag only under voltage actuation |
| Observer.ZeroCrossingGuardNoFlip | lib/pbio/src/observer.c:166-169 | the committed speed is 0 or has the sign of the prediction without the torque term |
| Observer.ZeroCrossingGuard | lib/pbio/src/observer.c:166-169 | the committed speed is either the clamped prediction or exactly zero |
| Observer.BoundedProductsFit | lib/pbio/src/observer.c:151-152 | in a bounded state the speed and current products fit `int32_t` |
| Observer.VoltageProductRange | lib/pbio/src/observer.c:144-153 | the unclamped voltage product fits `int32_t` while applied plus feedback voltage is within ±12,000, and two in-range voltages can push it past 2^31-1 |
| Observer.RunWithoutVoltageNeverStalls | lib/pbio/src/observer.c:68-71 | after every non-empty run without voltage actuation the flag is down |
| Observer.RunStaysBounded | lib/pbio/src/observer.c:155-173 | every run of ticks from a bounded state stays bounded |
| Observer.LatestRisingEdge | lib/pbio/src/observer.c:93-97 | along any trace whose steps latch, a flag that rose at step k and stayed up carries the time of step k |
| Observer.StallStartIsLatestRisingEdge | lib/pbio/src/observer.c:93-97 | when the flag was down after k ticks and up after every later prefix, the start time is that of tick k |
| Observer.RunLatchesRisingEdge | lib/pbio/src/observer.c:93-97 | the last tick of a run moves the start time only on a rising edge |
| Observer.StepLatchesRisingEdge | lib/pbio/src/observer.c:93-97 | one `update` moves the start time only on a rising edge and keeps it while the flag stays up |
| Observer.StallReportAfterRisingEdge | lib/pbio/src/observer.c:185-193 | in that situation `is_stalled` reports a stall exactly when more than the stall time has passed since tick k, with that elapsed time |
| Observer.Observer.Reset | lib/pbio/src/observer.c:33-45 | after `reset(a)`: angle = a, speed = 0, current = 0, not stalled; numeric speed and stall start are kept |
| Observer.Observer.GetEstimatedState | lib/pbio/src/observer.c:55-62 | returns the numeric speed, the angle and the estimated speed, which lies within ±2,500,000 |
| Observer.Observer.GetFeedbackVoltage | lib/pbio/src/observer.c:111-114 | returns the feedback voltage toward the measured angle, within ±12,000 |
| Observer.Observer.UpdateStallState | lib/pbio/src/observer.c:64-102 | the stall fields become those of the stall update of the old state; nothing else changes |
| Observer.Observer.Update | lib/pbio/src/observer.c:125-174 | the whole new estimate is one `Step` of the old estimate with this tick's inputs, and stays bounded |
| Observer.Observer.Predict | lib/pbio/src/observer.c:144-173 | angle, speed and current are advanced under applied plus feedback voltage with the friction torque of the old speed; speed and current are clamped; the zero-crossing guard is applied |
| Observer.Observer.IsStalled | lib/pbio/src/observer.c:185-193 | true exactly when stalled and the wrapped `time - stall_start` exceeds the stall time; the duration is that difference when true and 0 otherwise |
| Tacho.Count | lib/pbio/src/tacho.c:65-79 | a counter error passes through; otherwise the count plus the offset is the directed reading |
| Tacho.Rate | lib/pbio/src/tacho.c:118-131 | a counter error passes through; otherwise the rate is the directed reading, with no offset |
| Tacho.CountAfterReset | lib/pbio/src/tacho.c:81-97 | after `reset_count(r)` succeeds, with the counter unchanged, the count is r |
| Tacho.ResetOffset | lib/pbio/src/tacho.c:81-97 | `reset_count` fails exactly when the count read fails, with the counter's error |
| Tacho.WrappedCount | lib/pbio/src/tacho.c:73-76 | `get_count` in `int32_t` arithmetic: a value of `int32_t` congruent to the directed reading minus the offset modulo 2^32 |
| Tacho.WrappedResetOffset | lib/pbio/src/tacho.c:91-94 | the new offset in `int32_t` arithmetic: a value of `int32_t` congruent to the directed reading minus the reset value modulo 2^32 |
| Tacho.WrappedCountAfterReset | lib/pbio/src/tacho.c:81-97 | with every step wrapping as `int32_t` does, reading right after `reset_count(r)` still gives r |
| CInt.Wrap32 | lib/pbio/src/tacho.c:74-76 | the C `int32_t` result of an operation: in range, congruent to the exact value modulo 2^32, and the exact value when that fits |
| Tacho.ResetOffsetIgnoresOldOffset | lib/pbio/src/tacho.c:91-94 | the new offset is the directed reading minus r, whatever the old offset was |
| Tacho.CounterErrorPropagates | lib/pbio/src/tacho.c:68-71 | a counter error is returned unchanged by count, reset and rate |
| Tacho.CountMirrorsDirection | lib/pbio/src/tacho.c:73-76 | reversing the direction and the offset reverses the count |
| Tacho.Tacho.constructor | lib/pbio/src/tacho.c:15 | a table slot starts zeroed |
| Tacho.Tacho.GetCount | lib/pbio/src/tacho.c:65-79 | returns the counter's error, or the directed reading minus the offset |
| Tacho.Tacho.GetRate | lib/pbio/src/tacho.c:118-131 | returns the counter's error, or the directed rate |
| Tacho.Tacho.ResetCount | lib/pbio/src/tacho.c:81-97 | on a counter error nothing changes; otherwise the offset becomes one that makes the current reading count as r |
| Tacho.Tacho.Setup | lib/pbio/src/tacho.c:17-47 | negative gear ratio or counts per degree gives `InvalidArg` before any field is written; otherwise scaling and direction are stored; a missing counter returns its error; after success the count equals the directed absolute count, or 0 if that is unavailable |
| Tacho.GetTacho | lib/pbio/src/tacho.c:49-63 | ports outside the motor ports give `InvalidPort`; otherwise the port's slot is returned and set up as by `setup`: `InvalidArg` with the slot unchanged; the direction and scaling stored; a counter lookup or count read error passed on; otherwise success with the count starting at the directed absolute count |
| Animation.Registry.constructor | lib/pbio/src/light/animation.c:23-24 | the registry starts empty, with the process not running |
| Animation.Animation.IsStarted | lib/pbio/src/light/animation.c:109-111 | `is_started`: the link is anything but the stopped sentinel; `StartedExactlyWhenListed` proves this means "on the list" |
| Animation.Registry.StartedExactlyWhenListed | lib/pbio/src/light/animation.c:109-111 | in a valid registry an initialised animation is started exactly when it is on the list |
| Animation.Registry.Init | lib/pbio/src/light/animation.c:31-34 | after `init` the animation is not started; the list is unchanged |
| Animation.Registry.Start | lib/pbio/src/light/animation.c:46-59 | a stopped animation becomes the list head with the old list as its tail; it is started; the process runs |
| Animation.Registry.Stop | lib/pbio/src/light/animation.c:68-89 | a started animation leaves the list and is stopped; all others keep their membership and order; the process is running exactly while the list is non-empty |
| Animation.Registry.StopAll | lib/pbio/src/light/animation.c:97-101 | ends with an empty list and the process stopped, and every animation that was listed is stopped |
| Animation.Registry.PushKeepsLinked | lib/pbio/src/light/animation.c:49-50 | pushing onto the front keeps every list link right |
| Animation.Registry.PushKeepsDistinct | lib/pbio/src/light/animation.c:49-50 | pushing an animation that is not listed keeps the list free of duplicates |
| Animation.Registry.PushKeepsStarted | lib/pbio/src/light/animation.c:49-50 | pushing a started animation keeps "started iff listed" |
| Animation.Registry.UnlinkKeepsLinked | lib/pbio/src/light/animation.c:74-86 | when the predecessor takes over the removed animation's link, every remaining link is right |
| Animation.Registry.UnlinkKeepsStarted | lib/pbio/src/light/animation.c:88 | marking the removed animation stopped keeps "started iff listed" |
| Remote.Remote.constructor | pybricks/pupdevices/pb_type_pupdevices_remote.c:36 | the singleton starts with every button byte zero |
| Remote.Remote.ResetState | pybricks/pupdevices/pb_type_pupdevices_remote.c:58 | connecting first zeroes `left`, `right` and `center`, so no button reads as pressed |
| Remote.Remote.HandleNotification | pybricks/pupdevices/pb_type_pupdevices_remote.c:39-53 | a 5-byte connection request sets `center := value[4]` only; a 7-byte port value for port 0 or 1 copies bytes 4..6 into `left` or `right` only; any other message changes nothing |
| Remote.Remote.ButtonIsPressed | pybricks/pupdevices/pb_type_pupdevices_remote.c:91-122 | fails with `NoDev` when not connected; otherwise a button is pressed exactly when its byte is nonzero |
| IODevice.GetTypeId | extmod/pbiodevice.c:44-50 | `NoDev` with the output untouched when info is absent; otherwise success with the type id |
| IODevice.AssertTypeId | extmod/pbiodevice.c:38-42 | fails with `NoDev` exactly when info is absent or the type id differs |
| IODevice.GetMode | extmod/pbiodevice.c:52-55 | always succeeds with the stored mode |
| IODevice.SetMode | extmod/pbiodevice.c:57-70 | nothing is asked of the driver exactly when the new mode equals the current one |
| IODevice.AssertAgreesWithGet | extmod/pbiodevice.c:38-50 | asserting a type succeeds exactly when reading the type id gives that type |
| IODevice.SetModeIdempotent | extmod/pbiodevice.c:63-65 | setting the mode just read, or setting the same mode twice, is a no-op |
| IODevice.DecodeInt16 | extmod/pbiodevice.c:92 | a 16-bit element is a signed value congruent to its little-endian bytes mod 2^16 |
| IODevice.DecodeInt32 | extmod/pbiodevice.c:95 | a 32-bit element is a signed value congruent to its little-endian bytes mod 2^32 |
| IODevice.DecodeElement | extmod/pbiodevice.c:86-96 | an 8-bit element reads unsigned (0..255), a 16-bit one as `int16_t`, a 32-bit one as `int32_t` |
| IODevice.EncodeElement | extmod/pbiodevice.c:140-150 | a stored element takes 1, 2 or 4 bytes |
| IODevice.Decoded | extmod/pbiodevice.c:86-96 | the decoded values are element i of the buffer for each i < n |
| IODevice.EncodedAt | extmod/pbiodevice.c:140-150 | the encoding has one width per element, and element i's bytes sit at offset i, 2i or 4i |
| IODevice.Encoded | extmod/pbiodevice.c:140-150 | the bytes stored for n elements are Offset(n) long: n, 2n or 4n bytes |
| IODevice.EncodedIndex | extmod/pbiodevice.c:140-150 | element i's bytes in the encoding are exactly its own encoding |
| IODevice.ElementRoundTrip | extmod/pbiodevice.c:86-150 | decoding the encoding of one in-range element gives it back |
| IODevice.RoundTrip | extmod/pbiodevice.c:86-150 | writing any in-range elements (bytes 0..255, `int16_t`, `int32_t`) and reading them back is the identity |
| IODevice.NegativeInt8ReadsBackUnsigned | extmod/pbiodevice.c:88-89 | the round trip fails for every negative 8-bit value v: it is written as the byte v + 256 and read back as v + 256 (-1 as 255), because the read path does not sign-extend |
| IODevice.Pack | extmod/pbiodevice.c:110-116 | no elements give no value, one gives that value, more give a tuple of all of them |
| IODevice.ValuesOf | extmod/pbiodevice.c:72-117 | reading succeeds exactly when the length is 0 or the type is an integer type; then no value for length 0, a single value for length 1, and otherwise the packed decoded elements; a float type gives `NotSupported` and an unknown type `NotImplemented` |
| IODevice.ReadElement | extmod/pbiodevice.c:87-96 | one case of the read switch gives element i of the buffer |
| IODevice.GetValues | extmod/pbiodevice.c:72-117 | returns the first error of reading data and format; then no value for length 0; else the packed values decoded element by element, or the element type's error |
| IODevice.ItemsOf | extmod/pbiodevice.c:128-138 | a lone integer is accepted for length 1; otherwise exactly `len` items are needed, else `InvalidArg` |
| IODevice.BytesOf | extmod/pbiodevice.c:119-162 | a value that does not match the format's length gives `InvalidArg`; bytes handed to the driver are exactly Offset(len) long |
| IODevice.EncodingOf | extmod/pbiodevice.c:140-162 | storing succeeds exactly when there are no elements, or the type is an integer type and every element fits a machine `int`; the bytes are then Offset(n) long |
| IODevice.SetThenGetValues | extmod/pbiodevice.c:72-169 | writing in-range 16- or 32-bit values and reading the buffer back in the same format gives what was written |
| IODevice.SetValues | extmod/pbiodevice.c:119-169 | returns the format's error, or the items' error, or the bytes of the encoding |
| IODevice.EncodeItems | extmod/pbiodevice.c:140-162 | the bytes stored one element at a time are the encoding of the items, or the error of the first element that cannot be stored |
| IODevice.StoreElement | extmod/pbiodevice.c:141-150 | storing element i appends its encoding after the first i elements and leaves them untouched |
| IODevice.EncodedStep | extmod/pbiodevice.c:140-150 | extending the prefix by one element appends that element's bytes |

## Left out

- The differentiator, `pbio_control_settings_mul_by_gain`, `fix16_mul`, `pbio_math_div_i32_fix16` and `pbio_math_mul_i32_fix16` are not part of this model. Differentiator output and gain scaling are parameters, and `pbio_tacho_get_angle`, `pbio_tacho_reset_angle` and `pbio_tacho_get_angular_rate` are left out, because they only wrap fix16 scaling.
- The counter driver (`pbdrv_counter_get`, `_get_count`, `_get_abs_count`, `_get_rate`) is not modelled; its results are inputs.
- Observer: `int32_t` overflow of the sums is not modelled; the arithmetic is over mathematical integers. The products that fit are proved to fit (`PrescaleProductsFit`, `BoundedProductsFit`). `VoltageProductRange` shows the unclamped voltage product of `update` can overflow when applied plus feedback voltage exceeds ±12,000.
- Tacho.Tacho.Setup: the counter lookup `pbdrv_counter_get` (tacho.c:30) is assumed not to write the `counter` field when it fails, so `Setup` and `GetTacho` promise the old `counter` on a lookup error; the driver is not part of this model.
- Tacho: `Count`, `ResetOffset` and the `Tacho` class compute over mathematical integers, with no `int32_t` overflow. In C, negating an `INT32_MIN` reading (tacho.c:74), subtracting the offset (:76), adding it back (:91) and subtracting the reset value (:94) can overflow, which is undefined behaviour in C; the hubs' GCC build wraps in two's complement. Only the reset-then-read round trip is modelled with wrap-around (`WrappedCount`, `WrappedResetOffset`, `WrappedCountAfterReset`).
- Observer: the `COAST` branch of `update` is empty in the source and has no effect here.
- Observer: the differentiator reset inside `reset` is left out.
- Observer: no torque→voltage→torque round trip is stated, because the model coefficients are free parameters and the truncating divisions lose precision.
- Observer.Observer.IsStalled: the stalled time must EXCEED the stall time (`>`), as the code compares, not merely reach it.
- Animation: the animation callback, the `etimer` calls and the contiki process thread are left out, because they are scheduling. The process is a boolean that `start` sets and `stop` clears.
- Animation: the source's `assert`s become preconditions of `Start` and `Stop`.
- Animation.Registry.Init: requires the animation not to be on the list. Re-initialising a started animation, which the source does not forbid, would leave a stopped animation linked into the list.
- Remote: the connect timeout loop, task cancellation and the bluetooth driver are left out, because they are cooperative concurrency. Only the state reset at the start of connecting is modelled.
- Remote.Remote.HandleNotification: the source reads the buffer without a size check. The model requires the bytes it reads to be present: the length byte, and as many bytes as announced when it is 5 or 7.
- Remote: buttons are a set of `Button` values rather than `pbio_button_flags_t` bits; the bit values are not part of this model.
- IODevice: the `wait` helper, the driver calls `pbio_iodev_set_mode_begin`/`_end`/`_cancel` and `pbio_iodev_set_data_*` are left out. `SetMode` returns the request it would make, and `SetValues` returns the bytes it would hand over.
- IODevice: the FLOAT element type is modelled only for a build without floating point (`NotSupported`), because floating point is out of scope.
- IODevice: MicroPython object construction and argument parsing are not modelled. Every argument-type or overflow exception becomes `InvalidArg`. A sequence of non-integers is not modelled.
- IODevice: data buffers are sized to the format rather than to the fixed 32-byte `PBIO_IODEV_MAX_DATA_SIZE`. `GetValues` requires the driver's buffer to hold every element its format announces, an assumption about the driver, whose code is not part of this model.
- The host byte order of the buffer casts is fixed as little-endian, the byte order of the hubs' processors.

