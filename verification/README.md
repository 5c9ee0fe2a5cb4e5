# Verified model of the Python device SDK

A Dafny model of the parts of the device service SDK whose behaviour is hardest
to see from the code, with proofs. `dafny verify dfyconfig.toml` checks all of it.

- **Transformations** (`Bits`, `IntTypes`, `Models`, `Transform`, `TransformLaws`,
  `RoundTrip`, `Rounding`, `TransformExamples`): Mask, Shift, Base, Scale and
  Offset on the eight integer types, emulating two's-complement words on unbounded integers,
  with the float range checks over an explicit rounding function. Writing is
  undone by reading exactly when a stated bit-field condition holds, and reading
  then writing is a projection.
- **Write commands** (`Numerals`, `Coercion`, `Commands`, `CommandLaws`, `Escapes`,
  `CommandOutcomes`): from the request text through coercion, in-place transformation
  and the driver to the published event, and exactly when a command succeeds.
- **Auto events** (`AutoEvents`, `Staleness`, `Changes`, `Durations`, `DurationUnits`,
  `Schedule`, `AutoEventManager`, `Origins`): the on-change executor, what it sends
  and its staleness bound over whole runs, the duration parser against its grammar and units, the fixed-rate loop,
  the executor bookkeeping and the origin generator.
- **Caches and Core Metadata** (`Dicts`, `Maps`, `Profiles`, `Devices`, `Metadata`,
  `DeviceService`, `ProfileService`, `WatcherService`, `Discovery`): derived
  indexes, cache-first operations with rollback on shared objects, agreement of the two stores over
  every run, and what a round of discovery adds.
- **Protocols** (`FailureTracker`, `CoreData`, `Messaging`): the failure count and
  operating state, the circuit breaker and batch queue, and the command semaphore
  under every interleaving of its threads.

The driver, the clock, the float library, regular expressions and Core Metadata's
answers are parameters. The laws assume of them only what they name: `Faithful`,
`Accurate` or `Nearest` rounding, a clock that does not run backwards for the
breaker and the schedule, and that a refused request changes nothing in Core
Metadata.

## Where the code departs from its description

- Read scaling multiplies by the truncated scale, so its result is the product only
  for integral scales (`TransformLaws.ReadScaleIsProduct`), and a scale below one in
  magnitude reads everything as zero (`TransformLaws.FractionReadsZero`).
- Writing with a scale of -1.6 wraps the least signed byte around
  (`Rounding.LeastValueWraps`); negating the least value is the only wrap-around of
  write scaling up to 32 bits for scales of magnitude one or more
  (`TransformLaws.WriteScaleWraps`). With 64 bits the range check admits one value
  too many (`Rounding.LargestValueWraps`); `TransformLaws.ScaleExactIff` and
  `TransformLaws.OffsetExactIff` say when a passed check is exact.
- A shift of the whole width reads a negative value as -1 and writes it back as 0,
  so reading and writing back is not stable there (`RoundTrip.WriteBackTwice`,
  `TransformExamples.LostSignReadsZero`).
- `command_write` is documented to raise EdgexError only. A write scale of zero
  ends it with a `ZeroDivisionError` (`Escapes.ZeroScaleEscapes`), and
  `Escapes.CommandEscapes` says exactly when such an exception escapes.
- The descriptions of `remove_device_by_name` and `update_device_profile`
  (`src/device_sdk_py/service/device_service.py:340-346` and `449-455`) say that the
  cache copy stays as it is; the code changes the cache first, and the model
  follows the code.
- A patch or update that carries AutoEvent objects changes the cache and then
  fails in the JSON encoder with a `TypeError` that the rollback does not catch
  (`DeviceService.StepAgreement`, `DeviceService.UpdateWithAutoEvents`).
- An assertion that fails on an exhausted device turns DOWN into DISABLED, which
  opens the operating-state gate (`FailureTracker.AssertionHidesDown`).
- After a success whose patch to UP is refused, the caller gets an EdgexError and the
  device stays DOWN however often it succeeds (`FailureTracker.MissedUpPatch`).
- A batch whose request fails, or that the open breaker drops, is lost; only a
  raising token provider puts it back (`CoreData.NothingLostIff`,
  `CoreData.FailingFlushLoses`). The events of this SDK are plain dataclasses
  without the `model_dump` method that both send paths call, so every send of one
  that passes the breaker fails and none is ever delivered to Core Data
  (`CoreData.SdkSendFails`, `CoreData.SdkEventsLost`).
- A second `start_auto_events` forgets executors that go on running
  (`AutoEventManager.AutoEventManager.StartAutoEvents`).

## Model

| member | source | states |
|---|---|---|
| `IntTypes.TruncateBits` | src/device_sdk_py/internal/transformer/transformresult.py:126-143 | `_truncate_int` gives the only value of the type that has the low bits of its argument, for every width and signedness |
| `IntTypes.TruncateIsRepresentative` | src/device_sdk_py/internal/transformer/transformresult.py:133-143 | r is the truncation of x if and only if r lies in the type and differs from x by a multiple of 2^bits |
| `IntTypes.TruncateIdentity` | src/device_sdk_py/internal/transformer/transformresult.py:133-143 | truncation leaves every value of the type alone |
| `Bits.AndBit` | src/device_sdk_py/internal/transformer/transformresult.py:159-171 | a bit of the masked value is set if and only if it is set in the value and in the mask, negative values included |
| `Bits.ShiftRightIsQuotient` | src/device_sdk_py/internal/transformer/transformresult.py:174-183 | a right shift by n is the quotient by 2^n rounded down |
| `Transform.TransformReadResult` | src/device_sdk_py/internal/transformer/transformresult.py:278-315 | for the integer types the in-place read pipeline leaves in the CommandValue, and raises, what Mask, Shift, Base, Scale, Offset in that order give; a failure leaves the value as it was |
| `Transform.TransformWriteParameter` | src/device_sdk_py/internal/transformer/transformparam.py:98-137 | for the integer types the in-place write pipeline: limits, then Offset, Scale, Base, Shift, Mask; a failure leaves the value as it was |
| `TransformLaws.RejectedIff` | src/device_sdk_py/internal/transformer/transformparam.py:62-95 | a write is refused for its limits if and only if the value is above the truncated maximum or below the truncated minimum; no other step refuses so |
| `TransformLaws.EffectsKeep` | src/device_sdk_py/internal/transformer/transformresult.py:278-315 | a transformation that fails, or meets a value that is not an integer, leaves it as it was |
| `TransformLaws.TruncIs` | src/device_sdk_py/internal/transformer/transformparam.py:70-71 | the truncation of limits, scales and offsets is toward zero and less than one away |
| `TransformLaws.TruncDivIs` | src/device_sdk_py/internal/transformer/transformresult.py:113-123 | integer division leaves a remainder smaller than the divisor with the sign of the dividend |
| `TransformLaws.BaseIs` | src/device_sdk_py/internal/transformer/transformresult.py:213-227 | up to 32 bits the base step gives n if and only if the power or logarithm is exactly n and n lies in the type, and overflows otherwise |
| `TransformLaws.ReadScaleExact` | src/device_sdk_py/internal/transformer/transformresult.py:230-251 | up to 32 bits and for every scale, fractional ones included, reading either overflows or gives exactly v times the truncated scale: the closing truncation never wraps |
| `TransformLaws.ReadScaleIntegral` | src/device_sdk_py/internal/transformer/transformresult.py:230-251 | with an integral scale reading succeeds exactly when the product lies in the type |
| `TransformLaws.ReadOffsetExact` | src/device_sdk_py/internal/transformer/transformresult.py:254-275 | a read offset either overflows or adds exactly the truncated offset, whatever the offset |
| `TransformLaws.WriteOffsetExact` | src/device_sdk_py/internal/transformer/transformresult.py:254-275 | a write offset either overflows or subtracts exactly the truncated offset, whatever the offset |
| `TransformLaws.OffsetIntegral` | src/device_sdk_py/internal/transformer/transformresult.py:254-275 | with an integral offset the step succeeds exactly when the sum or difference lies in the type |
| `TransformLaws.WriteScaleIntegral` | src/device_sdk_py/internal/transformer/transformresult.py:230-251 | writing with an integral scale succeeds exactly when the scale divides the value and the quotient lies in the type, and gives that quotient |
| `TransformLaws.WriteScaleWraps` | src/device_sdk_py/internal/transformer/transformresult.py:230-251 | writing with any scale of magnitude at least one that passes the check gives the truncated quotient, with one exception: negating the least signed value wraps to itself |
| `TransformLaws.CheckedInteger` | src/device_sdk_py/internal/transformer/transformvaluechecker.py:54-79 | for an exactly representable integer the float range check is the range of the type |
| `TransformLaws.WideRange` | src/device_sdk_py/internal/transformer/transformvaluechecker.py:33-79 | the float range of an integer is the range of its type up to 32 bits, and one value more for 64 bits |
| `TransformExamples.ExactSatisfiesLaws` | src/device_sdk_py/internal/transformer/transformresult.py:186-212 | the two assumptions on rounding (`Faithful`, `Accurate`) can be met: exact arithmetic meets them |
| `TransformLaws.ReadScaleIsProduct` | src/device_sdk_py/internal/transformer/transformresult.py:230-251 | a successful read scaling is the real product if and only if the value is zero or the scale integral |
| `TransformLaws.FractionReadsZero` | src/device_sdk_py/internal/transformer/transformresult.py:230-251 | every scale below one in magnitude reads every value as zero, or overflows |
| `TransformLaws.ScaleExactIff` | src/device_sdk_py/internal/transformer/transformresult.py:230-251 | for all eight types, a scale step that passes its check gives the exact integer result if and only if that lies in the type |
| `TransformLaws.OffsetExactIff` | src/device_sdk_py/internal/transformer/transformresult.py:254-275 | the same for an offset step |
| `Rounding.NearestIs` | src/device_sdk_py/internal/transformer/transformvaluechecker.py:54-79 | under rounding to nearest the one multiple of the step strictly within half a step is the result |
| `Rounding.DoublesAreNearest` | src/device_sdk_py/internal/transformer/transformvaluechecker.py:54-79 | the law of rounding to nearest can be met, in neighbouring binades at once |
| `Rounding.LeastValueWraps` | src/device_sdk_py/internal/transformer/transformresult.py:230-251 | a silent wrap-around below 64 bits, under rounding to nearest: Int8 -128 written with the double nearest to -1.6 stays -128, because the quotient just below 80 rounds to 80 |
| `Rounding.LargestValueWraps` | src/device_sdk_py/internal/transformer/transformresult.py:254-275 | a silent wrap-around with 64 bits, under rounding to nearest: the largest Int64 read with offset 1 is the least |
| `RoundTrip.ReadOutcome` | src/device_sdk_py/internal/transformer/transformresult.py:278-315 | for types up to 32 bits without base and with integral scale and offset, the float read pipeline computes the integer semantics: mask, shift, multiply, add, or overflow |
| `RoundTrip.WriteOutcome` | src/device_sdk_py/internal/transformer/transformparam.py:98-137 | the float write pipeline computes the integer semantics: limits, subtract, divide exactly, shift, mask |
| `RoundTrip.SurvivesIff` | src/device_sdk_py/internal/transformer/transformresult.py:159-183 | masking and shifting back returns the descaled value if and only if no set bit falls outside the type, the mask or the shift |
| `RoundTrip.WriteThenRead` | src/device_sdk_py/internal/transformer/transformparam.py:115-137 | whenever a write is accepted, reading its result gives the written value back if and only if the descaled value survives its bit field |
| `RoundTrip.ReadThenWrite` | src/device_sdk_py/internal/transformer/transformresult.py:298-315 | writing back a reading never fails and leaves the device value masked with the shifted-out bits cleared |
| `RoundTrip.SettledExact` | src/device_sdk_py/internal/transformer/transformresult.py:159-183 | for shifts inside the type that device value is v AND mask with the low bits cleared, untruncated |
| `RoundTrip.SettledIdempotent` | src/device_sdk_py/internal/transformer/transformresult.py:159-183 | settling twice is settling once, for every non-negative shift |
| `RoundTrip.SettledReadsSame` | src/device_sdk_py/internal/transformer/transformresult.py:298-315 | for every non-negative shift, the settled value reads the same as a readable original if and only if the shift is below the width or the masked value is not negative |
| `RoundTrip.DecodeSettled` | src/device_sdk_py/internal/transformer/transformresult.py:174-183 | otherwise the original decodes to -1 and the settled value is zero |
| `RoundTrip.WriteBackTwice` | src/device_sdk_py/internal/transformer/transformparam.py:122-137 | for every non-negative shift, reading and writing back a second time is accepted and gives the same device value if and only if no sign is lost, or the offset fits the type and the limits |
| `TransformExamples.LostSignReadsZero` | src/device_sdk_py/internal/transformer/transformresult.py:174-183 | a concrete lost sign: Int8 with shift 8 reads -1 as -1, writes back 0, and reads 0 |
| `TransformExamples.LostSignOverflows` | src/device_sdk_py/internal/transformer/transformresult.py:174-183 | with scale 100 and offset 200 the value written back cannot be read any more |
| `Numerals.ParseIntOfStr` | src/device_sdk_py/internal/application/command.py:807-836 | parsing an integer undoes printing it |
| `Numerals.StrInjective` | src/device_sdk_py/internal/transformer/transform.py:85-95 | different integers have different texts |
| `Numerals.StrGrows` | src/device_sdk_py/internal/transformer/transform.py:85-95 | decimal text: one digit below ten, one more digit for a multiple of ten plus a digit, a minus sign in front of a negative number |
| `Numerals.ParseDigitsIff` | src/device_sdk_py/internal/application/command.py:807-836 | unsigned digits are accepted if and only if they begin and end with a digit and have only single underscores in between |
| `Numerals.ParseDigitsStep` | src/device_sdk_py/internal/application/command.py:807-836 | one more digit means ten times the number plus the digit, with or without an underscore before it |
| `Numerals.ParseSignedIs` | src/device_sdk_py/internal/application/command.py:807-836 | one sign is allowed in front; a minus sign negates |
| `Numerals.TrimIs` | src/device_sdk_py/internal/application/command.py:822-823 | stripping removes characters of the cut set only, and all of them at both ends |
| `Numerals.SplitJoins` | src/device_sdk_py/internal/application/command.py:822-823 | the fields of a split, joined by commas, are the text, and none has a comma in it |
| `Coercion.CoercedIntegers` | src/device_sdk_py/internal/application/command.py:702-836 | a text is coerced to the integer n if and only if it parses to n and n lies in the type; blank text is taken for a string only |
| `Coercion.CoerceInType` | src/device_sdk_py/internal/application/command.py:681-780 | whatever text is coerced, an accepted integer, boolean or string lies in the declared type |
| `Coercion.CoerceOfStr` | src/device_sdk_py/internal/application/command.py:807-836 | every integer of a type is coerced from its own decimal text |
| `Coercion.ParseUintArray` | src/device_sdk_py/internal/application/command.py:819-824 | the field loop returns the list of parsed fields or the conversion error of the first bad one |
| `Coercion.AcceptedArray` | src/device_sdk_py/internal/application/command.py:819-824 | whatever array text is accepted has one element of the type per comma-separated field |
| `Coercion.ArrayRoundTrip` | src/device_sdk_py/internal/application/command.py:702-824 | parsing undoes printing for every nonempty list of naturals of the type |
| `Coercion.EmptyArrayRejected` | src/device_sdk_py/internal/application/command.py:819-824 | the printed empty list is rejected |
| `Commands.CoerceRequests` | src/device_sdk_py/internal/application/command.py:506-545 | the loop over the ResourceOperations builds one new CommandValue per operation, or stops at the first error |
| `Commands.TransformParameters` | src/device_sdk_py/internal/application/command.py:547-559 | the write transformation of every CommandValue in place, or the first error |
| `Commands.ConvertOne` | src/device_sdk_py/internal/transformer/transform.py:248-300 | one CommandValue to its reading: read transformation, overflow text, assertion, mapping |
| `Commands.CommandValuesToEvent` | src/device_sdk_py/internal/transformer/transform.py:212-322 | the event of a list of CommandValues: their readings in order, no event for none, or the first error |
| `Commands.WriteDeviceCommand` | src/device_sdk_py/internal/application/command.py:484-568 | what the driver is given and what the command returns, for every request, permission, default, mapping and driver outcome |
| `Commands.WriteDeviceResource` | src/device_sdk_py/internal/application/command.py:429-481 | the same for a single DeviceResource |
| `CommandLaws.WriteValueInType` | src/device_sdk_py/internal/transformer/transformparam.py:98-137 | for all eight integer types, every transformation parameter and any float behaviour, a successful write transformation leaves a value of the type |
| `CommandLaws.DriverSeesInType` | src/device_sdk_py/internal/application/command.py:484-568 | the driver sees one parameter per operation of a DeviceCommand, for the resource the operation names and with a value of the type that resource declares, with data transform on or off |
| `CommandLaws.DriverSeesResourceInType` | src/device_sdk_py/internal/application/command.py:429-481 | the same for a single DeviceResource |
| `CommandLaws.ShowsRequested` | src/device_sdk_py/internal/application/command.py:547-567 | the reading made from the write-transformed object is the decimal text of the coerced value if and only if the descaled value survives its bit field |
| `CommandLaws.ShowsUntransformed` | src/device_sdk_py/internal/application/command.py:547-567 | with data transform off the reading is always the decimal text of the coerced value |
| `CommandLaws.EventShowsRequest` | src/device_sdk_py/internal/application/command.py:484-568 | the event of a successful DeviceCommand has one reading per operation, each the decimal text of its coerced request value |
| `CommandLaws.RequestedNumberShown` | src/device_sdk_py/internal/application/command.py:429-481 | end to end: a client that sends x, as a number or text, sees x in the event if and only if x survives its bit field |
| `CommandLaws.UnmapIs` | src/device_sdk_py/internal/application/command.py:531-537 | the write direction of a mapping turns a mapped text into a key of that text and keeps anything else |
| `CommandLaws.MappedTextShown` | src/device_sdk_py/internal/application/command.py:531-567 | a client that writes a mapped text is shown that text if and only if the value it stands for survives its bit field and the first operation of the resource in the profile maps it back |
| `CommandLaws.MappedEventShows` | src/device_sdk_py/internal/application/command.py:484-568 | the same in the event of a whole DeviceCommand, at the place of the operation |
| `CommandLaws.OwnMappingShows` | src/device_sdk_py/internal/transformer/transform.py:282-293 | with distinct keys, the command's own operation maps back what it mapped |
| `CommandOutcomes.ValueInOrder` | src/device_sdk_py/internal/application/command.py:516-529 | the value of an operation is the requested one, else its own default, else the default of the resource, else an error |
| `CommandOutcomes.CoercedTexts` | src/device_sdk_py/internal/application/command.py:798-804 | exactly six texts are taken for true and six for false |
| `CommandOutcomes.CoercionErrors` | src/device_sdk_py/internal/application/command.py:506-545 | a ServerError if and only if the resource or the value is missing; otherwise a ContractInvalid if and only if the unmapped text cannot be coerced |
| `CommandOutcomes.WriteErrors` | src/device_sdk_py/internal/application/command.py:609-617 | a failed write transformation is a ContractInvalid, or escapes |
| `CommandOutcomes.OutsideNeverDriven` | src/device_sdk_py/internal/transformer/transformparam.py:62-95 | when the driver is called, no request value of the command was outside the limits of its resource |
| `CommandOutcomes.OutsideResourceNeverDriven` | src/device_sdk_py/internal/transformer/transformparam.py:62-95 | a single value outside the limits is a ContractInvalid and never reaches the driver |
| `CommandOutcomes.ReadingIs` | src/device_sdk_py/internal/transformer/transform.py:264-300 | a reading fails if and only if there is an assertion that is not the text of the value; it shows the mapped text as a String, else the value |
| `CommandOutcomes.ReadBack` | src/device_sdk_py/internal/transformer/transform.py:248-263 | with data transform a reading shows the transformed number, or the text overflow |
| `CommandOutcomes.DrivenIff` | src/device_sdk_py/internal/application/command.py:484-561 | the driver is called if and only if the command may write, is not too long, and every operation is coerced and transformed |
| `CommandOutcomes.NotPermitted` | src/device_sdk_py/internal/application/command.py:484-504 | a read-only command is NotAllowed and one with too many operations a ServerError, whatever is asked |
| `CommandOutcomes.DriverFailure` | src/device_sdk_py/internal/application/command.py:597-606 | once the parameters are ready a driver failure is exactly a ServerError, and an earlier failure is what is reported |
| `CommandOutcomes.CommandOkIff` | src/device_sdk_py/internal/application/command.py:484-568 | a DeviceCommand succeeds if and only if permission, length, coercion and write transformation are in order, the driver does not fail, and it is write-only or every reading succeeds; it publishes if and only if it is not write-only and has operations, one reading each |
| `CommandOutcomes.ResourceOkIff` | src/device_sdk_py/internal/application/command.py:429-481 | a single DeviceResource write succeeds, and publishes, exactly like a command of one operation without mapping or default |
| `Escapes.WriteRaisesIff` | src/device_sdk_py/internal/transformer/transformparam.py:98-137 | a write transformation raises an exception outside the TransformerError family if and only if it gets past the limits and the offset to a zero scale, or further to a logarithm that fails |
| `Escapes.ReadRaisesIff` | src/device_sdk_py/internal/transformer/transformresult.py:278-315 | a read transformation does if and only if its power fails |
| `Escapes.CommandEscapes` | src/device_sdk_py/internal/application/command.py:252-305 | a DeviceCommand ends with an exception that is no EdgexError if and only if, in order, one of its writes raises so, or the driver has succeeded and one of the readings does |
| `Escapes.ResourceEscapes` | src/device_sdk_py/internal/application/command.py:429-481 | the same for a single DeviceResource |
| `Escapes.ZeroScaleEscapes` | src/device_sdk_py/internal/application/command.py:609-617 | with a scale of zero every number asked for ends so, whatever the driver |
| `AutoEvents.AutoEventExecutor.RenewLastReadings` | src/device_sdk_py/internal/autoevent/executor.py:271-277 | the remembered readings are those of the batch, later samples replacing earlier ones |
| `AutoEvents.AutoEventExecutor.CompareReadings` | src/device_sdk_py/internal/autoevent/executor.py:231-269 | memory, changed readings and verdict of one comparison |
| `AutoEvents.AutoEventExecutor.ExecuteOnce` | src/device_sdk_py/internal/autoevent/executor.py:198-229 | memory and sent batch of one execution, also for failed and empty reads |
| `Staleness.CompareCases` | src/device_sdk_py/internal/autoevent/executor.py:231-269 | a comparison either starts afresh with the whole batch or keeps exactly the samples that differ |
| `Staleness.StepKeeps` | src/device_sdk_py/internal/autoevent/executor.py:198-277 | one execution keeps the relation between the memory, the receiver and the latest reading |
| `Staleness.RunKeeps` | src/device_sdk_py/internal/autoevent/executor.py:198-277 | so does every run, with failed and empty reads in between |
| `Changes.SentIff` | src/device_sdk_py/internal/autoevent/executor.py:198-269 | with proper samples remembered, an on-change execution sends nothing if and only if no sample is further away than the threshold, has another checksum or another value; otherwise it sends the moved samples in order, or the whole batch, by mode |
| `Changes.RememberedAfter` | src/device_sdk_py/internal/autoevent/executor.py:257-269 | afterwards the moved samples are remembered anew and the others as before |
| `Changes.FreshWhenUnknown` | src/device_sdk_py/internal/autoevent/executor.py:231-256 | with other names or a missing value in memory the whole batch is sent and remembered |
| `Changes.SameTwiceSendsNothing` | src/device_sdk_py/internal/autoevent/executor.py:198-277 | after any run, the same batch read twice in a row sends nothing the second time and changes nothing |
| `Changes.NumericDiffers` | src/device_sdk_py/internal/autoevent/executor.py:231-269 | numeric samples differ if and only if their numbers are further apart than the threshold |
| `Staleness.BoundedStaleness` | src/device_sdk_py/internal/autoevent/executor.py:198-277 | over every run a receiver that overlays all batches is within the threshold of the latest reading when changes are sent, and within twice the threshold when whole batches are |
| `Staleness.AlwaysSentExact` | src/device_sdk_py/internal/autoevent/executor.py:198-229 | without on-change the receiver always has the latest reading exactly |
| `Staleness.BoundAttained` | src/device_sdk_py/internal/autoevent/executor.py:198-277 | for every threshold there is a run for which no bound below twice the threshold holds in whole-batch mode |
| `Staleness.ChangedOnlyBoundAttained` | src/device_sdk_py/internal/autoevent/executor.py:198-277 | and one for which no bound below the threshold holds in changed-only mode |
| `Durations.ParseBody` | src/device_sdk_py/internal/autoevent/executor.py:94-116 | the two nested loops terminate and compute the sum of the terms or the error |
| `Durations.ParseDuration` | src/device_sdk_py/internal/autoevent/executor.py:72-120 | sign, "0" and body |
| `Durations.DurationGrammar` | src/device_sdk_py/internal/autoevent/executor.py:72-120 | the parser accepts a text with a value if and only if the text is "0" or "-0" with value zero, or an optional sign and one or more decimal-unit terms with their signed sum |
| `Durations.DurationAdditive` | src/device_sdk_py/internal/autoevent/executor.py:94-116 | the values of unsigned bodies add up under concatenation |
| `DurationUnits.UnitTexts` | src/device_sdk_py/internal/autoevent/executor.py:51-60 | the unit texts are ns, us in its three spellings, ms, s, m and h, and no others |
| `DurationUnits.UnitValues` | src/device_sdk_py/internal/autoevent/executor.py:51-116 | a printed natural n followed by a unit text parses to n of that unit in seconds |
| `DurationUnits.UnitRatios` | src/device_sdk_py/internal/autoevent/executor.py:51-60 | n hours are 60 n minutes, minutes 60 seconds, and each smaller unit a thousandth |
| `DurationUnits.SignedValues` | src/device_sdk_py/internal/autoevent/executor.py:82-120 | a minus sign negates and a plus sign changes nothing |
| `DurationUnits.NumeralGrammar` | src/device_sdk_py/internal/autoevent/executor.py:94-104 | a numeral is digits with at most one point among them and at least one digit |
| `DurationUnits.WholeNumeral` | src/device_sdk_py/internal/autoevent/executor.py:94-104 | digits without a point are the integer that they parse to |
| `DurationUnits.PointedNumeral` | src/device_sdk_py/internal/autoevent/executor.py:94-104 | a decimal fraction of k digits, scaled by 10^k, is the integer of its digits |
| `Schedule.Run` | src/device_sdk_py/internal/autoevent/executor.py:178-196 | the fixed-rate loop: each execution begins no earlier than its slot, and all but the last before the stop, so at most one after it |
| `Schedule.GoesIs` | src/device_sdk_py/internal/autoevent/executor.py:185-196 | a turn executes if and only if it begins before the stop and, when it had to wait, the wait ends before the stop |
| `Schedule.RateLimit` | src/device_sdk_py/internal/autoevent/executor.py:182-196 | by time t at most floor((t - t0) / interval) executions have begun |
| `AutoEventManager.AutoEventManager.StartForDevice` | src/device_sdk_py/internal/autoevent/manager.py:114-157 | one executor per schedulable auto event, in order, added after those already stored for the device; the executors that run stay the stored ones |
| `AutoEventManager.AutoEventManager.StopForDevice` | src/device_sdk_py/internal/autoevent/manager.py:96-109 | the executors of the device are removed and stopped, and no others |
| `AutoEventManager.AutoEventManager.RestartForDevice` | src/device_sdk_py/internal/autoevent/manager.py:70-82 | afterwards the device has exactly its schedulable executors, or none when it left the cache |
| `AutoEventManager.AutoEventManager.StartAutoEvents` | src/device_sdk_py/internal/autoevent/manager.py:62-68 | every device gets its schedulable executors; those stored before are forgotten while they run: the live executors are the stored ones if and only if none was stored and none forgotten |
| `AutoEventManager.AutoEventManager.OneStart` | src/device_sdk_py/internal/autoevent/manager.py:62-109 | after one start of a new manager and any restarts and stops, the live executors are exactly the stored ones |
| `AutoEventManager.SchedulableIs` | src/device_sdk_py/internal/autoevent/manager.py:114-157 | the sources started are those of the scheduled auto events, each once and in order, and none for a device that is locked or DOWN |
| `AutoEventManager.AutoEventManager.StopAll` | src/device_sdk_py/internal/autoevent/manager.py:84-94 | nothing stored is left running |
| `Origins.OriginSource.GetUniqueOrigin` | src/device_sdk_py/internal/transformer/transform.py:59-71 | the clock, or one more than the previous origin |
| `Origins.OriginIsMax` | src/device_sdk_py/internal/transformer/transform.py:59-71 | for any clock the n-th origin is the maximum of clock_i + (n - i) over i and the previous origin plus n |
| `Origins.OriginsIncrease` | src/device_sdk_py/internal/transformer/transform.py:59-71 | origins strictly increase |
| `Devices.DeviceCache.ForName` | src/device_sdk_py/internal/cache/devices.py:56-66 | a fresh clone of the stored device |
| `Devices.DeviceCache.Add` | src/device_sdk_py/internal/cache/devices.py:73-88 | the cache stores the caller's object; a duplicate changes nothing; the last-connected keys stay the device keys |
| `Devices.DeviceCache.RemoveByName` | src/device_sdk_py/internal/cache/devices.py:101-116 | both maps lose the name, or nothing changes |
| `Devices.DeviceCache.Update` | src/device_sdk_py/internal/cache/devices.py:90-99 | the object is replaced and its last-connected time reset, or nothing changes |
| `Devices.DeviceCache.SetLastConnected` | src/device_sdk_py/internal/cache/devices.py:161-170 | only known devices get a time |
| `Metadata.WireRoundTrip` | src/device_sdk_py/internal/metadata/dto.py:133-177 | reading the wire form of a device with absent fields as defaults gives every kept attribute back |
| `Metadata.WireCarries` | src/device_sdk_py/internal/metadata/dto.py:133-177 | the wire form has a field if and only if the attribute is not empty, and carries it unchanged |
| `DeviceService.AddOutcome` | src/device_sdk_py/service/device_service.py:208-245 | when an add is a duplicate, refused or done, and which id it returns |
| `DeviceService.PatchOutcome` | src/device_sdk_py/service/device_service.py:2418-2448 | when a patch finds no device, cannot be encoded, is refused or is done |
| `DeviceService.DeleteOutcome` | src/device_sdk_py/service/device_service.py:2450-2470 | when a delete finds no device, is refused or is done |
| `DeviceService.StepAgreement` | src/device_sdk_py/service/device_service.py:2390-2470 | from agreeing stores, one add, patch or delete leaves them agreeing if and only if it is not a validated patch that changes something and carries AutoEvent objects |
| `DeviceService.RunAgrees` | src/device_sdk_py/service/device_service.py:2390-2470 | over every run, cache and Core Metadata agree on names and kept attributes at every moment if and only if no step is such a patch |
| `DeviceService.RunWithoutAutoEventPatch` | src/device_sdk_py/internal/metadata/dto.py:203-216 | in particular whenever no patch carries AutoEvent objects |
| `DeviceService.UpdateWithAutoEvents` | src/device_sdk_py/service/device_service.py:268-314 | `update_device` on a device with auto events never reaches Core Metadata, and separates the stores whenever it changes anything |
| `Metadata.ApplyIdempotent` | src/device_sdk_py/internal/metadata/dto.py:203-216 | patching twice is patching once |
| `Metadata.EmptyPatch` | src/device_sdk_py/service/device_service.py:2432-2436 | the empty patch changes nothing |
| `Metadata.ApplyPatches` | src/device_sdk_py/service/device_service.py:2432-2436 | attribute by attribute: what the patch gives is set and what it leaves out stays |
| `Metadata.DifferenceTurns` | src/device_sdk_py/service/device_service.py:2432-2436 | patching what two devices differ in turns one into the other if and only if no location has to be taken away |
| `Metadata.PatchesMerge` | src/device_sdk_py/service/device_service.py:2432-2436 | two patches in a row are one patch in which the later one has precedence |
| `DeviceService.TwoPatches` | src/device_sdk_py/service/device_service.py:2418-2448 | two accepted patches in a row leave both stores as the merged patch does |
| `Metadata.FullUpdateReplaces` | src/device_sdk_py/service/device_service.py:268-291 | a full update makes a device equal to the given one if and only if the service name is the same and no location has to be taken away; otherwise exactly those two stay |
| `DeviceService.DoneIsVisible` | src/device_sdk_py/service/device_service.py:2390-2470 | a successful add, patch or delete shows in both stores: the device with the reported id and what Core Metadata reads of it, every attribute given by the patch and every other one as it was, or no device |
| `DeviceService.OthersUntouched` | src/device_sdk_py/service/device_service.py:2390-2470 | no operation, successful or not, touches another name in either store |
| `DeviceService.Service.AddDeviceToMetadata` | src/device_sdk_py/service/device_service.py:2390-2416 | on shared objects: the new state of both stores; on success the cached object is the caller's and carries the returned id; on failure both maps of the cache are the old ones |
| `DeviceService.Service.AddDevice` | src/device_sdk_py/service/device_service.py:208-245 | the same with the duplicate check and the service name |
| `DeviceService.Service.PatchDevice` | src/device_sdk_py/service/device_service.py:2418-2448 | the new state of both stores; the stored object is a fresh clone, the last-connected time is reset, and a failed validation changes nothing |
| `DeviceService.Service.DeleteDevice` | src/device_sdk_py/service/device_service.py:2450-2470 | the new state of both stores; a refused delete puts a clone back |
| `ProfileService.ProfileStore.AddProfile` | src/device_sdk_py/service/device_service.py:2472-2494 | on success the cached profile carries the returned id, given, generated or assigned; a refused add leaves the profile map and both indexes exactly as they were; agreement is kept |
| `ProfileService.AddedIdIs` | src/device_sdk_py/service/device_service.py:2472-2494 | the id that Core Metadata assigns, else the caller's, else a new one |
| `ProfileService.ProfileStore.UpdateProfile` | src/device_sdk_py/service/device_service.py:2496-2515 | the same for an update |
| `ProfileService.ProfileStore.DeleteProfile` | src/device_sdk_py/service/device_service.py:2517-2536 | the same for a delete |
| `WatcherService.WatcherStore.AddWatcher` | src/device_sdk_py/service/device_service.py:489-562 | on success the cached watcher is the caller's object with the service name and the returned id; on failure both stores are as before |
| `WatcherService.WatcherStore.UpdateWatcher` | src/device_sdk_py/service/device_service.py:2564-2584 | a refused update leaves the old content under the name and nothing else changed |
| `WatcherService.WatcherStore.DeleteWatcher` | src/device_sdk_py/service/device_service.py:2586-2605 | a refused delete puts a clone back |
| `Dicts.GetIndex` | src/device_sdk_py/internal/cache/profiles.py:52-66 | a lookup in the built index finds the last list entry of the name |
| `Dicts.LastNamedIs` | src/device_sdk_py/internal/cache/profiles.py:52-66 | that entry has the name and no later one does |
| `Profiles.DeviceProfileCache.constructor` | src/device_sdk_py/internal/cache/profiles.py:40-50 | the loading loop gives coherent maps, later profiles replacing earlier ones |
| `Profiles.DeviceProfileCache.ResourceSliceToMap` | src/device_sdk_py/internal/cache/profiles.py:52-59 | the index-building loop over resources |
| `Profiles.DeviceProfileCache.CommandSliceToMap` | src/device_sdk_py/internal/cache/profiles.py:60-66 | the index-building loop over commands |
| `Profiles.DeviceProfileCache.Add` | src/device_sdk_py/internal/cache/profiles.py:85-113 | coherence is kept; a duplicate changes nothing |
| `Profiles.DeviceProfileCache.CheckAndAdd` | src/device_sdk_py/internal/cache/profiles.py:94-102 | a known name changes nothing |
| `Profiles.DeviceProfileCache.RemoveByName` | src/device_sdk_py/internal/cache/profiles.py:126-142 | coherence is kept; an unknown name changes nothing |
| `Profiles.DeviceProfileCache.Update` | src/device_sdk_py/internal/cache/profiles.py:115-124 | coherence is kept; an unknown name changes nothing |
| `Profiles.IndexesDetermined` | src/device_sdk_py/internal/cache/profiles.py:104-113 | the two indexes of a coherent cache are functions of its profiles alone |
| `Profiles.DeviceProfileCache.DeviceResource` | src/device_sdk_py/internal/cache/profiles.py:144-156 | the last resource of that name in the profile |
| `Profiles.DeviceProfileCache.DeviceCommand` | src/device_sdk_py/internal/cache/profiles.py:182-194 | the last command of that name in the profile |
| `Profiles.DeviceProfileCache.ResourceOperation` | src/device_sdk_py/internal/cache/profiles.py:196-212 | the nested search equals the first operation over the indexed commands |
| `Profiles.FirstOperationIs` | src/device_sdk_py/internal/cache/profiles.py:196-212 | the operation found in a list is on the resource and no earlier one is; none is found if and only if none is on it |
| `Profiles.ScanIsFirst` | src/device_sdk_py/internal/cache/profiles.py:196-212 | the nested search is the search of all operations in order |
| `Profiles.LoadedIsLast` | src/device_sdk_py/internal/cache/profiles.py:40-50 | a loaded profile is the last of its name in the list |
| `Profiles.OperationIsLinearScan` | src/device_sdk_py/internal/cache/profiles.py:196-212 | with distinct command names it equals the first match of a linear scan of the profile |
| `Profiles.RepeatedCommandHidesOperation` | src/device_sdk_py/internal/cache/profiles.py:196-212 | without distinct names it need not: a concrete profile |
| `FailureTracker.Tracker.Initialize` | src/device_sdk_py/internal/application/command.py:136-146 | every known device starts with the allowed number of failures |
| `FailureTracker.Tracker.RequestFailed` | src/device_sdk_py/internal/application/command.py:149-172 | the count goes down by one, and reaching zero marks the device DOWN; other devices are untouched |
| `FailureTracker.Tracker.RequestSucceeded` | src/device_sdk_py/internal/application/command.py:175-191 | the count is restored and a DOWN device goes UP, or an EdgexError is raised when that patch is refused; other devices are untouched |
| `FailureTracker.Tracker.Command` | src/device_sdk_py/internal/application/command.py:228-245 | one request behind the operating-state gate: every way it can end for the caller, the refused patch after a success included |
| `FailureTracker.CountIs` | src/device_sdk_py/internal/application/command.py:127-191 | over every run the count is the allowed number minus the errors since the last success |
| `FailureTracker.DownIff` | src/device_sdk_py/internal/application/command.py:149-191 | a device is DOWN if and only if the errors since the last success reach the allowed number and no assertion failed after that |
| `FailureTracker.DownWithoutAssertions` | src/device_sdk_py/internal/application/command.py:149-191 | without failed assertions: if and only if they reach the allowed number |
| `FailureTracker.AssertionHidesDown` | src/device_sdk_py/internal/transformer/transform.py:270-276 | a concrete run in which a failed assertion leaves an exhausted device DISABLED instead of DOWN |
| `FailureTracker.GateIff` | src/device_sdk_py/internal/application/command.py:660-669 | with a down timeout the gate refuses exactly the request after the last allowed error |
| `FailureTracker.OneRefusal` | src/device_sdk_py/internal/application/command.py:660-669 | so it refuses at most one request between two successes |
| `FailureTracker.SuccessBetween` | src/device_sdk_py/internal/application/command.py:660-669 | between two refusals of the gate there is a success |
| `FailureTracker.GateOrder` | src/device_sdk_py/internal/application/command.py:635-678 | the lock is tested before the gate, the gate refuses exactly a DOWN device that is uncounted, without retry or just used up, and both count as an error |
| `FailureTracker.NothingCounted` | src/device_sdk_py/internal/application/command.py:149-172 | with no allowed number of failures nothing is ever counted and the device never goes DOWN |
| `FailureTracker.DownUncounted` | src/device_sdk_py/internal/application/command.py:660-669 | a DOWN device is then never tried again |
| `FailureTracker.PastTheGate` | src/device_sdk_py/internal/application/command.py:228-245 | what each way a request past the gate can end gives the caller, and when exactly a patch to UP is missed |
| `FailureTracker.DownForever` | src/device_sdk_py/internal/application/command.py:660-669 | without a timeout a device that is DOWN is never tried again |
| `FailureTracker.UntrackedNeverDown` | src/device_sdk_py/internal/application/command.py:120-172 | a device that the tracker does not know never goes DOWN before its first success |
| `FailureTracker.MissedPatch` | src/device_sdk_py/internal/application/command.py:149-172 | after the count has passed zero without the DOWN patch, further failures never mark the device DOWN |
| `FailureTracker.UnrestoredStaysDown` | src/device_sdk_py/internal/application/command.py:175-191 | a refused patch to UP leaves a full count on a DOWN device |
| `FailureTracker.MissedUpPatch` | src/device_sdk_py/internal/application/command.py:175-191 | and then any number of successes leaves it DOWN |
| `FailureTracker.ErrorRestores` | src/device_sdk_py/internal/application/command.py:175-191 | until an error: then the next success tries the patch again, or the one after it when only one error is allowed |
| `CoreData.CoreDataClient.CheckCircuitBreaker` | src/device_sdk_py/internal/clients/data.py:139-150 | closed, or half-open more than thirty seconds after the last failure |
| `CoreData.CoreDataClient.RecordFailure` | src/device_sdk_py/internal/clients/data.py:152-159 | the fifth failure opens the circuit |
| `CoreData.CoreDataClient.RecordSuccess` | src/device_sdk_py/internal/clients/data.py:161-165 | a success closes it |
| `CoreData.CoreDataClient.Post` | src/device_sdk_py/internal/clients/data.py:167-275 | one send: raised, dropped, delivered or failed; what cannot be encoded fails inside the `try` |
| `CoreData.CoreDataClient.SendEvent` | src/device_sdk_py/internal/clients/data.py:167-216 | `send_event`, for an event with or without a `model_dump` method |
| `CoreData.CoreDataClient.FlushQueue` | src/device_sdk_py/internal/clients/data.py:227-241 | at most fifty events leave the queue, whatever becomes of their request; only an exception puts them back, at the front |
| `CoreData.CoreDataClient.SendEventAsync` | src/device_sdk_py/internal/clients/data.py:218-225 | append, and flush from fifty on |
| `CoreData.OpenIff` | src/device_sdk_py/internal/clients/data.py:139-165 | over every run the circuit is open if and only if five failures are on record, and there are never more |
| `CoreData.DroppedIff` | src/device_sdk_py/internal/clients/data.py:139-150 | over every run a send is dropped if and only if the failures since the last delivery are a positive multiple of five and the last was at most thirty seconds ago |
| `CoreData.DeliveredIff` | src/device_sdk_py/internal/clients/data.py:167-216 | a send that is neither raised nor dropped is delivered if and only if it can be encoded and the request succeeds; delivery closes the circuit, failure is counted |
| `CoreData.FlushTakes` | src/device_sdk_py/internal/clients/data.py:227-241 | a flush takes the first fifty events or all, and nothing when the provider raises |
| `CoreData.EnqueueFlushes` | src/device_sdk_py/internal/clients/data.py:218-225 | the fiftieth queued event flushes and fewer do not |
| `CoreData.FailuresAreSpaced` | src/device_sdk_py/internal/clients/data.py:139-216 | failed sends i to j without a delivery in between span at least thirty seconds for every multiple of five crossed; from the first to the k-th that is 30 * floor((k - 1) / 5) |
| `CoreData.CallsAreSpaced` | src/device_sdk_py/internal/clients/data.py:139-275 | the same over every run of single sends, enqueued events and flushes together |
| `CoreData.QueueConserves` | src/device_sdk_py/internal/clients/data.py:218-275 | over every run the batches that left the queue, followed by the pending events, are the enqueued ones in order and once each, in batches of one to fifty, and each batch is delivered or lost |
| `CoreData.NothingLostIff` | src/device_sdk_py/internal/clients/data.py:227-275 | nothing is lost if and only if no flush of a queue that is not empty is dropped by the open breaker or fails |
| `CoreData.FailingFlushLoses` | src/device_sdk_py/internal/clients/data.py:218-275 | a losing input: fifty enqueued events and one failing request lose all fifty |
| `CoreData.SdkSendFails` | src/device_sdk_py/internal/transformer/transform.py:129-149 | an event of the SDK, a plain dataclass, is never delivered: past provider and breaker its send always fails |
| `CoreData.SdkEventsLost` | src/device_sdk_py/internal/clients/data.py:243-275 | over every run of such events nothing is delivered: the lost events followed by the pending ones are the enqueued ones |
| `CoreData.QueueBounded` | src/device_sdk_py/internal/clients/data.py:218-241 | the queue is shorter than fifty plus the number of calls whose token provider raised |
| `Messaging.TopicInjective` | src/device_sdk_py/internal/controller/messaging/command.py:82-88 | different request ids have different response topics |
| `Messaging.StepKeepsPermits` | src/device_sdk_py/internal/controller/messaging/command.py:180-203 | free permits, live workers, the permit in hand and the permits of threads that did not start always add up to the limit |
| `Messaging.RunKeeps` | src/device_sdk_py/internal/controller/messaging/command.py:180-372 | over every interleaving that sum holds, every request has at most one response, each response is on the topic of its own request, and it is an error if and only if the service was busy or the command failed |
| `Messaging.StepTellsErrors` | src/device_sdk_py/internal/controller/messaging/command.py:195-372 | a response is an error if and only if the service was busy or the command failed; a command that escapes has no other response |
| `Messaging.RejectedOnlyWhenBusy` | src/device_sdk_py/internal/controller/messaging/command.py:195-203 | a request is refused as busy if and only if every permit is taken |
| `Messaging.RunAccounts` | src/device_sdk_py/internal/controller/messaging/command.py:205-372 | without lost publishes and threads, every command request taken so far whose command does not escape is answered or in hand |
| `Messaging.QuietRun` | src/device_sdk_py/internal/controller/messaging/command.py:205-372 | and once nothing is in hand all permits are back and every such request has its one response |
| `Messaging.NeverStuck` | src/device_sdk_py/internal/controller/messaging/command.py:180-372 | while a request is untaken or in hand some thread can take a step |
| `Messaging.RunBounded` | src/device_sdk_py/internal/controller/messaging/command.py:180-372 | no interleaving has more than five steps for each request |
| `Messaging.RunCompletes` | src/device_sdk_py/internal/controller/messaging/command.py:180-372 | every run can go on until every request was taken and nothing is in hand, without further lost publishes or threads |
| `Discovery.CountMatched` | src/device_sdk_py/service/device_service.py:1700-1711 | the counting loop reaches the number of identifiers if and only if all of them match |
| `Discovery.FindBlocked` | src/device_sdk_py/service/device_service.py:1713-1721 | the block-list loop |
| `Discovery.MatchProvisionWatcher` | src/device_sdk_py/service/device_service.py:1691-1724 | true if and only if there are identifiers and some protocol matches all of them and hits no block list |
| `Discovery.MatchesMeans` | src/device_sdk_py/service/device_service.py:1691-1724 | in terms of the protocols: some one protocol has a nonempty matching value for every identifier and no value on a block list |
| `Discovery.FirstWatcherIs` | src/device_sdk_py/service/device_service.py:1658-1661 | the watcher that decides matches, is not locked, and comes before every other such |
| `Discovery.FieldsFrom` | src/device_sdk_py/service/device_service.py:1669-1680 | which attributes of the new device come from the discovery, from the watcher and from the service |
| `Discovery.ProcessDiscoveredDevices` | src/device_sdk_py/service/device_service.py:1646-1689 | the nested loops add, for each entry in turn, the device of its first matching unlocked watcher |
| `Discovery.DiscoveryAdds` | src/device_sdk_py/service/device_service.py:1655-1689 | known devices are left alone; a new name is added once, from its first entry with a matching unlocked watcher that Core Metadata accepts, with the first such watcher |

## Left out

- Floating-point value types (Float32, Float64), NaN results and the inverse relation of the `base` transformation: the library functions are parameters. The integer results rest on two stated facts about rounding, `Faithful` (integers up to 2^53 are exact, rounding is monotone) and `Accurate` (relative error below 2^-50).
- 64-bit integer types in the round-trip laws, whose float conversion is inexact; ScaleExactIff, OffsetExactIff and the driver-sees-its-type laws cover them.
- TransformReadResult: for the integer types only; Float32 and Float64 values and the NaN error are not modelled.
- TransformWriteParameter: for the integer types only; float values and their limits are not modelled.
- CoerceInType: integers, booleans and strings only; floats, binary values, objects and the arrays other than unsigned ones are not modelled.
- Transformation parameters that are infinite or NaN.
- Python's 4300-digit limit of `int`, its non-ASCII digits and white space.
- Signed, float, boolean, string and object arrays, objects and binary values in requests.
- A driver that changes its parameters while writing, or that returns one object twice from a read.
- Units, tags, media types and the origin of readings in events.
- A binary sample whose value is None: its checksum raises inside the executor, where the model asks for bytes. Binary readings agree up to the checksum.
- StepAgreement: takes a `MetadataError` as "nothing changed there", an accepted request as applied, and AutoEvent objects as unencodable by JSON; auto events given as plain documents are not modelled.
- `add_device_auto_event`, `remove_device_auto_event` and `initialize_resources`, which treat Core Metadata differently, and the system-event handlers.
- The wire form of profiles and provision watchers: Core Metadata is sent the value itself.
- Devices whose name is changed after they were added, and the loading of the device cache from a list.
- BoundedStaleness: assumes distinct resource names, one value type per name, non-null values, a threshold that is not negative, and exact arithmetic.
- DownIff: is about runs in which operating-state patches succeed; MissedPatch and MissedUpPatch show what one missed patch does. The tracker model holds the operating states itself instead of the device objects.
- The device-return loops and changes of the operating state from outside.
- Topic parsing and query parameters in the messaging controller: whether a topic is a command topic is a parameter. Event publishing after a response is left out.
- What a request to Core Data meets is a parameter; the flush thread and the final flush of `close` are left out.
- A wait that ends early without the stop flag; restarting one executor object.
- Concurrent calls of the caches, the service and the auto-event manager: only sequential runs are covered.
- Exceptions of `create_executor` are one flag per auto event; auto-event sources are not resolved against profiles.
- HTTP, JWT, TLS, MQTT, CBOR, JSON and base64 encodings, configuration and regular-expression engines.
