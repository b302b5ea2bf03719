# Booking module of DentitasTemplate, modelled in Dafny

This project models the booking core of a dental-clinic web application:

- the booking aggregate and its lifecycle;
- the value objects: time range, actor and slot request;
- the domain errors;
- the layered configuration service, with its feature flags;
- the two time policies and the policy engine that runs them;
- the schedule-driven availability engine and the older fixed-hours availability service;
- the mapper from database rows to bookings;
- the repository over the bookings table;
- the booking wizard's store and the patient form's validation schema.

Instants are integers of milliseconds since the Unix epoch. Calendar days are integers counted from 1970-01-01. A time zone is a fixed offset in minutes, looked up by a function parameter `zoneOffset`. The database is a class holding a map from row id to row, with the exclusion constraint and the self-healing trigger written out as the table's semantics.

The model has three forms:

- **Functions.** Pure logic becomes functions over datatypes: ranges, policies, the merge, the mapper, the availability stages and the schema.
- **Classes.** Objects that change their fields become classes whose methods are proved against those functions: the booking entity, the configuration service, the policy engine, the bookings table and the wizard store.
- **Loops.** Loops in the source become methods with `while` loops proved equal to the specification function: `deepMerge`, the engine's walk, each availability stage and the legacy hour loop.

## Model

| member | source | states |
|---|---|---|
| Errors.TransitionReasonShown | src/modules/booking/domain/errors/booking.errors.ts:19-23 | A transition error's message ends in a parenthesised reason exactly when a non-empty reason was given. |
| Errors.NotFoundMessagesKeepId | src/modules/booking/domain/errors/booking.errors.ts:43-53 | The not-found messages carry the id. Distinct ids give distinct messages, and a booking message never equals a resource message. |
| TimeRanges.FromDates | src/modules/booking/domain/value-objects/time-range.vo.ts:7-17 | Succeeds exactly when start < end and keeps both bounds. Otherwise it fails with the "end after start" error. |
| TimeRanges.FromISO | src/modules/booking/domain/value-objects/time-range.vo.ts:19-28 | An unparseable bound gives the invalid-ISO error. The result is Ok exactly when both parse and are in order, and then holds the parsed instants. |
| TimeRanges.DurationMinutes | src/modules/booking/domain/value-objects/time-range.vo.ts:30-32 | A positive real equal to the span in milliseconds divided by 60000. |
| TimeRanges.ToText | src/modules/booking/domain/value-objects/time-range.vo.ts:40-42 | The text is `[`, the start's ISO form, a comma and space, the end's ISO form and `)`, each segment at its stated position. |
| TimeRanges.OverlapsIffSharedInstant | src/modules/booking/domain/value-objects/time-range.vo.ts:34-38 | The overlap test holds exactly when the two half-open intervals share an instant. |
| TimeRanges.OverlapsBasics | src/modules/booking/domain/value-objects/time-range.vo.ts:34-38 | Overlap is symmetric and reflexive, and touching intervals do not overlap. |
| TimeRanges.WithinOverlaps | src/modules/booking/domain/value-objects/time-range.vo.ts:34-38 | A sub-interval's overlap implies the enclosing interval's overlap. |
| BookingActors.Construct | src/modules/booking/domain/value-objects/booking-actor.vo.ts:17-22 | Succeeds exactly for a non-empty id, keeping the fields; otherwise the "id required" error. |
| BookingActors.Create | src/modules/booking/domain/value-objects/booking-actor.vo.ts:24-26 | Succeeds exactly for a non-empty id. Missing details become an empty object. |
| BookingActors.ToJson | src/modules/booking/domain/value-objects/booking-actor.vo.ts:29-35 | An object with exactly the keys type, id and details, holding the actor's values. |
| BookingActors.FromJson | src/modules/booking/domain/value-objects/booking-actor.vo.ts:37-42 | Null is a TypeError, and a falsy type or id is the "missing fields" error. On success the type and id came from the JSON and the details are the JSON's details when truthy, otherwise an empty object. |
| BookingActors.JsonRoundTrip | src/modules/booking/domain/value-objects/booking-actor.vo.ts:29-42 | Reading back a persisted actor with a type and truthy details gives the same actor. |
| BookingActors.FalsyDetailsBecomeEmpty | src/modules/booking/domain/value-objects/booking-actor.vo.ts:37-42 | Falsy persisted details come back as an empty object. |
| TimeSlotRequests.New | src/modules/booking/domain/value-objects/time-slot-request.vo.ts:19-25 | Succeeds exactly when fromISO does and fails with fromISO's error. Copies resource, type and metadata, and holds the parsed bounds. |
| Bookings.Admit | src/modules/booking/domain/entities/booking.entity.ts:136-144 | Refuses exactly a HELD booking without expiry, with HoldRequiresExpiry. Otherwise the result satisfies the invariant (expiry present iff HELD) and keeps the identity fields. |
| Bookings.HoldStep | src/modules/booking/domain/entities/booking.entity.ts:59-70 | Succeeds exactly from PENDING with an expiry after `now`, giving HELD with that expiry. Each refusal's error is stated. |
| Bookings.ConfirmStep | src/modules/booking/domain/entities/booking.entity.ts:72-86 | Succeeds exactly from PENDING, or from HELD before the expiry; the result is CONFIRMED with no expiry. A lapsed hold and a wrong state each give their own error. |
| Bookings.CancelStep | src/modules/booking/domain/entities/booking.entity.ts:88-103 | Succeeds exactly from a non-terminal state: CANCELLED, no expiry, reason recorded in the metadata. Otherwise the "already terminal" error. |
| Bookings.CompleteStep | src/modules/booking/domain/entities/booking.entity.ts:105-111 | Succeeds exactly from CONFIRMED, giving COMPLETED. Otherwise the stated error. |
| Bookings.NoShowStep | src/modules/booking/domain/entities/booking.entity.ts:113-119 | Succeeds exactly from CONFIRMED, giving NO_SHOW. Otherwise the stated error. |
| Bookings.TransitionsFollowGraph | src/modules/booking/domain/entities/booking.entity.ts:59-144 | Every successful transition follows an edge of the lifecycle graph. It keeps the invariant and the identity, and stamps updatedAt. Every transition but cancel leaves the metadata unchanged. |
| Bookings.EveryEdgeIsTaken | src/modules/booking/domain/entities/booking.entity.ts:59-119 | Every edge of the graph is reachable by some operation from a consistent state. |
| Bookings.TerminalIsAbsorbing | src/modules/booking/domain/entities/booking.entity.ts:59-119 | From a terminal state every operation fails with a transition error naming that state. |
| Bookings.ExpiredHoldOnlyCancels | src/modules/booking/domain/entities/booking.entity.ts:72-103 | A lapsed hold cannot be confirmed, and gives the "hold expired" error, but it can be cancelled. |
| Bookings.Booking.Data | src/modules/booking/domain/entities/booking.entity.ts:21-35 | The record of the object's fields. |
| Bookings.Booking.constructor | src/modules/booking/domain/entities/booking.entity.ts:37-50 | The object for admissible props holds the admitted record and is valid. |
| Bookings.Booking.Create | src/modules/booking/domain/entities/booking.entity.ts:37-50 | Fails exactly when Admit does. Otherwise gives a fresh valid object holding the admitted record. |
| Bookings.Booking.Hold | src/modules/booking/domain/entities/booking.entity.ts:59-70 | The new state is HoldStep's result on success. On failure the state is unchanged and the error is returned. A valid object stays valid. |
| Bookings.Booking.Confirm | src/modules/booking/domain/entities/booking.entity.ts:72-86 | The new state is ConfirmStep's result on success. On failure the state is unchanged and the error is returned. A valid object stays valid. |
| Bookings.Booking.Cancel | src/modules/booking/domain/entities/booking.entity.ts:88-103 | The new state is CancelStep's result on success. On failure the state is unchanged and the error is returned. A valid object stays valid. |
| Bookings.Booking.Complete | src/modules/booking/domain/entities/booking.entity.ts:105-111 | The new state is CompleteStep's result on success. On failure the state is unchanged and the error is returned. A valid object stays valid. |
| Bookings.Booking.MarkNoShow | src/modules/booking/domain/entities/booking.entity.ts:113-119 | The new state is NoShowStep's result on success. On failure the state is unchanged and the error is returned. A valid object stays valid. |
| Bookings.Booking.Touch | src/modules/booking/domain/entities/booking.entity.ts:123-125 | Only updatedAt changes. |
| Bookings.Booking.IsHoldExpired | src/modules/booking/domain/entities/booking.entity.ts:127-130 | True exactly for a HELD booking whose expiry is not after `now`. |
| Bookings.Booking.AddMetadata | src/modules/booking/domain/entities/booking.entity.ts:132-134 | Only the metadata changes, gaining the key. |
| ZonedTime.Weekday | src/modules/booking/application/services/smart-availability.service.ts:115 | The weekday number lies in 0..6, with 0 as Sunday. |
| ZonedTime.LocalDayIff | src/modules/booking/application/services/smart-availability.service.ts:98 | An instant falls on a zone day exactly when it lies between that day's midnight and the next. |
| ZonedTime.LocalDayOfZonedInstant | src/modules/booking/application/services/smart-availability.service.ts:152-157 | A clock time of a day, converted from the zone, falls on that day. |
| ZonedTime.LocalDayMonotone | src/modules/booking/application/services/smart-availability.service.ts:94 | Later instants never fall on earlier days. |
| ZonedTime.ParseClock | src/modules/booking/application/services/smart-availability.service.ts:152-157 | "HH:mm" parses to minutes within one day. |
| ZonedTime.FormatClock | src/modules/booking/application/services/smart-availability.service.ts:152-157 | The canonical clock text has five characters. |
| ZonedTime.ClockRoundTrip | src/modules/booking/application/services/smart-availability.service.ts:152-157 | Every time of day parses back from its canonical text, and that text is the only one that parses to it. |
| ZonedTime.ParseTimeInZone | src/modules/booking/application/services/smart-availability.service.ts:152-157 | Defined exactly when the clock text parses; the instant then falls on the given zone day. |
| ZonedTime.Pad | src/modules/booking/application/services/smart-availability.service.ts:98 | The padded text is at least the width and at least the input's length. |
| ZonedTime.PadZeros | src/modules/booking/application/services/smart-availability.service.ts:98 | The padded text is the input preceded by exactly as many zeros as it falls short of the width, and by none when it is long enough. |
| ZonedTime.DayStarts | src/modules/booking/application/services/smart-availability.service.ts:94 | Lists, in order, the start of each zone day from the window start's day to the window end's day. Each element is exactly the zone midnight of its day. |
| ZonedTime.CalendarSample | src/modules/booking/application/services/smart-availability.service.test.ts:51-84 | Day 19891 is Monday 2024-06-17 and begins at 1718582400000 in UTC. |
| ZonedTime.FormatSample | src/modules/booking/application/services/smart-availability.service.ts:98 | Day 19891 renders as "2024-06-17". |
| ConfigTypes.ValidateConfig | src/modules/booking/application/configuration/config.types.ts:38-55 | Passes exactly the well-formed configurations, returned unchanged. The errors come in the source's order: non-object root, then missing version, then bad featureFlags, then bad policies. Each is stated under the condition that the earlier checks passed. |
| ConfigTypes.DefaultIsValid | src/modules/booking/application/configuration/config.types.ts:17-35 | The defaults validate, and every validation error's message carries the ConfigValidation prefix. |
| FeatureFlags.DefaultFlag | src/modules/booking/application/extensions/feature-flags.interfaces.ts:45-50 | On exactly for the lead-time, max-advance and admin-block flags. |
| EnvFeatureFlags.ToEnvKey | src/modules/booking/application/extensions/env-feature-flag.provider.ts:26-30 | The key is the prefix followed by the upper-cased flag, with dots replaced by underscores. |
| EnvFeatureFlags.IsEnabled | src/modules/booking/application/extensions/env-feature-flag.provider.ts:13-24 | A set variable decides: on exactly when it reads "true" in any case. Without one, the code default applies. |
| EnvFeatureFlags.EnvKeyCollision | src/modules/booking/application/extensions/env-feature-flag.provider.ts:26-30 | "a.b", "a_b" and "A.B" share one variable. |
| EnvFeatureFlags.EnvValueSamples | src/modules/booking/application/extensions/env-feature-flag.provider.ts:13-24 | "TRUE" switches a flag on, "yes" switches it off, and no variable keeps the default. |
| ConfigService.Merge | src/modules/booking/application/configuration/config.service.ts:79-94 | A non-object target gives the source, and a non-object source gives the target. Otherwise each source key overrides, objects merge recursively and arrays replace. |
| ConfigService.SourceLeafWins | src/modules/booking/application/configuration/config.service.ts:79-94 | A non-object value the source sets at a path is the merged value there. |
| ConfigService.TargetSurvives | src/modules/booking/application/configuration/config.service.ts:79-94 | Where the source does not reach a path, the target's value survives. |
| ConfigService.MergeIdempotent | src/modules/booking/application/configuration/config.service.ts:79-94 | Merging an object with itself changes nothing. |
| ConfigService.LoadedConfig | src/modules/booking/application/configuration/config.service.ts:16-49 | A database failure is passed through. Otherwise the result is the validation of defaults, then the file layer, then the database layer if truthy; on success it is well formed. |
| ConfigService.LayersInOrder | src/modules/booking/application/configuration/config.service.ts:19-28 | A leaf the database layer sets wins over the file layer and the defaults; a leaf it leaves unset keeps the file layer's value. |
| ConfigService.FlagValue | src/modules/booking/application/configuration/config.service.ts:59-72 | A flag present in the configuration decides by its truthiness; otherwise the code default. |
| ConfigService.PolicyParams | src/modules/booking/application/configuration/config.service.ts:74-76 | Always truthy: the policy's entry when truthy, else an empty object. |
| ConfigService.PolicyEntry | src/modules/booking/application/configuration/config.service.ts:74-76 | The raw entry without a default: a truthy entry is returned as it is, and anything else gives null. |
| ConfigService.ConfigService.constructor | src/modules/booking/application/configuration/config.service.ts:6-14 | Starts with the defaults, not loaded. |
| ConfigService.ConfigService.Load | src/modules/booking/application/configuration/config.service.ts:16-49 | On success the current configuration becomes LoadedConfig and the service is loaded. On failure the error is returned and nothing changes. |
| ConfigService.DeepMerge | src/modules/booking/application/configuration/config.service.ts:79-94 | The key-by-key loop computes Merge. |
| SmartAvailability.Spread | src/modules/booking/application/services/smart-availability.service.ts:78 | Each top-level key the document holds replaces the default's with the document's value, read member by member (timezone, weeklyShifts, globalBreaks, exceptions). Each absent key keeps the default. |
| SmartAvailability.LoadSchedule | src/modules/booking/application/services/smart-availability.service.ts:57-79 | Fails exactly in production with a falsy document, with the CRITICAL error. A truthy document is spread over the defaults. Elsewhere a falsy document gives the defaults. |
| SmartAvailability.ProductionGuardUnreachable | src/modules/booking/application/services/smart-availability.service.ts:71-76 | Read through getPolicyParams, the document is never falsy, so even in production loading succeeds, with the defaults when none is stored. |
| SmartAvailability.ProductionGuardFires | src/modules/booking/application/services/smart-availability.service.ts:71-78 | Read without the default, a missing document is fatal in production; a present one loads as before. |
| SmartAvailability.MapDay | src/modules/booking/application/services/smart-availability.service.ts:84-90 | Numbers pass through. A name maps to its index in SUN..SAT, case-insensitively, and otherwise to -1. |
| SmartAvailability.WorkdayNames | src/modules/booking/application/services/smart-availability.service.ts:84-90 | MON..FRI map to 1..5, and lower case works too. |
| SmartAvailability.FindException | src/modules/booking/application/services/smart-availability.service.ts:99 | None exactly when no exception has the date; otherwise an exception of the list with that date. |
| SmartAvailability.FindShift | src/modules/booking/application/services/smart-availability.service.ts:117-119 | None exactly when no shift names the weekday; otherwise a shift of the list that names it. |
| SmartAvailability.DayHours | src/modules/booking/application/services/smart-availability.service.ts:97-125 | CLOSED and BLACKOUT close the day, and MODIFIED with both hours sets them. In every other case, including no exception, a MODIFIED one missing an hour and an unknown kind, the first shift naming the weekday applies. |
| SmartAvailability.DayBoundedInstant | src/modules/booking/application/services/smart-availability.service.ts:167-180 | Every instant of a one-day range falls on that day. |
| SmartAvailability.OpenInterval | src/modules/booking/application/services/smart-availability.service.ts:129-132 | When defined, it is a one-day range on the given day, and the day has hours. |
| SmartAvailability.DayRange | src/modules/booking/application/services/smart-availability.service.ts:132-146 | An instant is in the clipped range exactly when it is in the window and in the day's opening interval. |
| SmartAvailability.EffectiveRanges | src/modules/booking/application/services/smart-availability.service.ts:92-150 | At most one range per day; each is a one-day range inside the window. |
| SmartAvailability.DayRangeOnItsDay | src/modules/booking/application/services/smart-availability.service.ts:132-146 | A day's clipped range starts on that local day. |
| SmartAvailability.EffectiveRangesOrdered | src/modules/booking/application/services/smart-availability.service.ts:92-150 | Over days in increasing local order, the effective ranges are in time order and pairwise disjoint. |
| SmartAvailability.ZoneRangesOrdered | src/modules/booking/application/services/smart-availability.service.ts:92-150 | Walking the zone's own days, the effective ranges are in time order and pairwise disjoint. |
| SmartAvailability.DiffRange | src/modules/booking/application/services/smart-availability.service.ts:216-232 | At most two pieces, ordered, inside `a` and apart from `b`. They cover exactly the instants of `a` not in `b`. |
| SmartAvailability.RangeMinusBreak | src/modules/booking/application/services/smart-availability.service.ts:165-188 | Fails only with the end-after-start error of a reversed break; the pieces lie inside the range. |
| SmartAvailability.UnbrokenIff | src/modules/booking/application/services/smart-availability.service.ts:162-190 | An instant is unbroken exactly when no break of the list takes it out. |
| SmartAvailability.RangeMinusBreakCovers | src/modules/booking/application/services/smart-availability.service.ts:165-188 | A one-day range less a break covers exactly its instants that the break does not take out. |
| SmartAvailability.BreakPass | src/modules/booking/application/services/smart-availability.service.ts:165-188 | Fails only with the end-after-start error; every piece lies within some input range. |
| SmartAvailability.AfterBreaks | src/modules/booking/application/services/smart-availability.service.ts:159-192 | Fails only with the end-after-start error. |
| SmartAvailability.BreakPassCovers | src/modules/booking/application/services/smart-availability.service.ts:165-188 | One break pass covers exactly the covered instants the break does not take out. |
| SmartAvailability.AfterBreaksCovers | src/modules/booking/application/services/smart-availability.service.ts:159-192 | After all breaks, an instant is covered exactly when it was covered and no break takes it out; the pieces stay one-day ranges. |
| SmartAvailability.DiffAll | src/modules/booking/application/services/smart-availability.service.ts:203-207 | Every piece lies within an input range. |
| SmartAvailability.DiffAllCovers | src/modules/booking/application/services/smart-availability.service.ts:203-207 | Covers exactly the covered instants outside the busy range. |
| SmartAvailability.IdleIff | src/modules/booking/application/services/smart-availability.service.ts:199-210 | An instant is idle exactly when no busy range holds it. |
| SmartAvailability.SubtractBusyShape | src/modules/booking/application/services/smart-availability.service.ts:199-210 | Every remaining range lies within an input range and overlaps no busy range. |
| SmartAvailability.DiffAllApart | src/modules/booking/application/services/smart-availability.service.ts:203-207 | No piece overlaps the busy range. |
| SmartAvailability.SubtractBusyCovers | src/modules/booking/application/services/smart-availability.service.ts:199-210 | After the busy ranges are taken out, an instant is covered exactly when it was covered and no busy range holds it. |
| SmartAvailability.SlotsFromSound | src/modules/booking/application/services/smart-availability.service.ts:238-264 | Every slot of a range is AVAILABLE, on the grid, not before `now`, and fits with its buffer; starts strictly increase. |
| SmartAvailability.SlotsFromComplete | src/modules/booking/application/services/smart-availability.service.ts:238-264 | Every grid start that is not in the past and fits with its buffer is offered. |
| SmartAvailability.AllSlotsSound | src/modules/booking/application/services/smart-availability.service.ts:234-267 | Each slot over a list of ranges comes from one of them and is offerable there. |
| SmartAvailability.AllSlotsComplete | src/modules/booking/application/services/smart-availability.service.ts:234-267 | Every offerable grid start of every range is among the slots. |
| SmartAvailability.ZoneDays | src/modules/booking/application/services/smart-availability.service.ts:94-98 | Every instant of the window has its zone day among the days listed, and the k-th listed day is k days after the window's first. |
| SmartAvailability.OpenOnDay | src/modules/booking/application/services/smart-availability.service.ts:96-147 | A day's opening interval holds an instant exactly when the instant is on that day and the zone is open then. |
| SmartAvailability.EffectiveCovers | src/modules/booking/application/services/smart-availability.service.ts:92-150 | The effective ranges hold exactly the window's open instants whose day was walked. |
| SmartAvailability.ZoneDaysCover | src/modules/booking/application/services/smart-availability.service.ts:92-150 | Walking the zone's days, the effective ranges are the window intersected with the opening hours. |
| SmartAvailability.NetRangesCover | src/modules/booking/application/services/smart-availability.service.ts:43-51 | The net ranges hold exactly the free instants: in the window, in opening hours, outside every break and booking. |
| SmartAvailability.SlotsAreFree | src/modules/booking/application/services/smart-availability.service.ts:28-55 | Every slot is AVAILABLE, not in the past and of the service's duration, and its whole span with the buffer is free. |
| SmartAvailability.SlotsAreComplete | src/modules/booking/application/services/smart-availability.service.ts:28-55 | Every grid start of a net range that is not in the past and fits is offered. |
| SmartAvailability.AvailabilityAsWritten | src/modules/booking/application/services/smart-availability.service.ts:28-55 | The code as written: an empty or inverted window fails and the production guard never fires. The only error left is end-after-start. |
| SmartAvailability.Availability | src/modules/booking/application/services/smart-availability.service.ts:28-55 | An empty or inverted window fails. Every other failure is end-after-start or CRITICAL. |
| SmartAvailability.AvailabilityStages | src/modules/booking/application/services/smart-availability.service.ts:28-55 | For a non-empty window and a loaded schedule, getSlots is the slot generation over the zone's days of that schedule in its zone. |
| SmartAvailability.AvailabilityIsFree | src/modules/booking/application/services/smart-availability.service.ts:28-55 | Every slot getSlots returns is available, not in the past, of the service's duration, and free with its buffer under the loaded schedule. |
| SmartAvailability.AvailabilityIsComplete | src/modules/booking/application/services/smart-availability.service.ts:28-55 | Every fitting, not-past grid start of a net range of the loaded schedule is among the slots getSlots returns. |
| SmartAvailability.OpeningHours | src/modules/booking/application/services/smart-availability.service.ts:97-132 | The exception, shift and parsing steps of one day compute OpenInterval. |
| SmartAvailability.DayEffectiveRange | src/modules/booking/application/services/smart-availability.service.ts:97-147 | One pass of the day loop computes DayRange: the opening hours clipped to the window. |
| SmartAvailability.GenerateEffectiveRanges | src/modules/booking/application/services/smart-availability.service.ts:92-150 | The day loop computes EffectiveRanges. |
| SmartAvailability.RemoveBreak | src/modules/booking/application/services/smart-availability.service.ts:166-187 | One range against one break: the method computes RangeMinusBreak. |
| SmartAvailability.SubtractBreak | src/modules/booking/application/services/smart-availability.service.ts:162-190 | One break over all current ranges: the loop computes BreakPass, failure included. |
| SmartAvailability.SubtractBreaks | src/modules/booking/application/services/smart-availability.service.ts:159-192 | The nested loops compute AfterBreaks, including its failure. |
| SmartAvailability.SubtractBusyRanges | src/modules/booking/application/services/smart-availability.service.ts:199-210 | The nested loops compute SubtractBusy. |
| SmartAvailability.GenerateSlotsFromRanges | src/modules/booking/application/services/smart-availability.service.ts:234-267 | The nested loops compute AllSlots. |
| SmartAvailability.GetSlots | src/modules/booking/application/services/smart-availability.service.ts:28-55 | Stage by stage, computes Availability. |
| AvailabilitySamples.SampleClocks | src/modules/booking/application/services/smart-availability.service.test.ts:51-84 | The test's clock strings parse to their minutes. |
| AvailabilitySamples.SampleWeekdays | src/modules/booking/application/services/smart-availability.service.test.ts:51-84 | The Monday window is Monday in UTC, but starts on Sunday in Panama. |
| AvailabilitySamples.NamedWorkdays | src/modules/booking/application/services/smart-availability.service.test.ts:23-32 | The configured day names map to 1..5. |
| AvailabilitySamples.NoWeekendShift | src/modules/booking/application/services/smart-availability.service.test.ts:86-93 | No shift names Saturday or Sunday. |
| AvailabilitySamples.SampleWeekendHours | src/modules/booking/application/services/smart-availability.service.test.ts:86-93 | A weekend day has no hours. |
| AvailabilitySamples.SampleWeekdayHours | src/modules/booking/application/services/smart-availability.service.test.ts:51-84 | A weekday without exception opens 09:00-18:00. |
| AvailabilitySamples.SampleOpening | src/modules/booking/application/services/smart-availability.service.test.ts:51-84 | Sunday is closed; Monday opens 14:00-23:00 UTC. |
| AvailabilitySamples.SampleLunch | src/modules/booking/application/services/smart-availability.service.test.ts:51-84 | The lunch break splits Monday into morning and afternoon. |
| AvailabilitySamples.SampleOneHour | src/modules/booking/application/services/smart-availability.service.test.ts:51-84 | An hour holds one one-hour slot. |
| AvailabilitySamples.SampleFourHours | src/modules/booking/application/services/smart-availability.service.test.ts:51-84 | Four hours hold four back-to-back slots. |
| AvailabilitySamples.SampleDayRanges | src/modules/booking/application/services/smart-availability.service.test.ts:51-84 | Clipped to the window, Sunday gives nothing and Monday gives its opening hours. |
| AvailabilitySamples.SampleTwoDays | src/modules/booking/application/services/smart-availability.service.test.ts:51-84 | Over Sunday and Monday, the effective ranges are Monday's hours. |
| AvailabilitySamples.SampleZoneRanges | src/modules/booking/application/services/smart-availability.service.test.ts:51-84 | Walking the zone's days gives Monday's hours. |
| AvailabilitySamples.SampleMondayBreaks | src/modules/booking/application/services/smart-availability.service.test.ts:51-84 | After breaks, Monday is morning plus afternoon. |
| AvailabilitySamples.SampleTwoRangeSlots | src/modules/booking/application/services/smart-availability.service.test.ts:51-84 | The slots of two ranges are those of each in turn. |
| AvailabilitySamples.SampleZoneNet | src/modules/booking/application/services/smart-availability.service.test.ts:51-84 | Without bookings the net ranges are morning and afternoon. |
| AvailabilitySamples.SampleZoneSlots | src/modules/booking/application/services/smart-availability.service.test.ts:51-84 | The slots over the zone's days are those of morning and afternoon. |
| AvailabilitySamples.SampleMondayList | src/modules/booking/application/services/smart-availability.service.test.ts:51-84 | Morning and afternoon give eight slots, 09:00 to 17:00 zone time without 13:00. |
| AvailabilitySamples.SampleZoneWalk | src/modules/booking/application/services/smart-availability.service.test.ts:51-84 | A standard Monday gives the test's eight slots, the first at 14:00 UTC. |
| AvailabilitySamples.SampleBusyNet | src/modules/booking/application/services/smart-availability.service.test.ts:95-118 | A booking inside the morning splits it. |
| AvailabilitySamples.SampleThreeRangeSlots | src/modules/booking/application/services/smart-availability.service.test.ts:95-118 | The slots of three ranges are those of each in turn. |
| AvailabilitySamples.SampleThreeHours | src/modules/booking/application/services/smart-availability.service.test.ts:95-118 | Three hours hold three slots, an hour apart. |
| AvailabilitySamples.SampleBusyList | src/modules/booking/application/services/smart-availability.service.test.ts:95-118 | The ranges left around a booking give seven slots. |
| AvailabilitySamples.SampleBusyHour | src/modules/booking/application/services/smart-availability.service.test.ts:95-118 | A 15:00-16:00 UTC booking leaves seven slots, none at 15:00 UTC. |
| AvailabilitySamples.SampleSaturday | src/modules/booking/application/services/smart-availability.service.test.ts:86-93 | A Saturday window gives no slots. |
| AvailabilitySamples.SampleSaturdayRanges | src/modules/booking/application/services/smart-availability.service.test.ts:86-93 | A Saturday window has no effective ranges. |
| AvailabilitySamples.SampleFridayEvening | src/modules/booking/application/services/smart-availability.service.test.ts:86-93 | Friday's hours end before a Saturday window begins. |
| AvailabilitySamples.SampleSaturdayClosed | src/modules/booking/application/services/smart-availability.service.test.ts:86-93 | Saturday has no opening interval. |
| AvailabilitySamples.SampleClosedMonday | src/modules/booking/application/services/smart-availability.service.test.ts:134-148 | A CLOSED exception for the Monday leaves no slots. |
| AvailabilitySamples.ClosedDays | src/modules/booking/application/services/smart-availability.service.test.ts:134-148 | With that exception, neither Sunday nor Monday has a range. |
| AvailabilitySamples.SampleServerDays | src/modules/booking/application/services/smart-availability.service.ts:94 | On a UTC server the window has one day, the UTC Monday. |
| AvailabilitySamples.SampleServerWalk | src/modules/booking/application/services/smart-availability.service.ts:92-150 | As written, on a UTC server the Monday window gives no slots. |
| LegacyAvailability.GetSlots | src/modules/booking/application/services/availability.service.ts:16-39 | Nine back-to-back hours from 09:00 of the server's day. Each is UNAVAILABLE exactly when the repository reports a conflict for it. |
| LeadTime.New | src/modules/booking/application/policies/time/lead-time.policy.ts:15-17 | Refuses exactly a negative minimum. |
| LeadTime.LeadMinutes | src/modules/booking/application/policies/time/lead-time.policy.ts:24-30 | The whole minutes from now to the start, rounded down. |
| LeadTime.Evaluate | src/modules/booking/application/policies/time/lead-time.policy.ts:24-49 | DENY with the reason, message and both numbers exactly when the lead is short of the minimum; otherwise a bare ALLOW. |
| LeadTime.StricterMinimum | src/modules/booking/application/policies/time/lead-time.policy.ts:24-49 | Raising the minimum never turns a DENY into an ALLOW. |
| LeadTime.LeadInWholeMinutes | src/modules/booking/application/policies/time/lead-time.policy.ts:24-49 | ALLOW exactly when the start is at least the minimum's milliseconds ahead. |
| MaxAdvance.New | src/modules/booking/application/policies/time/max-advance.policy.ts:14-16 | Refuses exactly a negative maximum. |
| MaxAdvance.AdvanceMinutes | src/modules/booking/application/policies/time/max-advance.policy.ts:22-30 | The whole minutes from now to the start, rounded down; negative for the past. |
| MaxAdvance.Evaluate | src/modules/booking/application/policies/time/max-advance.policy.ts:22-51 | DENY with the reason, message and both numbers exactly when the start lies past the horizon; otherwise a bare ALLOW. |
| MaxAdvance.PastStartAllowed | src/modules/booking/application/policies/time/max-advance.policy.ts:22-51 | A start in the past is always allowed. |
| MaxAdvance.HorizonInWholeMinutes | src/modules/booking/application/policies/time/max-advance.policy.ts:22-51 | ALLOW exactly when the start is less than max + 1 minutes ahead. |
| PolicySamples.LeadTimeSamples | src/modules/booking/application/policies/time/time-policies.spec.ts:30-60 | With 60 minutes: 120 and 60 minutes ahead pass, and 30 is denied with the test's numbers. |
| PolicySamples.MaxAdvanceSamples | src/modules/booking/application/policies/time/time-policies.spec.ts:67-86 | With one day: 10 hours passes and 25 hours is denied. |
| PolicyEngines.WithOrder | src/modules/booking/application/services/policy-engine.service.ts:21-24 | No longer than the input. |
| PolicyEngines.Insert | src/modules/booking/application/services/policy-engine.service.ts:21-24 | Adds exactly one element. |
| PolicyEngines.InsertSorted | src/modules/booking/application/services/policy-engine.service.ts:21-24 | Insertion keeps a list sorted by order. |
| PolicyEngines.InsertWithOrder | src/modules/booking/application/services/policy-engine.service.ts:21-24 | Insertion puts the new rule behind those of its order and leaves every order's other rules unchanged. |
| PolicyEngines.SortByOrder | src/modules/booking/application/services/policy-engine.service.ts:21-24 | Sorted by order, same length. For every order, the rules of that order keep their relative order, as a stable sort does. |
| PolicyEngines.Applicable | src/modules/booking/application/services/policy-engine.service.ts:37-40 | Only rules that apply to the command. |
| PolicyEngines.RunShape | src/modules/booking/application/services/policy-engine.service.ts:37-61 | The trace is a prefix of the applicable rules' records, up to the first objection, which is the decision and the last record. Without one, every applicable rule allowed. |
| PolicyEngines.FirstObjectionDecides | src/modules/booking/application/services/policy-engine.service.ts:37-71 | If any applicable rule objects, the walk reaches a decision, so the fallback ALLOW is not used. |
| PolicyEngines.PolicyEngine.constructor | src/modules/booking/application/services/policy-engine.service.ts:21-24 | The rules held are SortByOrder of those given. |
| PolicyEngines.PolicyEngine.Evaluate | src/modules/booking/application/services/policy-engine.service.ts:29-82 | The decision is the walk's objection, or the fallback ALLOW. The trace holds the command, the final status and the walk's records. |
| PolicyRegistry.NumberParam | src/modules/booking/application/extensions/policy.registry.ts:32-33 | Missing or null gives the fallback; a number is taken as given. |
| PolicyRegistry.GetActivePolicies | src/modules/booking/application/extensions/policy.registry.ts:27-47 | Lead time first, then the horizon, each exactly when its flag is on, with the configured thresholds. Fails exactly when an enabled rule's threshold is negative, lead time checked first. |
| PolicyRegistry.ThresholdSamples | src/modules/booking/application/extensions/policy.registry.ts:31-44 | Configured thresholds are used; without parameters the defaults are 60 and 43200 minutes. |
| BookingMapper.ParsePostgresRange | src/modules/booking/infrastructure/mappers/booking.mapper.ts:32-42 | Brackets are dropped and the text is split at commas. The first two parts, unquoted, go through fromISO; a missing second part is a TypeError. |
| BookingMapper.BoundsOfRangeText | src/modules/booking/infrastructure/mappers/booking.mapper.ts:32-42 | For `[a,b)` the bounds read are `a` and `b` with their quotes removed. |
| BookingMapper.NoCommaFails | src/modules/booking/infrastructure/mappers/booking.mapper.ts:32-42 | Text without a comma always fails with the missing-end TypeError. |
| BookingMapper.RangeTextRoundTrip | src/modules/booking/infrastructure/mappers/booking.mapper.ts:32-42 | An interval in the database's range text is read back as itself when its rendered bounds parse back. |
| BookingMapper.ToDomain | src/modules/booking/infrastructure/mappers/booking.mapper.ts:7-28 | A bad period fails first, then a bad actor, then a HELD row without expiry, with HoldRequiresExpiry. Otherwise the mapping succeeds. On success the id, resource, status, service, metadata and timestamps are the row's, and a HELD booking has the row's expiry. |
| BookingRepository.Heal | src/modules/booking/infrastructure/repositories/supabase-booking.repository.ts:29-40 | Same keys. Exactly the stale holds overlapping the slot on its resource become CANCELLED. |
| BookingRepository.HealedBlockers | src/modules/booking/infrastructure/repositories/supabase-booking.repository.ts:29-40 | After healing, the rows that block the slot are exactly the active ones. |
| BookingRepository.DbInsert | src/modules/booking/infrastructure/repositories/supabase-booking.repository.ts:29-40 | An unknown resource is a foreign-key violation, and every other failure is an exclusion violation. On success the row is added to the healed table. |
| BookingRepository.InsertError | src/modules/booking/infrastructure/repositories/supabase-booking.repository.ts:42-50 | 23P01 becomes an overlap with the stated message, and 23503 a missing resource. Any other code becomes "Database Error: " with the client's message. |
| BookingRepository.CreateHoldResult | src/modules/booking/infrastructure/repositories/supabase-booking.repository.ts:24-53 | An unknown resource is ResourceNotFound, and an active overlapping booking an overlap. Otherwise the HELD row is added with stale holds cancelled and nothing else changed. |
| BookingRepository.HealKeepsInvariant | src/modules/booking/infrastructure/repositories/supabase-booking.repository.ts:29-40 | Healing keeps the table invariant. |
| BookingRepository.AddRowKeepsInvariant | src/modules/booking/infrastructure/repositories/supabase-booking.repository.ts:29-40 | A row that clashes with no blocking row keeps the invariant. |
| BookingRepository.CreateHoldKeepsInvariant | src/modules/booking/infrastructure/repositories/supabase-booking.repository.ts:24-53 | A successful hold keeps the table's invariant: rows keyed by id, holds with expiry, known resources, no overlap among HELD and CONFIRMED. |
| BookingRepository.Single | src/modules/booking/infrastructure/repositories/supabase-booking.repository.ts:69-70 | An update matching no row becomes the client's "not a single row" error. |
| BookingRepository.ConfirmUpdate | src/modules/booking/infrastructure/repositories/supabase-booking.repository.ts:59-70 | Matches exactly a HELD or PENDING row, and a HELD row always updates. Only a PENDING row can violate the exclusion. |
| BookingRepository.ConfirmOutcome | src/modules/booking/infrastructure/repositories/supabase-booking.repository.ts:72-85 | A client error becomes "Confirm Error". No row becomes not-found, or invalid state when the row exists. |
| BookingRepository.ConfirmRows | src/modules/booking/infrastructure/repositories/supabase-booking.repository.ts:55-86 | An unknown id is not-found, a wrong state is the invalid-state error, and success needs a HELD or PENDING row. This is the corrected version; see "## Findings". |
| BookingRepository.ConfirmAsWrittenHidesNotFound | src/modules/booking/infrastructure/repositories/supabase-booking.repository.ts:59-81 | As written, confirm never reports a missing booking. An unknown id surfaces as "Confirm Error" with the client's message. |
| BookingRepository.ConfirmIgnoresExpiry | src/modules/booking/infrastructure/repositories/supabase-booking.repository.ts:59-70 | The store confirms a lapsed hold. |
| BookingRepository.ConfirmKeepsInvariant | src/modules/booking/infrastructure/repositories/supabase-booking.repository.ts:55-86 | A successful confirm keeps the table invariant. |
| BookingRepository.CancelUpdate | src/modules/booking/infrastructure/repositories/supabase-booking.repository.ts:89-99 | Matches exactly an existing row. The new row is CANCELLED with no expiry and the reason as its whole metadata. |
| BookingRepository.CancelOutcome | src/modules/booking/infrastructure/repositories/supabase-booking.repository.ts:101-102 | A client error is rethrown with its message, and no row is not-found. |
| BookingRepository.CancelRows | src/modules/booking/infrastructure/repositories/supabase-booking.repository.ts:88-103 | Fails exactly for an unknown id, with not-found. Otherwise only that row changes: CANCELLED, no expiry, the reason as metadata. This is the corrected version; see "## Findings". |
| BookingRepository.CancelAsWrittenHidesNotFound | src/modules/booking/infrastructure/repositories/supabase-booking.repository.ts:97-102 | As written, an unknown id surfaces as the client's "not a single row" error, never as not-found. |
| BookingRepository.CancelKeepsInvariant | src/modules/booking/infrastructure/repositories/supabase-booking.repository.ts:88-103 | Cancelling keeps the invariant, and even cancels a COMPLETED booking. |
| BookingRepository.BookingTable.constructor | src/modules/booking/infrastructure/repositories/supabase-booking.repository.ts:17-22 | An empty table over the given resources. |
| BookingRepository.BookingTable.CreateHold | src/modules/booking/infrastructure/repositories/supabase-booking.repository.ts:24-53 | The rows become CreateHoldResult's table and the new row is returned. On failure the error is returned and the rows are unchanged; the invariant is kept. |
| BookingRepository.BookingTable.Confirm | src/modules/booking/infrastructure/repositories/supabase-booking.repository.ts:55-86 | The rows become ConfirmRows' table, or stay unchanged with its error; the invariant is kept. This is the corrected version; see "## Findings". |
| BookingRepository.BookingTable.Cancel | src/modules/booking/infrastructure/repositories/supabase-booking.repository.ts:88-103 | The rows become CancelRows' table, or stay unchanged with its error; the invariant is kept. This is the corrected version; see "## Findings". |
| BookingRepository.BookingTable.FindActiveBookings | src/modules/booking/infrastructure/repositories/supabase-booking.repository.ts:139-154 | Exactly the ids of the resource's active rows that overlap the period. |
| BookingRepository.BookingTable.HasConflicts | src/modules/booking/infrastructure/repositories/supabase-booking.repository.ts:105-124 | True exactly when findActiveBookings would find something. |
| BookingRepository.BookingTable.FindById | src/modules/booking/infrastructure/repositories/supabase-booking.repository.ts:126-137 | The row with that id, or none exactly when absent. |
| StoredRows.Wire | src/modules/booking/infrastructure/repositories/supabase-booking.repository.ts:29-40 | The row the client returns carries the stored id, status and expiry, and the period as range text. |
| StoredRows.NewHoldMapsBack | src/modules/booking/infrastructure/repositories/supabase-booking.repository.ts:29-52 | The inserted hold, returned and mapped, is the HELD booking of the request's interval, with the actor, the expiry and the request type in its metadata. |
| RepositorySamples.FirstHold | src/modules/booking/tests/core-integration.spec.ts:54-90 | A first hold gives a valid table with one HELD row of that period. |
| RepositorySamples.SameSlotTwice | src/modules/booking/tests/core-integration.spec.ts:54-90 | A second hold on the same slot is an overlap, and only the first is held. |
| RepositorySamples.ConfirmedBlocks | src/modules/booking/tests/core-integration.spec.ts:93-108 | A confirmed booking blocks a hold overlapping half of it. |
| RepositorySamples.ContiguousHolds | src/modules/booking/tests/core-integration.spec.ts:111-133 | Touching slots do not conflict. |
| RepositorySamples.ExpiredHoldHeals | src/modules/booking/tests/core-integration.spec.ts:136-176 | A hold expired ten seconds ago does not block; the new hold cancels it. |
| BookingStore.Patch | src/modules/booking/application/store/booking.store.ts:41-43 | Supplied fields win and the others are kept. |
| BookingStore.PatchComposes | src/modules/booking/application/store/booking.store.ts:41-43 | Two patches in a row are one patch, and repeating a patch changes nothing. |
| BookingStore.Transition | src/modules/booking/application/store/booking.store.ts:37-50 | Each action changes exactly its fields. Selecting a service advances to DATE, a new date clears the time, and reset returns the initial state. |
| BookingStore.ResetForgets | src/modules/booking/application/store/booking.store.ts:44-50 | After a reset, the state no longer depends on anything before it. |
| BookingStore.DateThenTime | src/modules/booking/application/store/booking.store.ts:39-40 | A new date clears the time, and a later time pick keeps that date. |
| BookingStore.Store.constructor | src/modules/booking/application/store/booking.store.ts:26-35 | The store opens in the initial state. |
| BookingStore.Store.SetStep | src/modules/booking/application/store/booking.store.ts:37 | The new state is the SetStep transition of the old one. |
| BookingStore.Store.SelectService | src/modules/booking/application/store/booking.store.ts:38 | The new state is the SelectService transition of the old one. |
| BookingStore.Store.SelectDate | src/modules/booking/application/store/booking.store.ts:39 | The new state is the SelectDate transition of the old one. |
| BookingStore.Store.SelectTime | src/modules/booking/application/store/booking.store.ts:40 | The new state is the SelectTime transition of the old one. |
| BookingStore.Store.SetPatientDetails | src/modules/booking/application/store/booking.store.ts:41-43 | The new state is the SetPatientDetails transition of the old one. |
| BookingStore.Store.Reset | src/modules/booking/application/store/booking.store.ts:44-50 | The new state is the initial one. |
| BookingSchema.NameIssues | src/modules/booking/application/schemas/booking.schema.ts:5-11 | No issue exactly when the name has two or more characters, all letters, accented vowels, ñ or whitespace. A short name reports the length message first, and a long one only the letters message. |
| BookingSchema.PhoneIssues | src/modules/booking/application/schemas/booking.schema.ts:18-21 | No issue exactly for 6 to 15 characters, all digits. |
| BookingSchema.Issues | src/modules/booking/application/schemas/booking.schema.ts:4-24 | No issue exactly when every rule of the form holds. Every issue names one of the five checked fields. |
| BookingSchema.NotesAreFree | src/modules/booking/application/schemas/booking.schema.ts:23 | The notes never change the issues. |
| BookingSchema.FieldSamples | src/modules/booking/application/schemas/booking.schema.ts:5-21 | Accented names pass; one letter is too short and a digit is not a letter. A six-digit phone passes, a prefixed one fails on digits and sixteen digits is too long. |

## Left out

- Granularity: `granularityMinutes > 0` is a precondition of the slot functions. With zero, the source's slot loop never ends.
- Time zones are fixed offsets. Daylight-saving changes and the zone database are not modelled.
- ISO-8601 parsing and rendering are function parameters (`parse`, `iso`, `render`). "HH:mm" parsing is concrete and strict: two digits, a colon, two digits.
- Invalid Date and NaN are modelled as `None`. An unparseable shift time skips the day; an unparseable break is ignored.
- Schedule members of the wrong JSON type are read as empty defaults. The source would fail at run time on them.
- SmartAvailability.Availability: the order in which `Promise.all` settles is modelled as the busy-range fetch failing first. So the production test at `src/modules/booking/application/services/smart-availability.service.test.ts:120-132`, which uses an empty window, meets the range error in this model, not the CRITICAL one.
- The busy ranges that `getSlots` fetches are the parameter `busy`. It stands for the periods `findActiveBookings` returns.
- Logging, `console` warnings and concurrency are not modelled. That includes the concurrent-insert test of `src/modules/booking/tests/core-integration.spec.ts:179-209`.
- `loadEnvFlags` always returns an empty set of flags, so the environment layer of `load` is left out.
- Clocks and generated identifiers are parameters: `now`, and the row id that stands for the database's uuid. Trace timestamps are left out.
- Database timestamps are integers.
- The policy context's booking snapshot and metadata are not modelled; no rule reads them.
- The heal trigger and the exclusion constraint over HELD and CONFIRMED rows are modelled as the table's semantics. The SQL migration is not part of this model.
- The repository methods return the stored row rather than a Booking object. StoredRows.NewHoldMapsBack ties the row to the mapped booking.
- JavaScript prototype-inherited keys (such as "toString") in the `in` tests of `isEnabled` are not modelled.
- The zod email check is the predicate parameter `isEmail`. An explicit `undefined` in a `Partial` patch is not modelled.
- The wizard's date is an instant; Date object identity is not modelled.
- Actor fields are strings. A truthy non-string type or id is refused instead of kept.
- TimeRanges.DurationMinutes: stated over reals, not IEEE doubles.
- PolicyRegistry.NumberParam: a present non-number parameter is read as the fallback. In the source it would flow on as whatever value it is.
- Text.ToUpper and Text.ToLower map only the ASCII letters. JavaScript's `toUpperCase` also folds letters such as "ſ" (to "S") and "ß" (to "SS"). So `mapDay("ſun")` is 0 in the source and -1 in the model, and EnvFeatureFlags.ToEnvKey and EnvFeatureFlags.IsEnabled share the ASCII-only folding.
- BookingSchema.NameIssues and BookingSchema.Issues count string length in Unicode scalar values, while zod's `.min`/`.max` count UTF-16 code units. A name of one character outside the Basic Multilingual Plane, such as one emoji, passes `min(2)` in the source and fails it in the model.
- JSON numbers are integers. A fractional `minMinutes`, `maxMinutes`, duration or granularity cannot be expressed.
- Bookings.Booking.AddMetadata: the source mutates the `metadata` object of the props passed to the constructor, which the caller may still hold. The class keeps its own map, so that aliasing is not modelled.
- The React components, server actions, pages and the Supabase client setup are outside the booking core.

Where the specification and the code differ, the model follows the code:

- A MODIFIED exception without both hours falls back to the weekly shift.
- The repository's cancel has no status check: terminal bookings are cancelled too.
- The repository's confirm does not check the hold's expiry.

## Findings

| source | as written | input that shows it | evidently intended | confidence | as-written member | corrected member |
|---|---|---|---|---|---|---|
| src/modules/booking/application/services/smart-availability.service.ts:94-98 | The days are enumerated in the server's zone, then formatted in the resource's zone. | UTC server, zone America/Panama, window 2024-06-17T00:00Z to 23:59:59.999Z: the only day read is Sunday 2024-06-16, so there are no slots on a working Monday. | Walk the window's days in the resource's zone, giving the 8 Monday slots. | not executed | SmartAvailability.AvailabilityAsWritten, AvailabilitySamples.SampleServerWalk | SmartAvailability.Availability, AvailabilitySamples.SampleZoneWalk |
| src/modules/booking/application/services/smart-availability.service.ts:71-76 | The schedule is read through `getPolicyParams`, which returns `{}` when missing, so `!config` is never true. | Production, a configuration with no SCHEDULE_DEFAULT entry: the defaults are used silently. | A missing schedule is fatal in production. | not executed | SmartAvailability.ProductionGuardUnreachable | SmartAvailability.ProductionGuardFires |
| src/modules/booking/infrastructure/repositories/supabase-booking.repository.ts:69-84 | `.single()` turns an empty match into a client error, which is rethrown as "Confirm Error", so the `!data` branch is dead. | confirm("unknown-id") on any table. | BookingNotFoundError for an unknown id, and an invalid-state error for a wrong state. | not executed | BookingRepository.ConfirmAsWrittenHidesNotFound | BookingRepository.ConfirmRows |
| src/modules/booking/infrastructure/repositories/supabase-booking.repository.ts:98-102 | `.single()` turns an empty match into a client error, rethrown as a DomainError, so the `!data` branch is dead. | cancel("unknown-id", "x") on any table. | BookingNotFoundError for an unknown id. | not executed | BookingRepository.CancelAsWrittenHidesNotFound | BookingRepository.CancelRows |
