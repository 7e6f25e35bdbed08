# flight-focus in Dafny

flight-focus is a focus timer dressed as a flight. The user picks one of three
routes, tears a boarding pass, and watches a plane fly a curved route on a map
while a countdown runs. When the session length has passed the flight
"arrives". This project models the logic under that presentation and proves
properties of it. Each module models one source file:

- `Flight` (`flight.dfy`) models `app/lib/flight.ts`.
  - The quadratic Bezier route builder and the cumulative-distance table are methods with loops.
  - Interpolating a position and heading at a progress fraction, and splitting the route at that position, are functions.
  - The haversine distance and the atan2 azimuth are trigonometry. They are the two function fields of an `Earth` value. `Sound(e)` states what the model relies on: distances are non-negative and zero between equal points, and the azimuth lies in [-180, 180].
  - The `(deg + 360) % 360` normalisation of the bearing is modelled concretely, with JavaScript's truncated remainder.
- `FlightPlanning` (`flight_planning.dfy`) models `app/lib/flightPlanning.ts`: the flight-time estimate with `Math.round`, and the first-match lookup in the ascending table of focus buckets.
- `FlightTimer` (`flight_timer.dfy`) models `app/hooks/useFlightTimer.ts`. Class `Timer` has the hook's `startRef`, `progress` and `elapsedSeconds`. `Tick(now)` is one animation-frame callback; its result says whether another frame is requested. The frame timestamp is a parameter. `SetTotalSeconds` is the effect's re-run when the session length changes: it keeps the start time, the progress and the elapsed seconds.
- `BoardingPass` (`boarding_pass.dfy`) models `app/components/BoardingPass.tsx`.
  - The base-31 string hash is computed over UTF-16 code units with `| 0` and `>>> 0` written out.
  - The linear congruential generator is class `Lcg`. It produces the forty barcode rows.
  - It also covers the city-name lookup with its fallbacks, the passenger's short name, and the one-shot tear latch (class `PassState`).
- `FlightScreen` (`flight_screen.dfy`) models `app/components/FlightScreen.tsx`.
  - The five-state flow `select`, `checkin`, `in_flight`, `completed`, `cancelled` is a `Transition` function over events.
  - Class `Screen` has one method per handler and one for the completion effect. Each method is tied to that function.
  - It also models the arrival-time selector and which screen and header button are shown.
- `FlightMap` (`flight_map.dfy`) models `app/components/FlightMap.tsx`.
  - `buildLineString` pads a one-point line to two points.
  - The memoised TPE to HND route has 180 steps.
  - Class `MapDisplay` holds the values last handed to the two line sources, the plane marker and the camera. They are set at creation, on load, and on each progress update.
- `Optional` (`optional.dfy`) holds the `Option` datatype used for the timer's start time.

JavaScript numbers are exact reals in the model. The hash and the generator
stay below 2^53 at every step, so they are exact in doubles and are modelled
with unbounded integers reduced modulo 2^32. Two points of the code's
behaviour are worth stating:

- At progress 1 `interpolateRoute` places the plane on the first point whose cumulative distance reaches the total (`Flight.InterpolateAtEnd`). If the route ends in repeated points, that point is an earlier copy of the last point. When consecutive points of the route are at distance zero only if they are equal, it always has the last point's coordinates (`Flight.InterpolateAtEndLast`).
- The screen passes a second argument to `useFlightTimer` and calls a `reset()` from its result. The hook takes only `totalSeconds` and returns no `reset` (see "Left out").

## Model

| member | source | states |
|---|---|---|
| Flight.ArcOffset | app/lib/flight.ts:15 | the arc offset is never negative |
| Flight.BuildBezierRoute | app/lib/flight.ts:6-30 | returns exactly steps + 1 points, point i is the Bezier point at t = i / steps, the first is the origin and the last the destination; steps >= 1 is required because steps = 0 divides 0 by 0 |
| Flight.BezierEndpoints | app/lib/flight.ts:19-26 | the point at i = 0 is exactly the origin and the point at i = steps exactly the destination |
| Flight.BezierLongitudeIsLinear | app/lib/flight.ts:13-23 | every point's longitude is the straight-line value lon1 + t (lon2 - lon1), since the control longitude is the midpoint |
| Flight.BezierLatitudeAboveChord | app/lib/flight.ts:14-25 | no point's latitude is below the straight line between the endpoints, since the arc offset is not negative |
| Flight.BezierDegenerate | app/lib/flight.ts:13-25 | a route from a point to itself is that point at every step |
| Flight.BuildRouteMetrics | app/lib/flight.ts:45-51 | for a non-empty route the table has one entry per point, starts at 0 and adds each segment's distance to the previous entry; an empty route gives [0]; total is the last entry |
| Flight.DistanceTableWellFormed | app/lib/flight.ts:45-51 | with non-negative segment distances the table is non-decreasing and every entry is at least 0 |
| Flight.TableStepsUp | app/lib/flight.ts:47-49 | any later entry of the table is at least any earlier one |
| Flight.DistinctPointsIncrease | app/lib/flight.ts:47-49 | when consecutive points differ and no segment of the route between distinct points has length 0, the table strictly increases |
| Flight.BearingInRange | app/lib/flight.ts:53-65 | for an azimuth in [-180, 180], `(deg + 360) % 360` is a compass heading in [0, 360) |
| Flight.Remainder360 | app/lib/flight.ts:64 | JavaScript's `% 360` keeps the sign of its operand: a non-negative number lands in [0, 360), a negative one in (-360, 0]; numbers in [0, 360) are kept and numbers in [360, 720) lose one 360 |
| Flight.Bearing | app/lib/flight.ts:53-65 | the bearing is a compass heading in [0, 360): a non-negative azimuth is kept and a negative one gains 360 |
| Flight.Clamp01 | app/lib/flight.ts:72 | the clamped progress lies in [0, 1] and equals the input when the input already does |
| Flight.FindFrom | app/lib/flight.ts:76 | the result is -1 exactly when no entry from `from` on reaches the target, and otherwise the first index that does |
| Flight.FindFirstAtLeast | app/lib/flight.ts:76 | `findIndex(value >= target)`: -1 exactly when no entry reaches the target, otherwise the first index that does |
| Flight.FoundIndex | app/lib/flight.ts:76-79 | with the "-1 means last" fallback the index is always inside the table |
| Flight.FallbackUnreachable | app/lib/flight.ts:73-79 | on a table that is non-decreasing from 0, the search always succeeds, so the -1 fallback is never taken |
| Flight.SegmentProgressInRange | app/lib/flight.ts:85-87 | past index 0 the found segment has positive length, so the `\|\| 1` guard is never taken, and the segment progress lies in (0, 1] |
| Flight.Interpolate | app/lib/flight.ts:67-95 | the segment index is always that of a real segment of the table (0 on a one-point table) and the heading is a compass heading |
| Flight.StartFindsIndexZero | app/lib/flight.ts:72-80 | progress at or below 0 finds index 0 |
| Flight.InterpolateAtOrigin | app/lib/flight.ts:80-83 | when index 0 is found the result is the first point, segment 0, heading towards the second point, or towards the first point itself on a one-point route |
| Flight.InterpolateBeforeStart | app/lib/flight.ts:72-83 | progress at or below 0 puts the plane on the first point in segment 0 |
| Flight.InterpolateOnSegment | app/lib/flight.ts:85-94 | past index 0 the segment index is index - 1 and lies in [0, len - 2], the position is the fraction (0, 1] of the way along that segment, and the heading is that segment's bearing |
| Flight.InterpolateHeadingInRange | app/lib/flight.ts:67-95 | the interpolated heading always lies in [0, 360) |
| Flight.InterpolateAtEnd | app/lib/flight.ts:72-94 | at progress 1 or above the plane sits exactly on the point found, whose cumulative distance equals the total |
| Flight.TailEqual | app/lib/flight.ts:45-51 | when no segment of the route between distinct points has length 0, every point whose cumulative distance already equals the total is the route's last point |
| Flight.InterpolateAtEndLast | app/lib/flight.ts:72-94 | on a route with its distance table, when no segment of the route between distinct points has length 0, progress 1 or above puts the plane on the last point's coordinates, also when the route ends in repeated points |
| Flight.InterpolateUsesClampedProgress | app/lib/flight.ts:72-74 | the pose depends only on the clamped progress: below 0 acts as 0 and above 1 as 1 |
| Flight.SliceIndex | app/lib/flight.ts:102-105 | `slice` index normalisation stays within [0, len] and keeps any index already in range |
| Flight.SplitRouteAt | app/lib/flight.ts:97-108 | both halves are non-empty, the flown half ends at the position and the unflown half starts there |
| Flight.SplitShape | app/lib/flight.ts:102-105 | for a segment index of the route, the flown half is coords[0..segmentIndex] then the position, and the unflown half is the position then the rest of the route |
| Flight.SplitReassembles | app/lib/flight.ts:102-107 | dropping the seam point from each half and joining them gives back the route, for any segment index |
| FlightPlanning.Round | app/lib/flightPlanning.ts:21 | `Math.round`: the result is within half a unit, with halves rounded up |
| FlightPlanning.EstimateFlightMinutes | app/lib/flightPlanning.ts:17-21 | the result is distance / cruise * 60 + taxi rounded as `Math.round` does, with defaults 900 km/h and 45 minutes |
| FlightPlanning.ZeroDistanceIsTaxiTime | app/lib/flightPlanning.ts:6-21 | a zero distance with the defaults gives 45 minutes |
| FlightPlanning.RoundMonotone | app/lib/flightPlanning.ts:21 | rounding never reverses the order of two numbers |
| FlightPlanning.EstimateMonotone | app/lib/flightPlanning.ts:17-21 | for a fixed positive cruise speed and taxi time, a longer distance never gives a shorter estimate |
| FlightPlanning.FindBucket | app/lib/flightPlanning.ts:25-27 | `find`: -1 exactly when every bucket's ceiling is exceeded, otherwise the first bucket whose ceiling is not |
| FlightPlanning.MapToFocusMinutes | app/lib/flightPlanning.ts:23-30 | the result is always one of 25, 45, 60, 90 and 120 |
| FlightPlanning.FocusMinutesByRange | app/lib/flightPlanning.ts:9-29 | the result in closed form: 25 up to 90 minutes, 45 up to 240, 60 up to 480, 90 up to 840, and 120 beyond, including past 24 hours |
| FlightPlanning.FocusMinutesBoundaries | app/lib/flightPlanning.ts:10-14 | bucket ceilings are inclusive (90 gives 25, 91 gives 45, 240 gives 45, 480 gives 60, 840 gives 90, 1440 gives 120), values at or below 0 give 25, and 1500 clamps to 120 |
| FlightPlanning.FocusMinutesMonotone | app/lib/flightPlanning.ts:9-29 | a longer flight never gets a shorter focus session |
| FlightTimer.Elapsed | app/hooks/useFlightTimer.ts:16 | elapsed time never exceeds the session length and is not negative once time has started |
| FlightTimer.ProgressOf | app/hooks/useFlightTimer.ts:17 | progress never exceeds 1 and is not negative for a non-negative elapsed time |
| FlightTimer.Remaining | app/hooks/useFlightTimer.ts:38 | remaining seconds are never negative, are 0 exactly when the whole seconds reach the total, and otherwise add up with the elapsed seconds to the total |
| FlightTimer.Timer.RemainingSeconds | app/hooks/useFlightTimer.ts:38 | the countdown the hook returns is never negative, and never exceeds the session once the whole seconds have started counting |
| FlightTimer.Timer.constructor | app/hooks/useFlightTimer.ts:4-6 | no start time yet, progress 0 and 0 seconds elapsed |
| FlightTimer.Timer.Tick | app/hooks/useFlightTimer.ts:11-28 | the first tick records the start time and later ticks keep it; progress and whole elapsed seconds are those of the capped elapsed time; another frame is requested exactly when elapsed < total, i.e. exactly when `isComplete` is false afterwards |
| FlightTimer.Timer.SetTotalSeconds | app/hooks/useFlightTimer.ts:8-33 | a new session length is taken on while the start time, the progress and the whole elapsed seconds are kept |
| FlightTimer.ScheduledIffNotComplete | app/hooks/useFlightTimer.ts:25-39 | elapsed < total holds exactly when the progress it gives is below 1 |
| FlightTimer.CompleteIffNoTimeLeft | app/hooks/useFlightTimer.ts:16-39 | for a session of whole seconds, a frame leaves the timer complete exactly when it leaves 0 seconds remaining |
| FlightTimer.ProgressInUnitInterval | app/hooks/useFlightTimer.ts:16-17 | once time has started, elapsed lies in [0, total] and progress in [0, 1] |
| FlightTimer.TickMonotone | app/hooks/useFlightTimer.ts:16-23 | a later frame timestamp never gives less elapsed time, less progress or fewer whole elapsed seconds |
| FlightTimer.HalfwayAndDone | app/hooks/useFlightTimer.ts:16-39 | a 60-second session 30 s in is at progress 0.5 with 30 s remaining and not complete; at 60 s it is complete with 0 remaining |
| BoardingPass.CodeUnits | app/components/BoardingPass.tsx:29 | a character below U+10000 is its own single code unit; one above U+FFFF is a high surrogate in [D800, DC00) then a low surrogate in [DC00, E000) that together encode it |
| BoardingPass.Utf16Append | app/components/BoardingPass.tsx:28 | the code units of a concatenation are the code units of its parts, in order |
| BoardingPass.Utf16 | app/components/BoardingPass.tsx:28 | a string has at least as many UTF-16 units as characters |
| BoardingPass.ToInt32 | app/components/BoardingPass.tsx:29 | `\| 0` gives a signed 32-bit value congruent to its input modulo 2^32 |
| BoardingPass.Polynomial | app/components/BoardingPass.tsx:28-29 | the unwrapped base-31 polynomial of code units is never negative |
| BoardingPass.HashOf | app/components/BoardingPass.tsx:26-32 | the hash a string gets lies in [0, 2^32) and is 0 for the empty string |
| BoardingPass.HashExtends | app/components/BoardingPass.tsx:28-29 | appending a character of the basic plane multiplies the hash by 31 and adds its code unit, modulo 2^32 |
| BoardingPass.HashSeed | app/components/BoardingPass.tsx:26-32 | the hash is the base-31 polynomial of the UTF-16 code units modulo 2^32, lies in [0, 2^32), and is 0 for the empty string |
| BoardingPass.LcgStep | app/components/BoardingPass.tsx:37 | the next state lies in [0, 2^32) |
| BoardingPass.StateAfter | app/components/BoardingPass.tsx:35-39 | after at least one draw, or from a seed in [0, 2^32), the generator state lies in [0, 2^32) |
| BoardingPass.Lcg.constructor | app/components/BoardingPass.tsx:35 | the generator starts at the seed, with no draws made |
| BoardingPass.Lcg.Next | app/components/BoardingPass.tsx:36-39 | one draw advances the state by one LCG step and returns the new state divided by 2^32 |
| BoardingPass.RowsFromSeed | app/components/BoardingPass.tsx:41-45 | exactly 40 rows, row i built from draws 2i+1 (width) and 2i+2 (opacity) of a generator started at the seed |
| BoardingPass.CreateBarcodeRows | app/components/BoardingPass.tsx:34-46 | exactly 40 rows, each fixed by the hash of the seed string alone, so equal seed strings give equal rows |
| BoardingPass.RowAt | app/components/BoardingPass.tsx:41-45 | row i has key `barcode-i`, width "1px" or "2px" and opacity 1 or 0.3 |
| BoardingPass.DrawInUnitInterval | app/components/BoardingPass.tsx:38 | every draw lies in [0, 1) |
| BoardingPass.DrawThresholds | app/components/BoardingPass.tsx:43-44 | a draw exceeds 0.5 exactly when the state exceeds 2^31, and exceeds 0.2 (as 1/5 or as the double the literal denotes) exactly when the state is at least 858993460 |
| BoardingPass.RowFields | app/components/BoardingPass.tsx:41-45 | row i has key `barcode-i`, width "1px" or "2px" and opacity 1 or 0.3, each decided by the state of its own draw |
| BoardingPass.Decimal | app/components/BoardingPass.tsx:42 | a number prints as a non-empty string of decimal digits, one digit exactly for numbers below 10 |
| BoardingPass.BarcodeKey | app/components/BoardingPass.tsx:42 | every key is `barcode-` followed by at least one character |
| BoardingPass.DecimalValue | app/components/BoardingPass.tsx:42 | the digits printed for n denote n |
| BoardingPass.BarcodeKeyDenotes | app/components/BoardingPass.tsx:42 | every key is `barcode-` followed by the decimal digits of its own index |
| BoardingPass.BarcodeKeysDistinct | app/components/BoardingPass.tsx:42 | different rows have different keys |
| BoardingPass.BarcodeKeyExamples | app/components/BoardingPass.tsx:42 | the keys print their index in decimal: `barcode-0`, `barcode-7`, `barcode-39` |
| BoardingPass.FromCity | app/components/BoardingPass.tsx:64 | the origin label is always one of the six city names or "Origin" |
| BoardingPass.ToCity | app/components/BoardingPass.tsx:65 | the destination label is always one of the six city names or "Destination" |
| BoardingPass.CityLookup | app/components/BoardingPass.tsx:15-22 | each of the six codes names its city through both `FromCity` and `ToCity`, and any other code falls back to "Origin" or "Destination" |
| BoardingPass.BeforeFirstSpace | app/components/BoardingPass.tsx:66 | the result is the longest prefix of the name without a space |
| BoardingPass.PassengerShort | app/components/BoardingPass.tsx:66 | an empty prefix before the first space gives back the whole name; otherwise the result is the non-empty prefix up to the first space or the end |
| BoardingPass.BeforeFirstSpaceOfWord | app/components/BoardingPass.tsx:66 | text before the first space of a word followed by a space is that word |
| BoardingPass.PassengerShortFirstWord | app/components/BoardingPass.tsx:66 | a name of several words shortens to its first word |
| BoardingPass.PassengerShortExample | app/components/BoardingPass.tsx:66 | "Focus Pilot" shortens to "Focus" |
| BoardingPass.PassState.constructor | app/components/BoardingPass.tsx:56 | the pass starts untorn with no callback scheduled |
| BoardingPass.PassState.HandleTear | app/components/BoardingPass.tsx:58-62 | the first call tears the pass and schedules `onTear`; later calls change nothing; `onTear` is scheduled at most once |
| FlightScreen.EtaSeconds | app/components/FlightScreen.tsx:72-75 | the memoised `etaLabel` holds the remaining seconds while in flight and the selected flight's duration otherwise |
| FlightScreen.EtaWithinDuration | app/components/FlightScreen.tsx:72-75 | fed with the timer's countdown for the selected flight, `etaLabel` never holds a negative time or more than the flight's duration |
| FlightScreen.EtaCountsDown | app/components/FlightScreen.tsx:72-75 | while in flight `etaLabel` never holds more time after more elapsed seconds; in every other state it holds the flight's duration |
| FlightScreen.CompletedOnlyFromInFlight | app/components/FlightScreen.tsx:48-52 | the only event that reaches `completed` from another state is a completion check with a complete timer while in flight |
| FlightScreen.Transition | app/components/FlightScreen.tsx:48-70 | the completion effect either leaves the state alone or moves `in_flight` to `completed`; no handler ever leads to `completed` |
| FlightScreen.RunningFlag | app/components/FlightScreen.tsx:43-46 | the timer's running flag is set only in a state where the map is shown |
| FlightScreen.HeaderButtonMeaning | app/components/FlightScreen.tsx:143-159 | the header's button cancels the flight while the flow is `in_flight` (the running flag the screen passes to the timer), and otherwise returns to `select` |
| FlightScreen.ShowsMap | app/components/FlightScreen.tsx:79-81 | the map is drawn exactly in the states past check-in, and not in `select` or `checkin` |
| FlightScreen.HeaderButton | app/components/FlightScreen.tsx:143-159 | the header shows "End Flight" exactly while the flow is `in_flight` (the running flag the screen passes to the timer), and "New Flight" otherwise |
| FlightScreen.Screen.constructor | app/components/FlightScreen.tsx:37-41 | the flow starts in `select` with the first flight selected and zoom 6.2 |
| FlightScreen.Screen.HandleSelect | app/components/FlightScreen.tsx:63-66 | selects the given flight and moves to `checkin`; nothing else changes |
| FlightScreen.Screen.HandleStart | app/components/FlightScreen.tsx:54-57 | one call to the timer's reset, then `in_flight` |
| FlightScreen.Screen.HandleCancel | app/components/FlightScreen.tsx:59-61 | moves to `cancelled`; nothing else changes |
| FlightScreen.Screen.HandleReset | app/components/FlightScreen.tsx:68-70 | moves to `select` from any state; nothing else changes |
| FlightScreen.Screen.CompletionEffect | app/components/FlightScreen.tsx:48-52 | moves from `in_flight` to `completed` when the timer is complete and leaves every other state alone |
| FlightScreen.Screen.SetZoom | app/components/FlightScreen.tsx:136 | the slider sets the zoom and nothing else |
| FlightMap.BuildLineString | app/components/FlightMap.tsx:26-33 | a line of more than one point is kept as is and a single point p becomes exactly [p, p], so the result always has two ends, the same first and last points, and the same points |
| FlightMap.UpdateFrame | app/components/FlightMap.tsx:154-175 | an update hands both sources a line of at least two points, the two lines meet at the marker, the camera is centred on the marker and turned to its rotation, the zoom is passed through, and the rotation is a compass heading |
| FlightMap.FrameAgrees | app/components/FlightMap.tsx:154-175 | after an update the flown line ends and the unflown line starts at the interpolated position; the marker and the camera centre are at it; marker rotation and camera bearing are the heading; the zoom is passed through |
| FlightMap.FrameCoversRoute | app/components/FlightMap.tsx:154-166 | on a well-formed table the flown line is the route up to the plane's segment then the plane, the rest is the unflown line, the two retrace the route, and the rotation is a compass heading |
| FlightMap.UpdateFitsRoute | app/components/FlightMap.tsx:154-175 | every update on a route with its distance table gives two lines of at least two points that meet at the plane and retrace the route, with the camera on the plane and turned to its compass heading |
| FlightMap.ArcEndpoints | app/components/FlightMap.tsx:43-46 | the memoised route starts at TPE and ends at HND |
| FlightMap.BuildRoute | app/components/FlightMap.tsx:43-49 | the memo is the 180-step Bezier arc from TPE to HND, 181 points, with its distance table |
| FlightMap.MapDisplay.constructor | app/components/FlightMap.tsx:43-63 | the route is built once and the map is not yet loaded; the camera is centred on the origin with bearing 20 and the given zoom |
| FlightMap.MapDisplay.OnLoad | app/components/FlightMap.tsx:67-145 | the flown line starts as [origin, origin], the unflown line is the whole route, the plane sits on the origin, and the map counts as loaded |
| FlightMap.MapDisplay.Show | app/components/FlightMap.tsx:165-175 | the two sources, the marker and the camera receive the frame's values |
| FlightMap.MapDisplay.Update | app/components/FlightMap.tsx:150-176 | before load nothing changes; afterwards the map shows the update's frame, whose lines meet at the plane and retrace the route, with the camera on the plane |

## Left out

- Haversine and atan2: the trigonometry has no usable Dafny counterpart. Both are the fields of `Flight.Earth`, and only `Flight.Sound` is assumed about them. Three lemmas also assume `Flight.SeparatesOn`: consecutive points of the route are at distance zero only if they are equal. That is a hypothesis about one route, not about haversine, which gives distance zero between distinct points on a pole and between longitudes 360 degrees apart.
- Floating point: every JavaScript number is an exact real, so rounding error, NaN and infinities are not modelled. The one place where a double literal could change a branch is covered: `BoardingPass.DrawThresholds` gives the same threshold for `0.2` and for the double it denotes.
- Scheduling: `requestAnimationFrame` and `cancelAnimationFrame`, the 700 ms `setTimeout` before `onTear`, and React's state, effect, memo and ref machinery are host scheduling. Ticks take the frame timestamp as a parameter, and the tear latch counts the callbacks it schedules instead of running them.
- Timer reset, pause and the running flag: the hook shown accepts only `totalSeconds` and returns no `reset`, although the screen passes a second argument and calls `reset()`. The screen records each `reset()` call as a count (`timerResets`) without giving it any effect. With that hook `reset` is `undefined`, so `handleStart` would throw a TypeError at `app/components/FlightScreen.tsx:55` before it sets `in_flight`; `FlightScreen.Screen.HandleStart` treats the call as returning. The hook also ignores the running flag and starts its frame loop when it mounts (`app/hooks/useFlightTimer.ts:30`).
- maplibre: map creation, layer hiding, sources, markers, DOM elements and the `easeTo` animation are calls into a library. `FlightMap.MapDisplay` keeps only the values handed to them.
- FlightMap.BuildLineString: requires a non-empty input, where JavaScript would build `[undefined, undefined]`. Every caller passes a non-empty line.
- FlightMap.MapDisplay.constructor: the component declares only `progress` and `zoom` as props and uses its fixed TPE to HND route, so the origin and destination the screen passes are not modelled.
- JSX, CSS masks and Tailwind classes are presentation. `formatTime` (`app/lib/time`) is not part of this model: `etaLabel` is modelled as the seconds it would format (`FlightScreen.EtaSeconds`). The component never renders `etaLabel`: the header's "Remaining" field formats the timer's `remainingSeconds` in every map state, `completed` and `cancelled` included (`app/components/FlightScreen.tsx:124`).
- BoardingPass.CityName: a `Record` lookup in JavaScript also finds inherited `Object.prototype` keys such as "constructor". The map of six codes does not model that.
- Flight.Interpolate: requires a non-empty table no longer than the route. The source throws a TypeError exactly when the found index is 0 on an empty route (inside `bearingBetween` at `app/lib/flight.ts:54`, reached from line 81), or when the found index is -1 on an empty table or reaches the route's length (at line 90, where `start` or `end` is undefined). The requires also excludes tables longer than the route whose found index stays inside the route, where the source returns a pose. Neither the error path nor those inputs are modelled. `FlightMap` always passes a route with its own table.
- Flight.BuildBezierRoute: requires a whole number of steps of at least 1. The source takes any number. For a negative count it returns `[]`. For a fractional count such as 2.5 it returns one point more than its floor, and the last of them is not the destination. No caller relies on either case; `FlightMap` passes 180.
- BoardingPass.CodeUnits: a Dafny `char` is a Unicode scalar value, so a string holding a lone surrogate, which JavaScript allows, cannot be written. The component hashes `${origin}-${destination}` (`app/components/BoardingPass.tsx:87`), and the screen passes only ASCII airport codes.
- `stories/BoardingPass.stories.tsx` is Storybook data and `app/page.tsx` a dynamic-import wrapper. Neither has logic to model.
