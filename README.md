# WarGames map display: geometry and animation engine

A Dafny model of the deterministic core behind a WarGames-style NORAD map. The core exists in three forms: a C++/SDL/OpenGL front end (`wargames_cpp`), a pygame front end (`wargames_map.py`) and an older pygame prototype (`wargames_map_old.py`). The model covers:

- **Projection.** The equirectangular projection: real-valued in C++ (`lonlat_to_xy`) and truncated to whole pixels in Python (`latlon_to_xy`, `project_coords`).
- **Polyline splitting.** There are three splitters, and all three are stated against one generic specification (module `Segmenting`): the maximal runs of a polyline between "crossing" pairs.
  - The C++ splitter (`VectorMap::splitAtAntimeridian`, and the trail loop of `Missile::draw`) cuts where a step's `|dx|` exceeds half the screen width. It keeps only runs of two or more points.
  - The Python `split_at_antimeridian` cuts where `|Δlon| > 180`. It keeps every point.
  - The Python `split_path_at_wrap` cuts in screen space and drops short runs. It returns a lone point as `[[p]]`.
- **Entity state machines.**
  - A missile's progress is capped at 1; finished means progress ≥ 1.
  - An aircraft's progress is cyclic in [0, 1), and `wrapLongitude` keeps longitudes in range.
  - An explosion's age accumulates. It has four rings with fixed delays and a central flash, each visible only inside its window.
  - Index rules pick the head point or the visible prefix of a path.
- **Renderer.** The glow-layer schedule of the renderer, modelled as a log of GL draw calls (class `Render.Renderer`). Entities describe what they draw as a list of `DrawCall`s.
- **C++ main loop (`Simulation.Simulation`).**
  - Frame-time cap, key handling and launch timer.
  - Each missile that finishes spawns exactly one explosion and is removed in the same frame.
  - Finished explosions are removed.
  - Also modelled: the scanline texture buffer (a real `array` filled by nested loops), the target colours, and the post-processing pass chain of each CRT mode.
- **pygame main loop (`PygameMap.Game`).**
  - Two launch timers and the interval controls.
  - An `exploded` flag makes each missile spawn at most one explosion, at the end of its path.
  - The list filters at the end of a frame.
- **Prototype main loop (`PygameMapOld.Prototype`).** One launch every 2.5 s between two different sites of nine, and the trail drawn by each missile.

Floats are modelled as reals. `static_cast<int>` and `int()` are `Common.Trunc`, a truncation toward zero. Three things the code calls become parameters:
- the GeographicLib geodesic (`geodesic: (LatLon, LatLon) -> (real -> LatLon)`, the position at a fraction of the way);
- `sin`/`cos` (`unit`, `sine`);
- the random choices (`LaunchChoice`, burst lists, site indices).

Two observations stated as lemmas:
- Tokyo in the eastern target table (35.68, 139.76) lies 0.11° of longitude from the coordinates `isRussiaOrJapanTarget` tests against, so a submarine missile aimed at it is cyan (`Controls.TargetColors`).
- In the pygame front end a missile that has reached its target stays on the list for another 0.6 s (alive while progress ≤ 1.05). Only the `exploded` flag stops it exploding again (`PygameMap.MissileLifetime`, `PygameMap.Game.Tick`).

## Model

| member | source | states |
|---|---|---|
| Common.TablesWellFormed | wargames_cpp/include/Common.hpp:47-104 | the four coordinate tables have 20, 5, 7 and 12 entries, each with latitude in [-90, 90] and longitude in [-180, 180] |
| Common.Trunc | wargames_map.py:89-93 | int() drops the fraction toward zero: below a non-negative value by less than 1, above a negative one by less than 1 |
| Common.LonLatToXYEdges | wargames_cpp/include/Common.hpp:107-111 | longitude -180 maps to x = 0 and 180 to x = width; latitude 90 maps to y = 0 and -90 to y = height (north on top) |
| Common.LonLatToXYMonotone | wargames_cpp/include/Common.hpp:107-111 | x strictly increases with longitude and y strictly decreases with latitude |
| Common.LonLatToXYInBounds | wargames_cpp/include/Common.hpp:107-111 | a coordinate on the globe projects into [0, width] x [0, height] |
| Common.Clamp | wargames_cpp/include/Common.hpp:113-117 | with lo <= hi the result lies in [lo, hi]; an in-range value comes back unchanged; a value below lo gives lo, and one above hi gives hi |
| Segmenting.ScanFacts | wargames_cpp/src/VectorMap.cpp:140-155 | the push/clear scan's closed runs followed by its open run give back the input; every run is non-empty and crossing-free; one run closes per crossing |
| Segmenting.RunsConcat | wargames_map.py:112-126 | concatenating the runs gives back the input, in order |
| Segmenting.RunsShape | wargames_map.py:112-126 | every run is non-empty and crossing-free; a non-empty input has one more run than it has crossing pairs |
| Segmenting.NoCrossingIffUnbroken | wargames_map.py:104-110 | no consecutive pair crosses exactly when the crossing count is zero |
| Segmenting.RunsUnbroken | wargames_map.py:112-126 | a non-empty polyline with no crossings is a single run |
| Segmenting.RunsAtCrossing | wargames_map.py:116-123 | at a crossing the runs of a + b are the runs of a followed by the runs of b |
| Segmenting.KeepLongMember | wargames_cpp/src/VectorMap.cpp:146-159 | a run is kept exactly when it has two or more points |
| Segmenting.SplitSegments | wargames_map.py:395-419 | every emitted segment has at least two points and no crossing pair |
| Segmenting.SplitUnbroken | wargames_cpp/src/VectorMap.cpp:141-160 | a crossing-free polyline of two or more points comes back as exactly one segment, equal to it |
| Segmenting.SplitAtOneCrossing | wargames_cpp/src/VectorMap.cpp:143-160 | one crossing between two crossing-free halves of two or more points gives exactly those two halves |
| Segmenting.KeepLongStep | wargames_cpp/src/VectorMap.cpp:144-154 | a crossing emits the open run if it has two or more points and starts a new run at the point; otherwise the point extends the open run |
| Segmenting.KeepLongFinish | wargames_cpp/src/VectorMap.cpp:157-160 | at the end the open run is emitted too, when it has two or more points |
| Render.GlowScheduleShape | wargames_cpp/src/Renderer.cpp:238-247 | a glow primitive issues exactly `layers` passes. Every pass but the last has alpha factor 0.3/layers and the last has full alpha, with RGB passed through. Widths strictly increase from 1.8 to 1 + 0.8·layers |
| Render.GlowWidthStep | wargames_cpp/src/Renderer.cpp:242 | pass k is 1.8 + 0.8k wide |
| Render.GlowPass | wargames_cpp/src/Renderer.cpp:240-246 | loop pass i, counted down from layers-1, is entry layers-1-i of the schedule |
| Render.CircleClosed | wargames_cpp/src/Renderer.cpp:253-270 | the circle strip has 33 points and ends where it starts |
| Render.Interleave | wargames_cpp/src/Renderer.cpp:289-295 | the vertex buffer holds two floats per point, x then y, in input order |
| Render.Renderer.constructor | wargames_cpp/src/Renderer.cpp:7-20 | a new renderer has issued no GL calls |
| Render.Renderer.SetAdditiveBlending | wargames_cpp/src/Renderer.cpp:214-220 | true selects (ONE, ONE); false selects (SRC_ALPHA, ONE_MINUS_SRC_ALPHA) |
| Render.Renderer.DrawLine | wargames_cpp/src/Renderer.cpp:222-236 | one GL_LINES draw of 2 vertices in the given colour and width |
| Render.Renderer.DrawLineWithGlow | wargames_cpp/src/Renderer.cpp:238-247 | exactly the schedule's passes over the line, in order, and nothing else |
| Render.Renderer.DrawCircle | wargames_cpp/src/Renderer.cpp:249-271 | one GL_LINE_STRIP draw of 33 vertices at the 33 fractions of a turn around the centre |
| Render.Renderer.DrawCircleWithGlow | wargames_cpp/src/Renderer.cpp:273-281 | the same layer schedule as a glow line, over the circle strip |
| Render.Renderer.DrawPath | wargames_cpp/src/Renderer.cpp:283-305 | nothing for fewer than two points; otherwise one line strip over all points in order |
| Render.Renderer.DrawPathWithGlow | wargames_cpp/src/Renderer.cpp:307-315 | nothing for fewer than two points; otherwise the same layer schedule over the path |
| Maps.CrossesAntimeridianSymmetric | wargames_cpp/src/VectorMap.cpp:163-168 | the wrap test is symmetric and strict: a jump of exactly half the width (960) does not split, 960.5 does |
| Maps.Project | wargames_cpp/src/VectorMap.cpp:51-56 | one projected point per vertex |
| Maps.RedCountryExamples | wargames_cpp/src/VectorMap.cpp:96-107 | the name test is a case-sensitive substring test: "Russian Federation" and "JAPAN" are red; "russia", "" and a missing name are not |
| Maps.AntimeridianSegmentsWellFormed | wargames_cpp/src/VectorMap.cpp:137-161 | every appended segment has at least two points, the given colour, and no consecutive |dx| above half the width |
| Maps.AntimeridianSegmentsUnbroken | wargames_cpp/src/VectorMap.cpp:137-161 | empty input appends nothing; a wrap-free input of two or more points appends exactly itself |
| Maps.AntimeridianSegmentsInOrder | wargames_cpp/src/VectorMap.cpp:143-160 | the appended segments are the long runs of the input in order, and the runs concatenate back to the input |
| Maps.ScanStep | wargames_cpp/src/VectorMap.cpp:143-155 | one step of the loop in terms of the segments emitted so far |
| Maps.ScanFinish | wargames_cpp/src/VectorMap.cpp:157-160 | after the loop the final push completes the appended segments |
| Maps.ProjectPart | wargames_cpp/src/VectorMap.cpp:51-56 | the vertex loop projects every vertex, in order |
| Maps.GlowPaths | wargames_cpp/src/VectorMap.cpp:170-185 | one glow-path call per segment |
| Maps.SegmentList.PushBack | wargames_cpp/src/VectorMap.cpp:147 | push_back appends one segment and changes nothing else |
| Maps.VectorMap.constructor | wargames_cpp/src/VectorMap.cpp:6-9 | the three segment layers start empty and distinct |
| Maps.VectorMap.SplitAtAntimeridian | wargames_cpp/src/VectorMap.cpp:137-161 | the caller's vector gains exactly the wrap-free runs of two or more points, in order; its earlier entries are untouched |
| Maps.VectorMap.LoadPart | wargames_cpp/src/VectorMap.cpp:47-60 | a part is projected and, when it has vertices, split into the given layer |
| Maps.VectorMap.LoadParts | wargames_cpp/src/VectorMap.cpp:47-61 | the parts of a shape are appended in order |
| Maps.VectorMap.LoadCoastlineShape | wargames_cpp/src/VectorMap.cpp:42-64 | a coastline shape extends only the coastline layer, in dim cyan |
| Maps.VectorMap.LoadCountryShape | wargames_cpp/src/VectorMap.cpp:92-130 | a red country extends only the red layer, in red; any other extends only the border layer, in darker cyan |
| Maps.VectorMap.Draw | wargames_cpp/src/VectorMap.cpp:170-185 | coastlines, then borders, then red borders, each segment as a 3-layer glow path |
| Maps.DrawOrder | wargames_cpp/src/VectorMap.cpp:170-185 | every map call has 3 layers, and the red borders come after all the others |
| Missiles.SamplePath | wargames_cpp/src/Missile.cpp:26-35 | exactly `samples` points, the first at the start and the last at the end of the geodesic |
| Missiles.CalculatePath | wargames_cpp/src/Missile.cpp:17-36 | the sampling loop builds exactly that path |
| Missiles.Advance | wargames_cpp/src/Missile.cpp:38-43 | progress never exceeds 1, does not fall for dt >= 0, and below 1 is the old progress plus dt/duration |
| Missiles.AdvanceAllElapsed | wargames_cpp/src/Missile.cpp:38-43 | over frames with dt >= 0 the capped progress is min(1, start + total time / duration) |
| Missiles.FlightTime | wargames_cpp/src/Missile.cpp:11-12 | a new missile (progress 0, duration 12) is finished exactly when 12 s of frames have passed |
| Missiles.PositionIndex | wargames_cpp/src/Missile.cpp:105-112 | the index is inside the path; it is 0 at progress 0 and the last point once finished |
| Missiles.PositionIndexMonotone | wargames_cpp/src/Missile.cpp:108-109 | the position never moves backwards as progress grows |
| Missiles.VisibleCount | wargames_cpp/src/Missile.cpp:52 | the visible prefix has between 0 and n points, all n at progress 1 |
| Missiles.TrailWellFormed | wargames_cpp/src/Missile.cpp:57-77 | every trail call is a 5-layer glow path in the missile's colour through two or more points without a wrap; a wrap-free trail is one call |
| Missiles.MarkerBounds | wargames_cpp/src/Missile.cpp:79-89 | the marker sits on the target, with radius in [10, 15] and alpha in [0.5, 1] |
| Missiles.DrawTrail | wargames_cpp/src/Missile.cpp:57-77 | the push/clear loop draws exactly the long wrap-free runs of the visible prefix |
| Missiles.Missile.constructor | wargames_cpp/src/Missile.cpp:8-15 | progress 0, duration 12, base at the projected start, and a 220-point path from the start to the end |
| Missiles.Missile.Update | wargames_cpp/src/Missile.cpp:38-43 | progress advances by dt/duration capped at 1 and never falls, so once isFinished holds it keeps holding |
| Missiles.Missile.Position | wargames_cpp/src/Missile.cpp:105-112 | (0, 0) without a path; the last point once finished; the first at progress 0 |
| Missiles.Missile.Draw | wargames_cpp/src/Missile.cpp:45-90 | nothing without a path. Otherwise the launcher icon at the base (the submarine kind differs only here), then the trail calls when at least two points are visible, then the marker exactly while 0.85 <= progress < 1 |
| Missiles.MarkerPhaseShowsTrail | wargames_cpp/src/Missile.cpp:52-80 | from 85% progress a 220-point trail shows at least 187 points |
| Aircrafts.WrapLonFacts | wargames_cpp/src/Aircraft.cpp:6-10 | the result lies in [-180, 180], differs from the input by whole turns of 360, and leaves an in-range input unchanged |
| Aircrafts.WrapLongitude | wargames_cpp/src/Aircraft.cpp:6-10 | the two while loops compute exactly that wrapped longitude |
| Aircrafts.LoopFractionsDistinct | wargames_cpp/src/Aircraft.cpp:26-28 | the sample fractions i/samples lie in [0, 1) and strictly increase, so the start is not repeated |
| Aircrafts.LoopPath | wargames_cpp/src/Aircraft.cpp:22-35 | exactly `samples` points, sample i at fraction i/samples |
| Aircrafts.LoopPointOnScreen | wargames_cpp/src/Aircraft.cpp:29-33 | after wrapping, every loop point lies within the screen horizontally |
| Aircrafts.BuildLoop | wargames_cpp/src/Aircraft.cpp:22-35 | the loop builds exactly that path |
| Aircrafts.Cycle | wargames_cpp/src/Aircraft.cpp:37-44 | no change with a non-positive duration or an empty path. Otherwise progress stays in [0, 1) for dt >= 0, and is old + dt/duration when that is below 1 |
| Aircrafts.CycleWholeTurns | wargames_cpp/src/Aircraft.cpp:40-43 | the new progress is old + dt/duration minus a whole number |
| Aircrafts.CycleExample | wargames_cpp/src/Aircraft.cpp:37-44 | with duration 30, update(15) gives 0.5 and a second update(15) gives 0 |
| Aircrafts.HeadIndex | wargames_cpp/src/Aircraft.cpp:49-52 | the head index always lies in [0, count - 1] |
| Aircrafts.HeadIndexUnclamped | wargames_cpp/src/Aircraft.cpp:49-52 | for progress in [0, 1) neither clamp applies |
| Aircrafts.TagConnected | wargames_cpp/src/Aircraft.cpp:57-70 | the tag is five connected 2-layer lines at alpha 0.8 from the head, closing its box |
| Aircrafts.Aircraft.constructor | wargames_cpp/src/Aircraft.cpp:13-20 | progress 0, duration = loopSeconds, trail length 18, a 240-point loop |
| Aircrafts.Aircraft.Update | wargames_cpp/src/Aircraft.cpp:37-44 | the progress cycles in [0, 1) and the path is untouched |
| Aircrafts.Aircraft.Draw | wargames_cpp/src/Aircraft.cpp:46-71 | nothing for fewer than 2 points; otherwise a radius-3 dot with 3 glow layers at the head, then the tag |
| Explosions.RingDelaysShape | wargames_cpp/include/Explosion.hpp:21-22 | 4 delays, the first 0, strictly increasing |
| Explosions.RingWindow | wargames_cpp/src/Explosion.cpp:21-38 | ring i is drawn iff 0 <= age - delay_i <= 1.6. When drawn, its radius is 50t in [0, 50] and its alpha factor is 1 - t in [0, 1], with 4 layers |
| Explosions.FlashWindow | wargames_cpp/src/Explosion.cpp:41-48 | the flash is drawn iff age < 0.5. From age 0 its alpha 1 - age/0.5 lies in (0, 1], with 5 layers |
| Explosions.NothingAfterLifetime | wargames_cpp/src/Explosion.cpp:19-49 | past 2.5 s nothing is drawn; at exactly 2.5 s only the last ring, fully grown and at alpha 0 |
| Explosions.Explosion.constructor | wargames_cpp/src/Explosion.cpp:6-13 | age 0, duration 2.5, position and colour as given |
| Explosions.Explosion.Update | wargames_cpp/src/Explosion.cpp:15-17 | age grows by dt; for dt >= 0 it never falls and a finished explosion stays finished |
| Explosions.Explosion.Draw | wargames_cpp/src/Explosion.cpp:19-49 | the rings in order, each inside its window, then the flash; the state is not changed |
| Controls.CapDelta | wargames_cpp/src/main.cpp:261 | dt is at most 0.1, unchanged when below, 0.1 when above, never negative for dt >= 0 |
| Controls.NextIntervalBounds | wargames_cpp/src/main.cpp:275-288 | one key keeps the interval in [0.3, 10]; UP never lengthens it and DOWN never shortens it |
| Controls.IntervalAlwaysInRange | wargames_cpp/src/main.cpp:247-288 | from the 2 s default the interval stays in [0.3, 10] for every key sequence |
| Controls.IntervalFloor | wargames_cpp/src/main.cpp:275-278 | three UPs from 2 s give 0.5 and the fourth reaches the 0.3 floor |
| Controls.CrtModeCycle | wargames_cpp/src/main.cpp:308-324 | C cycles OFF -> LIGHT -> FULL -> OFF, so three presses restore any mode and one always changes it |
| Controls.TargetColors | wargames_cpp/src/main.cpp:131-155 | among the launch targets exactly Moscow and Tokyo are red; in the eastern table only Moscow; no western target; the eastern Tokyo entry is cyan |
| Controls.PixelIndex | wargames_cpp/src/main.cpp:97 | the byte offset of each channel of each pixel lies inside the buffer |
| Controls.SetPixel | wargames_cpp/src/main.cpp:98-101 | the pixel's three colour bytes become v and alpha 255; no other byte changes |
| Controls.FillRow | wargames_cpp/src/main.cpp:95-102 | after row y the first (y+1)·width pixels hold the scanline pattern |
| Controls.CreateScanlineTexture | wargames_cpp/src/main.cpp:92-104 | the buffer has width·height·4 bytes; row y has RGB 200 when y % 3 == 0 and 255 otherwise, with alpha 255 |
| Controls.PostProcessChain | wargames_cpp/src/main.cpp:420-522 | OFF presents the scene; LIGHT runs the composite alone with bloom and flicker 0; FULL runs barrel (scene->A), chromatic (A->B), two blurs (B->pp0->pp1) and the composite (B + pp1 -> screen) |
| Simulation.LaunchesOnGlobe | wargames_cpp/src/main.cpp:337-356 | every launch starts and ends on the globe; it is red exactly when a regular launch targets Moscow or Tokyo, or a submarine launch targets the eastern Moscow entry |
| Simulation.LandOrFly | wargames_cpp/src/main.cpp:363-378 | each missile either lands, leaving one landing point, or stays in flight, never both |
| Simulation.StillBurningMembers | wargames_cpp/src/main.cpp:385-390 | the kept explosions are exactly the unfinished ones |
| Simulation.Simulation.constructor | wargames_cpp/src/main.cpp:228-248 | running, windowed, CRT off, a 2 s interval with the timer at the interval (so the first frame launches), no missiles or explosions |
| Simulation.Simulation.Launch | wargames_cpp/src/main.cpp:342-355 | exactly one new missile is appended for the draws, of the right launcher, colour and path |
| Simulation.Simulation.HandleEvent | wargames_cpp/src/main.cpp:264-334 | quit, ESC and Q stop; UP, DOWN and R set the interval; C steps the CRT mode; F toggles fullscreen; SPACE appends the eight burst missiles, five regular then three submarine; nothing else changes |
| Simulation.Simulation.LaunchBurst | wargames_cpp/src/main.cpp:290-306 | the eight launches of the burst, appended in order, fresh |
| Simulation.Simulation.LaunchNext | wargames_cpp/src/main.cpp:293-305 | one step of the burst loop: the launch for the i-th draw is appended, fresh, after the launches so far |
| Simulation.Simulation.SpawnPhase | wargames_cpp/src/main.cpp:337-356 | the timer gathers dt. Once it reaches the interval it resets to 0 and exactly one missile is appended; otherwise nothing is launched |
| Simulation.Simulation.UpdateAircraft | wargames_cpp/src/main.cpp:359-361 | every aircraft cycles by dt |
| Simulation.Simulation.UpdateMissiles | wargames_cpp/src/main.cpp:363-371 | every missile advances by dt. Each one finished afterwards appends one cyan explosion at its landing point, in missile order, after the older explosions |
| Simulation.Simulation.AdvanceMissile | wargames_cpp/src/main.cpp:363-371 | the loop step: missile i advances and its explosion, if any, is appended |
| Simulation.Simulation.StepMissile | wargames_cpp/src/main.cpp:364-370 | the missile advances; an explosion is appended iff it is finished afterwards |
| Simulation.Simulation.Detonate | wargames_cpp/src/main.cpp:367-370 | one cyan explosion at getPosition, which for a finished missile is the end of its trail |
| Simulation.Simulation.Tick | wargames_cpp/src/main.cpp:255-390 | one frame with dt capped at 0.1. The timer launches as above. Every missile present before the frame, and every one launched in it from progress 0, advances by dt over the flight time; every aircraft cycles its loop by dt; every explosion present before the frame ages by dt. Missiles still flying are kept in order; each finished one leaves exactly one explosion, aged dt in the same frame, and is removed. Finished explosions are removed in order |
| Simulation.Simulation.UpdatePhase | wargames_cpp/src/main.cpp:358-390 | the updates and removals after the launch timer: every missile advances and every aircraft cycles by dt, every earlier explosion ages by dt, finished missiles leave one explosion each, and finished entries are removed; the launch timer and interval are unchanged |
| Simulation.Simulation.UpdateMissilesAndExplosions | wargames_cpp/src/main.cpp:363-390 | every missile advances by dt and every earlier explosion ages by dt. Spawning precedes removal: the explosions of the landed missiles join the list before the explosions age and are filtered |
| Simulation.Simulation.FlightPhase | wargames_cpp/src/main.cpp:363-378 | every missile advances, the landed ones leave their explosions, and only the unfinished stay, in order |
| Simulation.Simulation.ExplosionPhase | wargames_cpp/src/main.cpp:380-390 | every explosion ages by dt and only the unfinished stay, in order |
| Simulation.Simulation.AgeExplosions | wargames_cpp/src/main.cpp:380-383 | every explosion, including those spawned this frame, ages by dt |
| Simulation.Simulation.RemoveFinishedMissiles | wargames_cpp/src/main.cpp:373-378 | remove_if keeps exactly the unfinished missiles, in order |
| Simulation.Simulation.UpdateExplosions | wargames_cpp/src/main.cpp:380-383 | each explosion's age grows by dt; no missile or aircraft changes |
| Simulation.Simulation.RemoveFinishedExplosions | wargames_cpp/src/main.cpp:385-390 | remove_if keeps exactly the unfinished explosions, in order |
| PygameMap.ProjectTruncates | wargames_map.py:89-93 | the pixel is the real projection truncated, so it lies within 1 below it and inside the screen |
| PygameMap.ProjectCoords | wargames_map.py:95-102 | one pixel per vertex, in order, each vertex read as (lon, lat) |
| PygameMap.CrossesAntimeridian | wargames_map.py:104-110 | true iff some consecutive pair differs in longitude by more than 180 |
| PygameMap.CrossesIffSeveralSegments | wargames_map.py:104-126 | a non-empty shape crosses exactly when splitting it gives more than one segment |
| PygameMap.SplitAtAntimeridian | wargames_map.py:112-126 | non-empty, jump-free segments that concatenate back to the input, one more than the jumps (none for empty input) |
| PygameMap.SplitPathAtWrap | wargames_map.py:395-419 | the loop computes exactly the wrap segments of the path |
| PygameMap.WrapScanStep | wargames_map.py:404-414 | one step of the loop: a wrap closes the current run, kept if long, and starts a new one |
| PygameMap.WrapStep | wargames_map.py:404-414 | the loop step stated on the generic scan |
| PygameMap.WrapSegmentsShape | wargames_map.py:395-419 | [] for no points and [points] for one. Otherwise every segment has two or more points with no |dx| above half the width, and a wrap-free path is one segment |
| PygameMap.ArcPoints | wargames_map.py:381-393 | the loop builds the n + 1 samples in order |
| PygameMap.ArcPathShape | wargames_map.py:381-393 | exactly n + 1 points (221 for a missile, in this front end and in the prototype), from the projected start to the projected end, all on screen |
| PygameMap.TrailIndexRange | wargames_map.py:438-439 | k = max(2, int(clamp(p)·(len-1))) lies in [2, len] |
| PygameMap.TrailIndexGrows | wargames_map.py:438-439 | the trail never shrinks as time passes |
| PygameMap.TrailIndexAtArrival | wargames_map.py:438-456 | from arrival on k = len - 1 |
| PygameMap.ExplosionLifetime | wargames_map.py:586-590 | an explosion is alive until 2.5 s after its start |
| PygameMap.NextIntervalsBounds | wargames_map.py:709-723 | UP (×0.7, floor 0.3), DOWN (×1.4, cap 10) and R keep both intervals in [0.3, 10]; UP never lengthens and DOWN never shortens |
| PygameMap.IntervalsAlwaysInRange | wargames_map.py:692-723 | from the defaults 2.5 and 4.0, both intervals stay in [0.3, 10] for every key sequence |
| PygameMap.CrtCycle | wargames_map.py:760-763 | (mode + 1) % 3 follows the same OFF, LIGHT, FULL cycle as the C++ front end; LIGHT is the default |
| PygameMap.Missile.constructor | wargames_map.py:423-429 | a new missile has its 221-point arc and has not exploded |
| PygameMap.Missile.DrawPlan | wargames_map.py:437-470 | the first k points cut at screen wraps, the start mark at path[0], the head blip at point k-1, and the marker iff progress > 0.85 |
| PygameMap.MissileLifetime | wargames_map.py:431-435 | it reaches its target 12 s after launch and is alive until 12.6 s; a dropped missile has always arrived |
| PygameMap.BlastsSpendMarks | wargames_map.py:788-798 | every explosion spawned spends one unexploded mark |
| PygameMap.AtMostOnce | wargames_map.py:788-798 | however many frames run, no more explosions than missiles not yet exploded |
| PygameMap.BlastsAtTargets | wargames_map.py:788-798 | each explosion is at path[-1] of a missile that has arrived and was unmarked; a second check at the same time spawns nothing |
| PygameMap.BlastsAppend | wargames_map.py:788-798 | checking the land list and then the submarine list equals checking both together |
| PygameMap.JoinFleet | wargames_map.py:765-785 | launching keeps all missiles full-path and distinct |
| PygameMap.DroppedHaveExploded | wargames_map.py:788-802 | after the check, every missile the filter drops has exploded |
| PygameMap.Game.constructor | wargames_map.py:681-698 | empty lists, both timers at 0, default intervals, the CRT mode from the command line |
| PygameMap.Game.HandleEvent | wargames_map.py:702-763 | quit, ESC and Q stop; UP, DOWN and R change both intervals; SPACE appends the burst of five and three, all unexploded and starting within 0.5 s of now; C steps the CRT mode |
| PygameMap.Game.Tick | wargames_map.py:765-802 | each due timer (strictly more than its interval) launches an unexploded missile starting now and restarts. The land and submarine lists are each filtered on their own. Arrived, unmarked missiles leave one explosion at path[-1] and are marked. Then only living missiles and explosions stay, and no dropped missile is unexploded |
| PygameMap.Game.Impacts | wargames_map.py:787-802 | the impact check and then the three filters, the land and submarine lists each filtered on their own |
| PygameMap.Game.LaunchTimers | wargames_map.py:765-785 | the land timer, then the submarine timer, each launching an unexploded missile starting now exactly when due |
| PygameMap.Game.CheckImpacts | wargames_map.py:787-798 | both impact loops: the explosions and marks equal one check over the two lists together |
| PygameMap.Game.CheckList | wargames_map.py:788-792 | one impact loop marks and blasts exactly its arrived, unmarked missiles, in order; other missiles keep their marks |
| PygameMap.Game.CheckAt | wargames_map.py:789-792 | the loop body for one missile |
| PygameMap.Game.Prune | wargames_map.py:800-802 | the comprehensions keep exactly the living missiles of each list and the living explosions, in order |
| PygameMapOld.SitesOnScreen | wargames_map_old.py:42-46 | every site is on the globe and its truncated pixel lies on the screen within 1 of the exact projection |
| PygameMapOld.OthersShape | wargames_map_old.py:172 | the destination choices leave out the start and keep every other site: eight of them |
| PygameMapOld.PickJoinsTwoSites | wargames_map_old.py:171-172 | a launch joins two different sites |
| PygameMapOld.MissileLifetime | wargames_map_old.py:108-112 | it arrives after 12 s and is alive iff at most 12.6 s have passed (progress <= 1.05) |
| PygameMapOld.DrawShape | wargames_map_old.py:114-130 | the trail is a prefix of 2 to len points, the head on its last point and the start marker on its first; the end marker iff p > 0.9 |
| PygameMapOld.DrawGrows | wargames_map_old.py:115-117 | the trail never shrinks as time passes |
| PygameMapOld.NewMissile | wargames_map_old.py:102-106 | the path has 221 points from the projected start to the projected end |
| PygameMapOld.KeptAreValid | wargames_map_old.py:176 | the filter keeps only living missiles, and valid ones stay valid |
| PygameMapOld.Prototype.constructor | wargames_map_old.py:151-158 | running, no missiles, last launch at 0 |
| PygameMapOld.Prototype.HandleEvent | wargames_map_old.py:162-167 | quit, ESC and Q stop the loop; nothing else changes |
| PygameMapOld.Prototype.Tick | wargames_map_old.py:169-176 | a launch iff more than 2.5 s have passed, between two different sites, restarting the clock; then only living missiles stay |

## Left out

- GeographicLib: the geodesic between two coordinates is a parameter giving the position at each fraction of the way. The path's length and endpoints are modelled; its shape is not.
- `sin`/`cos`: parameters. This covers the circle vertices, the aircraft loop and the marker pulse.
- Random choices: parameters. The C++ draws are a `LaunchChoice` per launch; the pygame bursts and launches are given as ready-made missiles; the prototype's choices are two indices.
- SDL/OpenGL plumbing: windows, contexts, shaders, framebuffers, textures, uniforms and the fullscreen quad. The post-processing is modelled as its sequence of passes only.
- The vignette texture and the shader maths (`pow`/`sqrt`, blur weights, noise, flicker). These are floating-point pixel effects.
- Shapefile and DBF reading and `findDataFile`. These are file I/O; the loaders take one shape's parts and name.
- The pygame drawing calls, grid, scanline, vignette, noise and CRT surface effects, in both Python front ends. `PygameMap.Missile.DrawPlan` and `PygameMapOld.Missile.Draw` state what is drawn, not how.
- The icon outlines (launch triangle, submarine hull, tower, periscope). They are modelled as one `Icon` draw call at the base position.
- `distance` in Common.hpp: no modelled operation uses it.
- The scene draw order of the C++ main loop (map, aircraft, missiles, explosions). It is a fixed sequence of draw calls with nothing further to state.
- The pygame F key (fullscreen toggle): it re-creates the surfaces and resamples every missile path for the new size, which depends on display I/O. `PygameMap.Game.HandleEvent` leaves the state unchanged for F.
- The pygame `SubmarineMissile` colours. Its progress, lifetime, path and trail index are those of `Missile`, so one class models both.
- Frame timing, `SDL_Delay` and event polling. The frame time and the events are parameters of `Tick` and `HandleEvent`.
- Missiles.Missile.Update: requires dt >= 0. The main loop's dt is a clock difference, and a negative one would take progress below 0.
- Aircrafts.Aircraft.Update: requires dt >= 0, for the same reason (progress would leave [0, 1)).
- Simulation.Simulation.Tick: requires a non-negative raw frame time.
- Simulation.Simulation.UpdateExplosions: the missiles of the ghost `bystanders` list are stated unchanged. This stands in for the fact that the explosion vector and the missile vector are separate heap objects.
- Simulation.Simulation.RemoveFinishedMissiles: `erase(remove_if(...))` is modelled as rebuilding the sequence of kept missiles, not as in-place compaction.
- Simulation.Simulation.RemoveFinishedExplosions: modelled the same way as the missile removal.
- Missiles.SamplePath: requires samples != 1. With one sample the source divides by zero (i / (samples - 1)), and the only call uses 220.
- PygameMap.ArcPoints: requires n >= 1. With n = 0 the source divides by zero (i / n at wargames_map.py:389), and every call uses 220.
- Float precision: every float is a real, so rounding, overflow and NaN are not modelled. Screen pixel sizes are unbounded integers.
