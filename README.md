# Menu navigation and audio bookkeeping, modelled in Dafny

This project models two pieces of the game's runtime that keep their own
bookkeeping.

**The menu navigation dispatcher** (`Navigator`, module `Navigation` in
`navigation.dfy`).
- Menu button presses and releases arrive as `NavigationContext` values: an action, a player and a repeat flag.
- A press raises one navigation event, unless the same action from the same player is already held.
- A press of a direction (Up, Down, Left, Right) also starts a hold with a repeat timer.
- A release drops every hold for that input.
- Every frame, each hold's timer counts down by the frame time. A timer that runs out starts over at the repeat interval and raises one repeat event.
- Events go to the event subscribers and to the navigation scheme on top of a stack of schemes.
- The help bar follows the top scheme.

In the model:
- The held list is a `seq` of `HoldContext` values.
- The scheme stack is a `seq` whose last element is the top.
- Every raised event is recorded as a `Delivery`: the event plus the scheme that received it, if any.

**The audio manager's bookkeeping** (`BassAudioManager`, module `BassAudio`
in `bass_audio.dfy`).
- It keeps a fixed-size table of stem slots, where 0 means empty.
- It chooses a lead channel: the first loaded stem of strictly greatest length. The song's length is taken from it.
- It keeps the playing and loaded flags.
- It keeps two registries that must stay in step: the effects of each stem and the gain DSP of each stem.
- It routes volume settings to one of three destinations.
- It keeps a table of sound-effect samples. Each sample's file is the first supported extension whose file exists.

The native audio library is treated as an oracle:
- Its answers are parameters: stream, tempo and sample handles, stem lengths, effect handles, and the set of files that exist.
- The calls the manager makes to it are appended to a `nativeCalls` log. That log is how the model states what reaches the library.

Loading a song is specified by a function on values, `LoadStems` over a
`LoadState`. The methods are proved to compute it, and the lemmas prove the
slot, counter, lead-channel and registry properties about it.

Each core operation is paired with a property it keeps or a reference
function it is proved to compute:
- `WellFormed` for the held list: no two holds for the same input, only directions, every timer running.
- `HelpBarFor` for the help bar.
- `InStep` for the two reverb registries.
- `LoadStems`, `SfxTable` and `FirstExistingPath` as reference functions for the loops.

## Model

| member | source | states |
|---|---|---|
| Navigation.NavigationContext.AsRepeat | Assets/Script/Menu/Navigation/Navigator.cs:36-44 | the repeat keeps the action and player, is marked as a repeat, and is the same input as the original in both directions |
| Navigation.NavigationContext.IsSameAs | Assets/Script/Menu/Navigation/Navigator.cs:36-39 | two inputs are the same exactly when they are equal once the repeat flag is disregarded: same action and same player |
| Navigation.SameAsIsEquivalence | Assets/Script/Menu/Navigation/Navigator.cs:36-39 | sameness of inputs is reflexive, symmetric and transitive, and ignores the repeat flag |
| Navigation.Release | Assets/Script/Menu/Navigation/Navigator.cs:126 | a release never lengthens the held list, and every entry it keeps was held and is not the released input |
| Navigation.ReleaseMembers | Assets/Script/Menu/Navigation/Navigator.cs:124-127 | after a release, an entry is held exactly when it was held before and is not the released input |
| Navigation.ReleaseDistributes | Assets/Script/Menu/Navigation/Navigator.cs:124-127 | a release filters each part of the list separately, so the kept entries keep their order |
| Navigation.ReleaseAbsent | Assets/Script/Menu/Navigation/Navigator.cs:124-127 | releasing an input that is not held leaves the list unchanged |
| Navigation.ReleaseCount | Assets/Script/Menu/Navigation/Navigator.cs:124-127 | on a list without duplicates, a release removes one entry if the input was held and none otherwise |
| Navigation.ReleaseNoDuplicates | Assets/Script/Menu/Navigation/Navigator.cs:124-127 | a release keeps the list free of duplicates |
| Navigation.ReleaseKeepsWellFormed | Assets/Script/Menu/Navigation/Navigator.cs:124-127 | a release keeps the held-list invariant, and afterwards the released input is not held |
| Navigation.NoDuplicateHoldsIsPairwise | Assets/Script/Menu/Navigation/Navigator.cs:110-127 | "no input held twice" said recursively means the same as "no two positions hold the same input" |
| Navigation.Press | Assets/Script/Menu/Navigation/Navigator.cs:110-122 | a press only appends: the old list stays as a prefix, and one hold, of the input with the 500 ms cooldown, is added exactly when the input is not held and is a direction |
| Navigation.PressKeepsWellFormed | Assets/Script/Menu/Navigation/Navigator.cs:110-122 | a press keeps the held-list invariant; afterwards the input is held exactly when it already was or is one of the four directions |
| Navigation.Tick | Assets/Script/Menu/Navigation/Navigator.cs:85-94 | one frame on one hold keeps its input and leaves the timer positive; a timer that reaches 0 or below starts over at the 35 ms repeat interval, and any other timer goes down by the frame time |
| Navigation.TickAll | Assets/Script/Menu/Navigation/Navigator.cs:85-94 | a frame keeps the number of holds and each hold's input in its place, leaves every timer positive, and lowers each timer that does not run out by the frame time |
| Navigation.TickAllKeepsWellFormed | Assets/Script/Menu/Navigation/Navigator.cs:85-94 | a frame keeps the held-list invariant (so every timer is positive afterwards) and keeps every entry's input in its place |
| Navigation.Repeats | Assets/Script/Menu/Navigation/Navigator.cs:85-94 | a frame raises at most one event per hold, and every event it raises is a repeat |
| Navigation.RepeatsFireOncePerExpiredHold | Assets/Script/Menu/Navigation/Navigator.cs:89-93 | in a well-formed list, a frame raises exactly one repeat of each input whose timer runs out and none of the others |
| Navigation.PushPopTop | Assets/Script/Menu/Navigation/Navigator.cs:144-154 | a pushed scheme becomes the top and what the help bar shows; popping it gives back the previous stack and its top |
| Navigation.Navigator.constructor | Assets/Script/Menu/Navigation/Navigator.cs:73-80 | a new dispatcher holds nothing, has an empty stack and a reset help bar, and has raised no event |
| Navigation.Navigator.ProcessInput | Assets/Script/Menu/Navigation/Navigator.cs:100-108 | a pressed button acts as a press and a released one as a release of the non-repeat input; an event is raised only for a press of an input not already held |
| Navigation.Navigator.StartNavigationHold | Assets/Script/Menu/Navigation/Navigator.cs:110-122 | pressing a held input changes nothing and raises nothing; otherwise exactly one event goes to the top scheme, and a hold with the 500 ms cooldown is appended exactly for a direction |
| Navigation.Navigator.EndNavigationHold | Assets/Script/Menu/Navigation/Navigator.cs:124-127 | the held list becomes the release of the input, which is then not held; no event is raised |
| Navigation.Navigator.IsHeld | Assets/Script/Menu/Navigation/Navigator.cs:129-132 | the answer is true exactly when some hold, of any player, has the action |
| Navigation.Navigator.InvokeNavigationEvent | Assets/Script/Menu/Navigation/Navigator.cs:134-142 | one delivery is recorded, to the top scheme or to none when the stack is empty |
| Navigation.Navigator.Update | Assets/Script/Menu/Navigation/Navigator.cs:82-94 | every hold advances one frame, and the repeats of the expired holds are delivered to the top scheme in list order; the invariant is kept |
| Navigation.Navigator.TickHolds | Assets/Script/Menu/Navigation/Navigator.cs:85-94 | the loop over the holds computes the frame on the whole list and delivers the repeats in list order |
| Navigation.Navigator.PushScheme | Assets/Script/Menu/Navigation/Navigator.cs:144-148 | the scheme goes on top and the help bar shows it |
| Navigation.Navigator.PopScheme | Assets/Script/Menu/Navigation/Navigator.cs:150-154 | a non-empty stack loses its top and the help bar follows the new top; an empty stack is refused and nothing changes |
| Navigation.Navigator.PopAllSchemes | Assets/Script/Menu/Navigation/Navigator.cs:156-160 | the stack is emptied and the help bar reset |
| Navigation.Navigator.UpdateHelpBar | Assets/Script/Menu/Navigation/Navigator.cs:167-177 | the help bar shows the top scheme, or is reset when the stack is empty |
| Navigation.PushThenPopRestores | Assets/Script/Menu/Navigation/Navigator.cs:144-154 | a push followed by a pop restores the stack, its top and the help bar |
| BassAudio.LoadStemOnlyGrows | Assets/Script/Audio/BassAudioManager.cs:183-236 | a stem is accepted exactly when no insertion threw before, its slot is empty and its stream opened, and otherwise changes nothing; it never touches another slot, and it only appends to the accepted stems, the native calls and the registry |
| BassAudio.LoadStemsOnlyGrows | Assets/Script/Audio/BassAudioManager.cs:182-237 | a load never overwrites a filled slot, leaves alone every slot no stem names, only appends to the accepted stems, the native calls and the registry, and accepts only stems among its files |
| BassAudio.FailedTempoRegistersZero | Assets/Script/Audio/BassAudioManager.cs:203-234 | a stem whose tempo stream fails is counted but leaves its slot 0 and registers handle 0; it throws exactly when 0 is already registered |
| BassAudio.LoadStemsStopsOnThrow | Assets/Script/Audio/BassAudioManager.cs:234 | once a registry insertion has thrown, the remaining stems change nothing |
| BassAudio.LoadStemKeepsSlotBookkeeping | Assets/Script/Audio/BassAudioManager.cs:182-232 | one stem keeps the counter equal to the stems taken, and every filled slot holds the tempo handle of a stem taken for it |
| BassAudio.LoadStemsKeepsSlotBookkeeping | Assets/Script/Audio/BassAudioManager.cs:182-236 | the same bookkeeping is kept over a whole sequence of stems |
| BassAudio.LoadCountsFilledSlots | Assets/Script/Audio/BassAudioManager.cs:180-236 | a load from an empty table counts one per stem taken, and that count is the number of filled slots plus the taken stems whose tempo handle was 0; each filled slot holds a taken stem's tempo handle |
| BassAudio.LoadStemKeepsLead | Assets/Script/Audio/BassAudioManager.cs:225-229 | one stem keeps the lead as the first taken stem of strictly greatest length |
| BassAudio.LoadStemsKeepsLead | Assets/Script/Audio/BassAudioManager.cs:182-236 | the lead property is kept over a whole sequence of stems |
| BassAudio.LoadPicksLead | Assets/Script/Audio/BassAudioManager.cs:225-229 | a load picks as lead the first taken stem with the greatest length, or handle 0 with length 0 when no stem has a positive length |
| BassAudio.LoadStemKeepsRegistries | Assets/Script/Audio/BassAudioManager.cs:231-235 | one stem keeps the registries in step and every filled slot registered; while nothing throws, every filled slot's registry stays empty |
| BassAudio.LoadStemsKeepsRegistries | Assets/Script/Audio/BassAudioManager.cs:182-236 | the same registry facts are kept over a whole sequence of stems |
| BassAudio.LoadLeavesFreshRegistries | Assets/Script/Audio/BassAudioManager.cs:234 | a load keeps the registries in step, and when no insertion throws every stored handle has an empty effect registry |
| BassAudio.ToggleReverb | Assets/Script/Audio/BassAudioManager.cs:340-362 | afterwards the stem has reverb exactly as requested, with the new effect handle and gain DSP handle when it is turned on and no gain DSP when it is off; the registries stay in step; the stem's other effects, and every other stem's effects and gain DSP, are untouched; asking for the state the stem is already in changes nothing |
| BassAudio.ToggleReverbIdempotent | Assets/Script/Audio/BassAudioManager.cs:340-355 | applying the same reverb setting twice gives the same registries as applying it once |
| BassAudio.TruncateToInt | Assets/Script/Audio/BassAudioManager.cs:319 | the conversion of a real to an integer truncates toward zero |
| BassAudio.FirstExistingPath | Assets/Script/Audio/BassAudioManager.cs:140-147 | the chosen path is the bare path or one whose file exists |
| BassAudio.FirstExistingPathIsFirst | Assets/Script/Audio/BassAudioManager.cs:140-147 | the chosen path carries the first extension, in order, whose file exists, and is the bare path when none exists |
| BassAudio.SfxHandleMissing | Assets/Script/Audio/BassAudioManager.cs:138-164 | an effect with no existing file, bare or with a supported extension, gets handle 0; a non-zero handle is what the library returned for a file that exists |
| BassAudio.SfxTable | Assets/Script/Audio/BassAudioManager.cs:133-166 | the sample table has one slot per sound effect |
| BassAudio.SfxTableLookup | Assets/Script/Audio/BassAudioManager.cs:149-164 | each effect's slot holds its loaded handle, or 0 when its file is missing or fails to load; a slot no effect maps to stays 0 |
| BassAudio.FreeAllFreesEach | Assets/Script/Audio/BassAudioManager.cs:258-264 | one free per slot, in slot order, of the handle the slot held |
| BassAudio.UnloadCallsFreeEach | Assets/Script/Audio/BassAudioManager.cs:253-264 | unloading frees the mixer first when there is one and then every slot's handle, one call each |
| BassAudio.BassAudioManager.constructor | Assets/Script/Audio/BassAudioManager.cs:48-67 | the manager starts unloaded and not playing, with every stem and sample slot empty and empty registries |
| BassAudio.BassAudioManager.LoadSfx | Assets/Script/Audio/BassAudioManager.cs:130-166 | the loop fills a new sample table exactly as the reference sound-effect table says |
| BassAudio.BassAudioManager.ChooseSfxPath | Assets/Script/Audio/BassAudioManager.cs:140-147 | the loop over the formats stops at the first existing file, as the reference path choice says |
| BassAudio.BassAudioManager.UnloadSong | Assets/Script/Audio/BassAudioManager.cs:248-268 | afterwards nothing plays or is loaded, no stems are counted, every slot is 0 and there is no lead; the mixer (if any) and then every slot's handle are freed |
| BassAudio.BassAudioManager.FreeStemSlots | Assets/Script/Audio/BassAudioManager.cs:258-264 | the loop empties every slot and frees each slot's handle in slot order |
| BassAudio.BassAudioManager.LoadSong | Assets/Script/Audio/BassAudioManager.cs:171-246 | the new state is exactly the reference load applied after the unload; the song is never playing afterwards and is loaded exactly when no insertion threw; when none threw, its length is the lead's length and every stored handle has an empty registry; after a throw the length keeps its previous value |
| BassAudio.BassAudioManager.LoadIntoMixer | Assets/Script/Audio/BassAudioManager.cs:175-245 | from an unloaded song, the state becomes the reference load into the new mixer, and the loaded flag and length are set unless an insertion threw |
| BassAudio.BassAudioManager.LoadStemFiles | Assets/Script/Audio/BassAudioManager.cs:182-236 | the loop over the stem files computes the reference load, stopping at a throw |
| BassAudio.BassAudioManager.LoadStemFile | Assets/Script/Audio/BassAudioManager.cs:183-235 | one stem file changes the table, counter, lead, registry and call log exactly as the reference step says |
| BassAudio.BassAudioManager.Play | Assets/Script/Audio/BassAudioManager.cs:270-281 | playing starts only for a loaded song that is not playing, and then the flag is set whatever the library answers; otherwise nothing changes |
| BassAudio.BassAudioManager.Pause | Assets/Script/Audio/BassAudioManager.cs:283-291 | pausing happens only for a loaded song that is playing, and then the flag is cleared; otherwise nothing changes |
| BassAudio.BassAudioManager.PlaySoundEffect | Assets/Script/Audio/BassAudioManager.cs:293-302 | an effect whose slot is 0 plays nothing; otherwise its channel gets the effect volume times that effect's own gain and is played |
| BassAudio.BassAudioManager.SetStemVolume | Assets/Script/Audio/BassAudioManager.cs:304-315 | an empty slot is left alone; otherwise the stem's channel gets the volume times the stem's volume setting |
| BassAudio.BassAudioManager.UpdateVolumeSetting | Assets/Script/Audio/BassAudioManager.cs:317-329 | exactly one destination changes: the global volume, set to 10000 times the volume truncated, for the master; the effect volume for sound effects; or that stem's volume setting |
| BassAudio.BassAudioManager.ApplyReverb | Assets/Script/Audio/BassAudioManager.cs:331-363 | an empty slot is left alone; otherwise the registries change as the reverb toggle says and stay in step; removing reverb takes the effect and gain DSP off the channel |

## Left out

- Native audio library calls are not re-specified. Their answers are parameters, and only the calls whose effect matters to the bookkeeping are logged. Not logged, among others: mixer creation and its thread attribute, stem stream creation, tempo stream creation, sample loading, the sample channel query, the length queries, reverb and DSP attachment, and the reverb parameter structs.
- `Initialize`, `GetBassDirectory`, `Unload`, `GainDSP`, `GetPosition` and `SetPosition` are not part of this model: they are host configuration, sample-buffer arithmetic and position queries.
- The speed-up tempo and pitch adjustment in `LoadSong` is left out: it is floating-point work whose results only go to the library.
- The Unity lifecycle (`Awake`, `Start`, `OnApplicationQuit`) and engine types are left out, and so are log messages and the help bar's own drawing (`ForceHideMusicPlayer` included). The help bar is recorded only as which scheme it shows.
- Assets/Script/UI/GenericOption.cs is not part of this model: it only sets colours, sprites and visibility on widgets.
- Navigation.Navigator.Update: the frame time is a whole number of milliseconds (the repeat interval 35, the cooldown 500), where the source uses seconds as single-precision floats.
- Navigation.Navigator.Update: the event handlers are not modelled as code. A handler that pushed or popped schemes, or pressed or released inputs, in the middle of a frame is not covered. The model delivers all repeats of a frame to the scheme on top at its start.
- Navigation.Navigator.ProcessInput, Navigation.Navigator.StartNavigationHold, Navigation.Navigator.InvokeNavigationEvent: the event subscribers and the scheme callbacks are treated as doing nothing. In the source the subscribers run before the top scheme is read, so a subscriber that pushes or pops a scheme changes which scheme receives the action and leaves the stack changed. Here the receiving scheme is the top at entry, and the scheme stack and help bar are unchanged by these members.
- Navigation.Navigator.PopScheme: popping an empty stack throws in the source. Here it returns `ok == false` and changes nothing.
- BassAudio.BassAudioManager.LoadSong: each stem's path is reduced to the slot its name maps to, given with the library's answers in a `StemFile`. The requirement that every slot be in range stands in for the stem-name lookup, which is not part of this model.
- BassAudio.BassAudioManager.LoadSong: "the counter equals the number of filled slots" holds only when the library never returns tempo handle 0. The counter is proved equal to the filled slots plus the stems taken with tempo handle 0, and such a stem leaves its slot empty.
- BassAudio.BassAudioManager.LoadSong: an effect-registry insertion for a handle that is already registered throws in the source and ends the load. Here that ends the load with `thrown`, and the song is then not marked loaded. The registries are never cleared on unload, so this happens when the library reuses a handle, and also after a stem whose tempo stream failed: that stem registers handle 0 (FailedTempoRegistersZero), and the next stem whose tempo stream fails, in the same song or a later one, throws.
- BassAudio.BassAudioManager.SetStemVolume: the stem must index the slot table. An out-of-range index, which throws in the source, is not modelled. The same holds for ApplyReverb, UpdateVolumeSetting and PlaySoundEffect.
- BassAudio.BassAudioManager.LoadSfx: effect names map to slots through a total function the caller supplies; the name lookup itself is not part of this model. Paths are joined with "/".
- BassAudio.TruncateToInt: the 32-bit range of the conversion is not modelled. A volume outside about ±214748 would overflow in the source.
- Volumes and lengths are reals, not double-precision floats; the single-precision copy of the song length is not kept.
