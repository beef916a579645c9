/** Bookkeeping of the audio manager that sits on the BASS native library:
    the table of loaded stems, the choice of the lead channel, the play and
    pause flags, the reverb registries, volume routing and the sound-effect
    table.

    The native library is an oracle. What it answers (stream handles,
    lengths, effect handles, sample handles, which files exist) is passed in
    as parameters; what the manager asks of it is recorded as a log of
    native calls. */
module BassAudio {

  /** Effect kinds the manager registers per stem. Only DX reverb is used. */
  datatype EffectType = DXReverb | Freeverb

  /** The reverb the manager applies. */
  const ReverbType: EffectType := DXReverb

  /** File extensions tried for a sound effect, in order of preference. */
  const SupportedFormats: seq<string> := [".ogg", ".mogg", ".wav", ".mp3", ".aiff", ".opus"]

  /** The destinations of a volume setting: the master volume, the sound
      effects, or one song stem (by its ordinal, which indexes the stem table). */
  datatype SongStem = Master | Sfx | Stem(ordinal: nat)

  /** Native calls whose effect the model keeps. Handles are the library's
      integer handles; 0 means "none". */
  datatype NativeCall =
    | StreamFree(handle: int)
    | ChannelPlay(handle: int)
    | ChannelPause(handle: int)
    | SetVolume(handle: int, volume: real)
    | SetGlobalStreamVolume(level: int)
    | MixerAddChannel(mixer: int, handle: int)
    | ChannelRemoveFx(handle: int, fx: int)
    | ChannelRemoveDsp(handle: int, dsp: int)

  /** One stem file of a song, with what the helpers and the native library
      answer for it: the stem slot its name maps to, the decoding stream
      (0 if it failed to open), the tempo stream wrapped around it, and the
      length of the tempo stream in seconds. */
  datatype StemFile = StemFile(index: nat, stream: int, tempo: int, length: real)

  /** An all-empty slot table. */
  function Zeros(n: nat): (r: seq<int>)
    ensures |r| == n && forall j :: 0 <= j < n ==> r[j] == 0
  {
    seq(n, _ => 0)
  }

  /** The number of non-empty slots. */
  function NonZero(s: seq<int>): nat
    decreases |s|
  {
    if |s| == 0 then 0 else NonZero(s[..|s| - 1]) + (if s[|s| - 1] != 0 then 1 else 0)
  }

  lemma {:induction false} NonZeroOfZeros(n: nat)
    ensures NonZero(Zeros(n)) == 0
  {
    if n > 0 {
      assert Zeros(n)[..n - 1] == Zeros(n - 1);
      NonZeroOfZeros(n - 1);
    }
  }

  /** Filling an empty slot adds one non-empty slot, unless the value put
      there is 0 itself. */
  lemma {:induction false} NonZeroFill(s: seq<int>, j: nat, v: int)
    requires j < |s| && s[j] == 0
    ensures NonZero(s[j := v]) == NonZero(s) + (if v != 0 then 1 else 0)
    decreases |s|
  {
    var n := |s| - 1;
    if j == n {
      assert s[j := v][..n] == s[..n];
    } else {
      assert s[j := v][..n] == s[..n][j := v];
      NonZeroFill(s[..n], j, v);
    }
  }

  // ---------------------------------------------------------------------
  // Loading a song

  /** The bookkeeping that loading a song goes through, stem by stem:
      the slot table, the loaded-stem counter, the lead channel and its
      length, the effect registry, the native calls made, the stems that
      were taken (in order) and whether a registry insertion threw. */
  datatype LoadState = LoadState(
    slots: seq<int>,
    count: nat,
    leadHandle: int,
    leadLength: real,
    effects: map<int, map<EffectType, int>>,
    calls: seq<NativeCall>,
    accepted: seq<StemFile>,
    thrown: bool)

  /** The state a load starts from once the previous song is unloaded. */
  function Cleared(slotCount: nat, effects: map<int, map<EffectType, int>>, calls: seq<NativeCall>): LoadState {
    LoadState(Zeros(slotCount), 0, 0, 0.0, effects, calls, [], false)
  }

  /** Every stem names a slot of a table of `slotCount` slots. */
  predicate Fits(files: seq<StemFile>, slotCount: nat) {
    forall k :: 0 <= k < |files| ==> files[k].index < slotCount
  }

  /** One stem of a load. A stem whose slot is taken, or whose stream did not
      open, is skipped. Otherwise its volume is set, it may become the lead
      channel (strictly longer than the current lead), it fills its slot and
      is counted; then its handle is added to the effect registry, which
      throws if the handle is already there, and finally it joins the mixer. */
  function LoadStem(st: LoadState, f: StemFile, volumes: seq<real>, mixer: int): (r: LoadState)
    requires f.index < |st.slots| == |volumes|
    ensures |r.slots| == |st.slots|
  {
    if st.thrown || st.slots[f.index] != 0 || f.stream == 0 then st
    else
      var longer := f.length > st.leadLength;
      var placed := st.(
        slots := st.slots[f.index := f.tempo],
        count := st.count + 1,
        leadHandle := if longer then f.tempo else st.leadHandle,
        leadLength := if longer then f.length else st.leadLength,
        calls := st.calls + [SetVolume(f.tempo, volumes[f.index])],
        accepted := st.accepted + [f]);
      if f.tempo in st.effects then placed.(thrown := true)
      else placed.(effects := st.effects[f.tempo := map[]],
                   calls := placed.calls + [MixerAddChannel(mixer, f.tempo)])
  }

  /** The stems of a load, in order; nothing happens after a throw. */
  function LoadStems(st: LoadState, files: seq<StemFile>, volumes: seq<real>, mixer: int): (r: LoadState)
    requires Fits(files, |st.slots|) && |volumes| == |st.slots|
    ensures |r.slots| == |st.slots|
    decreases |files|
  {
    if |files| == 0 then st
    else LoadStems(LoadStem(st, files[0], volumes, mixer), files[1..], volumes, mixer)
  }

  /** A stem is either accepted, filling its own empty slot, or changes
      nothing; it never touches another slot, and it only appends to the
      accepted stems, the native calls and the registry. */
  lemma LoadStemOnlyGrows(st: LoadState, f: StemFile, volumes: seq<real>, mixer: int)
    requires f.index < |st.slots| == |volumes|
    ensures var r := LoadStem(st, f, volumes, mixer);
      r.accepted == st.accepted + [f] <==> !st.thrown && st.slots[f.index] == 0 && f.stream != 0
    ensures var r := LoadStem(st, f, volumes, mixer);
      r.accepted != st.accepted + [f] ==> r == st
    ensures var r := LoadStem(st, f, volumes, mixer);
      forall j :: 0 <= j < |st.slots| && (j != f.index || st.slots[j] != 0) ==> r.slots[j] == st.slots[j]
    ensures var r := LoadStem(st, f, volumes, mixer);
      st.accepted <= r.accepted && st.calls <= r.calls && st.effects.Keys <= r.effects.Keys
  {
  }

  /** A load never overwrites a filled slot, leaves alone every slot no stem
      names, and only appends to the accepted stems, the native calls and the
      registry; every stem it accepts is one of the files. */
  lemma {:induction false} LoadStemsOnlyGrows(st: LoadState, files: seq<StemFile>, volumes: seq<real>, mixer: int)
    requires Fits(files, |st.slots|) && |volumes| == |st.slots|
    ensures var r := LoadStems(st, files, volumes, mixer);
      forall j :: 0 <= j < |st.slots| && st.slots[j] != 0 ==> r.slots[j] == st.slots[j]
    ensures var r := LoadStems(st, files, volumes, mixer);
      forall j :: 0 <= j < |st.slots| && (forall k :: 0 <= k < |files| ==> files[k].index != j) ==>
        r.slots[j] == st.slots[j]
    ensures var r := LoadStems(st, files, volumes, mixer);
      st.accepted <= r.accepted && st.calls <= r.calls && st.effects.Keys <= r.effects.Keys
    ensures var r := LoadStems(st, files, volumes, mixer);
      forall g :: g in r.accepted[|st.accepted|..] ==> g in files
    decreases |files|
  {
    if |files| > 0 {
      var next := LoadStem(st, files[0], volumes, mixer);
      var rest := files[1..];
      LoadStemOnlyGrows(st, files[0], volumes, mixer);
      LoadStemsOnlyGrows(next, rest, volumes, mixer);
      assert forall k :: 0 <= k < |rest| ==> rest[k] == files[k + 1];
      var r := LoadStems(st, files, volumes, mixer);
      assert r == LoadStems(next, rest, volumes, mixer);
      assert r.accepted[|st.accepted|..] == next.accepted[|st.accepted|..] + r.accepted[|next.accepted|..];
    }
  }

  /** A stem whose stream opened but whose tempo stream failed (handle 0) is
      still placed and counted: its slot keeps the value 0, so the slot reads
      as empty, and 0 is entered in the effect registry. Once 0 is there, the
      next such stem makes the registry insertion throw. */
  lemma FailedTempoRegistersZero(st: LoadState, f: StemFile, volumes: seq<real>, mixer: int)
    requires f.index < |st.slots| == |volumes|
    requires !st.thrown && st.slots[f.index] == 0 && f.stream != 0 && f.tempo == 0
    ensures var r := LoadStem(st, f, volumes, mixer);
      r.count == st.count + 1 && r.slots[f.index] == 0 && 0 in r.effects
    ensures LoadStem(st, f, volumes, mixer).thrown <==> 0 in st.effects
  {
  }

  /** Once a registry insertion has thrown, the rest of the stems are not looked at. */
  lemma {:induction false} LoadStemsStopsOnThrow(st: LoadState, files: seq<StemFile>, volumes: seq<real>, mixer: int)
    requires Fits(files, |st.slots|) && |volumes| == |st.slots|
    requires st.thrown
    ensures LoadStems(st, files, volumes, mixer) == st
    decreases |files|
  {
    if |files| > 0 {
      LoadStemsStopsOnThrow(st, files[1..], volumes, mixer);
    }
  }

  /** The number of taken stems whose tempo stream came back as handle 0. */
  function ZeroTempos(accepted: seq<StemFile>): nat
    decreases |accepted|
  {
    if |accepted| == 0 then 0
    else ZeroTempos(accepted[..|accepted| - 1]) + (if accepted[|accepted| - 1].tempo == 0 then 1 else 0)
  }

  /** The counter counts the taken stems; each of them filled one empty slot,
      except those whose tempo handle is 0, which leave their slot empty. */
  predicate CountKept(st: LoadState) {
    && st.count == |st.accepted|
    && st.count == NonZero(st.slots) + ZeroTempos(st.accepted)
  }

  /** Every non-empty slot holds the tempo handle of a taken stem for that slot. */
  predicate SlotsAccounted(st: LoadState) {
    forall j :: 0 <= j < |st.slots| && st.slots[j] != 0 ==>
      exists k :: 0 <= k < |st.accepted| && st.accepted[k].index == j && st.accepted[k].tempo == st.slots[j]
  }

  lemma LoadStemKeepsSlotBookkeeping(st: LoadState, f: StemFile, volumes: seq<real>, mixer: int)
    requires f.index < |st.slots| == |volumes|
    requires CountKept(st) && SlotsAccounted(st)
    ensures CountKept(LoadStem(st, f, volumes, mixer)) && SlotsAccounted(LoadStem(st, f, volumes, mixer))
  {
    var r := LoadStem(st, f, volumes, mixer);
    if !(st.thrown || st.slots[f.index] != 0 || f.stream == 0) {
      NonZeroFill(st.slots, f.index, f.tempo);
      assert r.accepted[..|st.accepted|] == st.accepted;
      forall j | 0 <= j < |r.slots| && r.slots[j] != 0
        ensures exists k :: 0 <= k < |r.accepted| && r.accepted[k].index == j && r.accepted[k].tempo == r.slots[j]
      {
        if j == f.index {
          assert r.accepted[|st.accepted|] == f;
        } else {
          var k :| 0 <= k < |st.accepted| && st.accepted[k].index == j && st.accepted[k].tempo == st.slots[j];
          assert r.accepted[k] == st.accepted[k];
        }
      }
    }
  }

  lemma {:induction false} LoadStemsKeepsSlotBookkeeping(st: LoadState, files: seq<StemFile>, volumes: seq<real>, mixer: int)
    requires Fits(files, |st.slots|) && |volumes| == |st.slots|
    requires CountKept(st) && SlotsAccounted(st)
    ensures CountKept(LoadStems(st, files, volumes, mixer)) && SlotsAccounted(LoadStems(st, files, volumes, mixer))
    decreases |files|
  {
    if |files| > 0 {
      LoadStemKeepsSlotBookkeeping(st, files[0], volumes, mixer);
      LoadStemsKeepsSlotBookkeeping(LoadStem(st, files[0], volumes, mixer), files[1..], volumes, mixer);
    }
  }

  /** A load from an empty table counts each stem it takes; the counter is the
      number of non-empty slots plus the stems whose tempo handle was 0; and
      every non-empty slot holds the tempo handle of a stem taken for it. */
  lemma LoadCountsFilledSlots(slotCount: nat, effects: map<int, map<EffectType, int>>, calls: seq<NativeCall>,
                              files: seq<StemFile>, volumes: seq<real>, mixer: int)
    requires Fits(files, slotCount) && |volumes| == slotCount
    ensures var r := LoadStems(Cleared(slotCount, effects, calls), files, volumes, mixer);
      && r.count == |r.accepted|
      && r.count == NonZero(r.slots) + ZeroTempos(r.accepted)
      && SlotsAccounted(r)
  {
    NonZeroOfZeros(slotCount);
    LoadStemsKeepsSlotBookkeeping(Cleared(slotCount, effects, calls), files, volumes, mixer);
  }

  /** Stem `k` is strictly longer than every stem taken before it. */
  predicate FirstLongest(accepted: seq<StemFile>, k: int) {
    0 <= k < |accepted| && forall j :: 0 <= j < k ==> accepted[j].length < accepted[k].length
  }

  /** The lead channel of the taken stems: its length is the greatest length
      (never below 0), and it is the first stem of that length; with no stem
      of positive length, the lead is handle 0 with length 0. */
  predicate IsLead(accepted: seq<StemFile>, handle: int, length: real) {
    && 0.0 <= length
    && (forall k :: 0 <= k < |accepted| ==> accepted[k].length <= length)
    && if length == 0.0 then handle == 0
       else exists k :: 0 <= k < |accepted| && FirstLongest(accepted, k) && accepted[k].tempo == handle && accepted[k].length == length
  }

  lemma LoadStemKeepsLead(st: LoadState, f: StemFile, volumes: seq<real>, mixer: int)
    requires f.index < |st.slots| == |volumes|
    requires IsLead(st.accepted, st.leadHandle, st.leadLength)
    ensures var r := LoadStem(st, f, volumes, mixer); IsLead(r.accepted, r.leadHandle, r.leadLength)
  {
    var r := LoadStem(st, f, volumes, mixer);
    if !(st.thrown || st.slots[f.index] != 0 || f.stream == 0) {
      var n := |st.accepted|;
      assert forall k :: 0 <= k < n ==> r.accepted[k] == st.accepted[k];
      assert r.accepted[n] == f;
      if f.length > st.leadLength {
        assert FirstLongest(r.accepted, n);
      } else if st.leadLength != 0.0 {
        var k :| 0 <= k < n && FirstLongest(st.accepted, k) && st.accepted[k].tempo == st.leadHandle && st.accepted[k].length == st.leadLength;
        assert r.accepted[k] == st.accepted[k];
        forall j | 0 <= j < k
          ensures r.accepted[j].length < r.accepted[k].length
        {
          assert r.accepted[j] == st.accepted[j];
        }
        assert FirstLongest(r.accepted, k);
      }
    }
  }

  lemma {:induction false} LoadStemsKeepsLead(st: LoadState, files: seq<StemFile>, volumes: seq<real>, mixer: int)
    requires Fits(files, |st.slots|) && |volumes| == |st.slots|
    requires IsLead(st.accepted, st.leadHandle, st.leadLength)
    ensures var r := LoadStems(st, files, volumes, mixer); IsLead(r.accepted, r.leadHandle, r.leadLength)
    decreases |files|
  {
    if |files| > 0 {
      LoadStemKeepsLead(st, files[0], volumes, mixer);
      LoadStemsKeepsLead(LoadStem(st, files[0], volumes, mixer), files[1..], volumes, mixer);
    }
  }

  /** A load from an empty table picks as lead the first taken stem with the
      strictly greatest length, or none when no stem has a positive length. */
  lemma LoadPicksLead(slotCount: nat, effects: map<int, map<EffectType, int>>, calls: seq<NativeCall>,
                      files: seq<StemFile>, volumes: seq<real>, mixer: int)
    requires Fits(files, slotCount) && |volumes| == slotCount
    ensures var r := LoadStems(Cleared(slotCount, effects, calls), files, volumes, mixer);
      IsLead(r.accepted, r.leadHandle, r.leadLength)
  {
    LoadStemsKeepsLead(Cleared(slotCount, effects, calls), files, volumes, mixer);
  }

  // ---------------------------------------------------------------------
  // The reverb registries

  /** The per-stem effect registry and the per-stem gain DSP registry. */
  datatype Registries = Registries(effects: map<int, map<EffectType, int>>, gainDsps: map<int, int>)

  /** Whether stem handle `h` has reverb registered. */
  predicate HasReverb(effects: map<int, map<EffectType, int>>, h: int) {
    h in effects && ReverbType in effects[h]
  }

  /** The two registries agree: a stem has a gain DSP exactly when it has reverb. */
  predicate InStep(reg: Registries) {
    && reg.gainDsps.Keys <= reg.effects.Keys
    && forall h :: h in reg.effects ==> (ReverbType in reg.effects[h] <==> h in reg.gainDsps)
  }

  /** Every non-empty slot has an effect registry entry. */
  predicate SlotsRegistered(slots: seq<int>, effects: map<int, map<EffectType, int>>) {
    forall j :: 0 <= j < |slots| && slots[j] != 0 ==> slots[j] in effects
  }

  /** Every non-empty slot has an empty effect registry entry. */
  predicate SlotsFresh(slots: seq<int>, effects: map<int, map<EffectType, int>>) {
    forall j :: 0 <= j < |slots| && slots[j] != 0 ==> slots[j] in effects && effects[slots[j]] == map[]
  }

  lemma LoadStemKeepsRegistries(st: LoadState, f: StemFile, volumes: seq<real>, mixer: int, gainDsps: map<int, int>)
    requires f.index < |st.slots| == |volumes|
    requires InStep(Registries(st.effects, gainDsps)) && SlotsRegistered(st.slots, st.effects)
    ensures var r := LoadStem(st, f, volumes, mixer);
      InStep(Registries(r.effects, gainDsps)) && SlotsRegistered(r.slots, r.effects)
    ensures var r := LoadStem(st, f, volumes, mixer);
      SlotsFresh(st.slots, st.effects) && !r.thrown ==> SlotsFresh(r.slots, r.effects)
  {
  }

  lemma {:induction false} LoadStemsKeepsRegistries(st: LoadState, files: seq<StemFile>, volumes: seq<real>, mixer: int, gainDsps: map<int, int>)
    requires Fits(files, |st.slots|) && |volumes| == |st.slots|
    requires InStep(Registries(st.effects, gainDsps)) && SlotsRegistered(st.slots, st.effects)
    ensures var r := LoadStems(st, files, volumes, mixer);
      InStep(Registries(r.effects, gainDsps)) && SlotsRegistered(r.slots, r.effects)
    ensures var r := LoadStems(st, files, volumes, mixer);
      SlotsFresh(st.slots, st.effects) && !r.thrown ==> SlotsFresh(r.slots, r.effects)
    decreases |files|
  {
    if |files| > 0 {
      var next := LoadStem(st, files[0], volumes, mixer);
      LoadStemKeepsRegistries(st, files[0], volumes, mixer, gainDsps);
      LoadStemsKeepsRegistries(next, files[1..], volumes, mixer, gainDsps);
      if next.thrown {
        LoadStemsStopsOnThrow(next, files[1..], volumes, mixer);
      }
    }
  }

  /** A load keeps the registries in step; when it completes, every stored
      stem handle has an empty effect registry. */
  lemma LoadLeavesFreshRegistries(slotCount: nat, effects: map<int, map<EffectType, int>>, calls: seq<NativeCall>,
                                  files: seq<StemFile>, volumes: seq<real>, mixer: int, gainDsps: map<int, int>)
    requires Fits(files, slotCount) && |volumes| == slotCount
    requires InStep(Registries(effects, gainDsps))
    ensures var r := LoadStems(Cleared(slotCount, effects, calls), files, volumes, mixer);
      && InStep(Registries(r.effects, gainDsps))
      && SlotsRegistered(r.slots, r.effects)
      && (!r.thrown ==> SlotsFresh(r.slots, r.effects))
  {
    LoadStemsKeepsRegistries(Cleared(slotCount, effects, calls), files, volumes, mixer, gainDsps);
  }

  /** Turning reverb on or off for a loaded stem handle `h`: nothing happens
      if it is already in the requested state; otherwise both registries
      change together. `fx` and `dsp` are the handles the library gives the
      new reverb effect and gain DSP. */
  function ToggleReverb(reg: Registries, h: int, reverb: bool, fx: int, dsp: int): (r: Registries)
    requires InStep(reg) && h in reg.effects
    ensures InStep(r)
    ensures r.effects.Keys == reg.effects.Keys
    ensures HasReverb(r.effects, h) == reverb
    ensures forall g :: g in reg.effects && g != h ==> r.effects[g] == reg.effects[g]
    ensures forall g :: g != h ==> (g in r.gainDsps <==> g in reg.gainDsps)
    ensures HasReverb(reg.effects, h) == reverb ==> r == reg
    ensures forall g :: g != h && g in reg.gainDsps ==> r.gainDsps[g] == reg.gainDsps[g]
    ensures forall e :: e != ReverbType ==> (e in r.effects[h] <==> e in reg.effects[h])
    ensures forall e :: e != ReverbType && e in reg.effects[h] ==> r.effects[h][e] == reg.effects[h][e]
    ensures reverb && !HasReverb(reg.effects, h) ==>
      r.effects[h][ReverbType] == fx && h in r.gainDsps && r.gainDsps[h] == dsp
    ensures !reverb ==> h !in r.gainDsps
  {
    if reverb then
      if ReverbType in reg.effects[h] then reg
      else Registries(reg.effects[h := reg.effects[h][ReverbType := fx]], reg.gainDsps[h := dsp])
    else
      if ReverbType !in reg.effects[h] then reg
      else Registries(reg.effects[h := reg.effects[h] - {ReverbType}], reg.gainDsps - {h})
  }

  /** Toggling twice to the same state is the same as toggling once. */
  lemma ToggleReverbIdempotent(reg: Registries, h: int, reverb: bool, fx: int, dsp: int, fx2: int, dsp2: int)
    requires InStep(reg) && h in reg.effects
    ensures ToggleReverb(ToggleReverb(reg, h, reverb, fx, dsp), h, reverb, fx2, dsp2) == ToggleReverb(reg, h, reverb, fx, dsp)
  {
  }

  // ---------------------------------------------------------------------
  // Volumes

  /** The conversion of a real to an integer by truncation toward zero. */
  function TruncateToInt(x: real): (r: int)
    ensures 0.0 <= x ==> r as real <= x < r as real + 1.0
    ensures x < 0.0 ==> r as real - 1.0 < x <= r as real
  {
    if x >= 0.0 then x.Floor else -((-x).Floor)
  }

  /** A volume scaled by a factor (0.5 scaled by 0.5 is 0.25). */
  function Scaled(volume: real, factor: real): real {
    volume * factor
  }

  // ---------------------------------------------------------------------
  // Sound effects

  /** The path of a file in a folder. */
  function CombinePath(folder: string, name: string): string {
    folder + "/" + name
  }

  /** `base` with the first extension of `formats` for which that file exists,
      or `base` itself when there is none. */
  function FirstExistingPath(base: string, formats: seq<string>, existing: set<string>): (r: string)
    ensures r == base || r in existing
    decreases |formats|
  {
    if |formats| == 0 then base
    else if base + formats[0] in existing then base + formats[0]
    else FirstExistingPath(base, formats[1..], existing)
  }

  /** The path chosen carries the first extension whose file exists, and is the
      bare path when no extension gives an existing file. */
  lemma {:induction false} FirstExistingPathIsFirst(base: string, formats: seq<string>, existing: set<string>)
    ensures (forall k :: 0 <= k < |formats| ==> base + formats[k] !in existing) ==>
      FirstExistingPath(base, formats, existing) == base
    ensures forall k :: 0 <= k < |formats| && base + formats[k] in existing
                        && (forall j :: 0 <= j < k ==> base + formats[j] !in existing) ==>
      FirstExistingPath(base, formats, existing) == base + formats[k]
    decreases |formats|
  {
    if |formats| > 0 {
      var rest := formats[1..];
      FirstExistingPathIsFirst(base, rest, existing);
      assert forall k :: 0 <= k < |rest| ==> rest[k] == formats[k + 1];
    }
  }

  /** The handle a sound effect ends up with: 0 when no file exists for it or
      the library fails to load it. */
  function SfxHandle(name: string, folder: string, existing: set<string>, sampleLoad: string -> int): (r: int)
  {
    var path := FirstExistingPath(CombinePath(folder, name), SupportedFormats, existing);
    if path in existing then sampleLoad(path) else 0
  }

  /** An effect for which neither the bare path nor any supported extension
      names an existing file gets handle 0; a non-zero handle is what the
      library returned for a file that exists. */
  lemma SfxHandleMissing(name: string, folder: string, existing: set<string>, sampleLoad: string -> int)
    ensures CombinePath(folder, name) !in existing
            && (forall k :: 0 <= k < |SupportedFormats| ==> CombinePath(folder, name) + SupportedFormats[k] !in existing)
            ==> SfxHandle(name, folder, existing, sampleLoad) == 0
    ensures SfxHandle(name, folder, existing, sampleLoad) != 0 ==>
      exists p :: p in existing && SfxHandle(name, folder, existing, sampleLoad) == sampleLoad(p)
  {
    FirstExistingPathIsFirst(CombinePath(folder, name), SupportedFormats, existing);
  }

  /** The sound-effect table after loading `names` in order into a table of
      `size` empty slots; a failed effect leaves its slot as it was. */
  function SfxTable(names: seq<string>, size: nat, folder: string, existing: set<string>,
                    sampleLoad: string -> int, sfxIndex: string -> nat): (r: seq<int>)
    requires forall i :: 0 <= i < |names| ==> sfxIndex(names[i]) < size
    ensures |r| == size
    decreases |names|
  {
    if |names| == 0 then Zeros(size)
    else
      var last := names[|names| - 1];
      var table := SfxTable(names[..|names| - 1], size, folder, existing, sampleLoad, sfxIndex);
      var handle := SfxHandle(last, folder, existing, sampleLoad);
      if handle == 0 then table else table[sfxIndex(last) := handle]
  }

  /** When every effect has its own slot, each slot holds its effect's handle
      (0 if it failed), and slots no effect maps to stay 0. */
  lemma {:induction false} SfxTableLookup(names: seq<string>, size: nat, folder: string, existing: set<string>,
                                          sampleLoad: string -> int, sfxIndex: string -> nat)
    requires forall i :: 0 <= i < |names| ==> sfxIndex(names[i]) < size
    requires forall i, j :: 0 <= i < j < |names| ==> sfxIndex(names[i]) != sfxIndex(names[j])
    ensures forall i :: 0 <= i < |names| ==>
      SfxTable(names, size, folder, existing, sampleLoad, sfxIndex)[sfxIndex(names[i])]
        == SfxHandle(names[i], folder, existing, sampleLoad)
    ensures forall j :: 0 <= j < size && (forall i :: 0 <= i < |names| ==> sfxIndex(names[i]) != j) ==>
      SfxTable(names, size, folder, existing, sampleLoad, sfxIndex)[j] == 0
    decreases |names|
  {
    if |names| > 0 {
      var n := |names| - 1;
      var prefix := names[..n];
      assert forall i :: 0 <= i < n ==> prefix[i] == names[i];
      SfxTableLookup(prefix, size, folder, existing, sampleLoad, sfxIndex);
    }
  }

  // ---------------------------------------------------------------------
  // The manager

  /** The native calls of unloading: free the mixer (if there is one), then
      every slot's handle, empty or not. */
  function UnloadCalls(mixer: int, slots: seq<int>): (r: seq<NativeCall>)
  {
    (if mixer != 0 then [StreamFree(mixer)] else []) + FreeAll(slots)
  }

  /** Unloading frees the mixer first, when there is one, and then the
      handle of every slot in slot order. */
  lemma UnloadCallsFreeEach(mixer: int, slots: seq<int>)
    ensures mixer == 0 ==> UnloadCalls(mixer, slots) == FreeAll(slots)
    ensures mixer != 0 ==> UnloadCalls(mixer, slots) == [StreamFree(mixer)] + FreeAll(slots)
    ensures |UnloadCalls(mixer, slots)| == |slots| + (if mixer != 0 then 1 else 0)
    ensures forall j :: 0 <= j < |slots| ==> StreamFree(slots[j]) in UnloadCalls(mixer, slots)
  {
    FreeAllFreesEach(slots);
  }

  /** Free each handle of `slots`, in order. */
  function FreeAll(slots: seq<int>): (r: seq<NativeCall>)
    decreases |slots|
  {
    if |slots| == 0 then [] else FreeAll(slots[..|slots| - 1]) + [StreamFree(slots[|slots| - 1])]
  }

  /** One free per handle, in order. */
  lemma {:induction false} FreeAllFreesEach(slots: seq<int>)
    ensures |FreeAll(slots)| == |slots|
    ensures forall j :: 0 <= j < |slots| ==> FreeAll(slots)[j] == StreamFree(slots[j])
    decreases |slots|
  {
    if |slots| > 0 {
      FreeAllFreesEach(slots[..|slots| - 1]);
    }
  }

  class BassAudioManager {
    var supportedFormats: seq<string>
    var stemsLoaded: nat
    var isAudioLoaded: bool
    var isPlaying: bool
    var audioLength: real
    var mixerHandle: int
    var leadChannelHandle: int
    var leadChannelLength: real
    var stemChannels: array<int>
    var sfxSamples: array<int>
    var stemVolumes: array<real>
    var sfxVolume: real
    var stemEffects: map<int, map<EffectType, int>>
    var stemGainDsps: map<int, int>
    var nativeCalls: seq<NativeCall>

    ghost predicate Valid()
      reads this, stemChannels
    {
      Settled() && SlotsRegistered(stemChannels[..], stemEffects)
    }

    /** The part of Valid about the manager's own fields. */
    ghost predicate Settled()
      reads this
    {
      && stemVolumes.Length == stemChannels.Length
      && stemChannels != sfxSamples
      && supportedFormats == SupportedFormats
      && (isPlaying ==> isAudioLoaded)
      && InStep(Registries(stemEffects, stemGainDsps))
    }

    /** The manager when it wakes up, with `stemCount` stem slots and
        `sfxCount` sound-effect slots, all empty. */
    constructor (stemCount: nat, sfxCount: nat)
      ensures Valid()
      ensures fresh(stemChannels) && fresh(sfxSamples) && fresh(stemVolumes)
      ensures stemChannels[..] == Zeros(stemCount) && sfxSamples[..] == Zeros(sfxCount)
      ensures stemVolumes.Length == stemCount
      ensures !isAudioLoaded && !isPlaying && stemsLoaded == 0
      ensures mixerHandle == 0 && leadChannelHandle == 0 && leadChannelLength == 0.0
      ensures stemEffects == map[] && stemGainDsps == map[] && nativeCalls == []
    {
      supportedFormats := SupportedFormats;
      stemChannels := new int[stemCount](_ => 0);
      stemVolumes := new real[stemCount](_ => 0.0);
      sfxSamples := new int[sfxCount](_ => 0);
      stemEffects := map[];
      stemGainDsps := map[];
      mixerHandle := 0;
      stemsLoaded := 0;
      isAudioLoaded := false;
      isPlaying := false;
      audioLength := 0.0;
      leadChannelHandle := 0;
      leadChannelLength := 0.0;
      sfxVolume := 0.0;
      nativeCalls := [];
    }

    /** Load the sound effects named `names`: for each, the first existing
        file among its supported extensions is loaded, and its handle stored
        in the effect's slot; a missing file or a failed load leaves the slot 0.
        `existing` is the set of files that exist, `sampleLoad` the library's
        answer for a file, `sfxIndex` the slot of each effect name. */
    method LoadSfx(names: seq<string>, folder: string, existing: set<string>,
                   sampleLoad: string -> int, sfxIndex: string -> nat)
      requires Valid()
      requires forall i :: 0 <= i < |names| ==> sfxIndex(names[i]) < |names|
      modifies this`sfxSamples
      ensures Valid() && fresh(sfxSamples)
      ensures sfxSamples[..] == SfxTable(names, |names|, folder, existing, sampleLoad, sfxIndex)
    {
      sfxSamples := new int[|names|](_ => 0);
      var i := 0;
      while i < |names|
        invariant 0 <= i <= |names|
        invariant fresh(sfxSamples) && sfxSamples.Length == |names|
        invariant sfxSamples[..] == SfxTable(names[..i], |names|, folder, existing, sampleLoad, sfxIndex)
      {
        var sfx := names[i];
        var path := ChooseSfxPath(CombinePath(folder, sfx), supportedFormats, existing);
        assert names[..i + 1][..i] == names[..i];
        if path in existing {
          var handle := sampleLoad(path);
          if handle != 0 {
            sfxSamples[sfxIndex(sfx)] := handle;
          }
        }
        i := i + 1;
      }
      assert names[..i] == names;
    }

    /** The file chosen for a sound effect: `base` with the first extension,
        in order, whose file exists, or `base` when none does. */
    method ChooseSfxPath(base: string, formats: seq<string>, existing: set<string>) returns (path: string)
      ensures path == FirstExistingPath(base, formats, existing)
    {
      path := base;
      var i := 0;
      while i < |formats|
        invariant 0 <= i <= |formats|
        invariant path == base
        invariant FirstExistingPath(base, formats[i..], existing) == FirstExistingPath(base, formats, existing)
      {
        if base + formats[i] in existing {
          path := base + formats[i];
          break;
        }
        assert formats[i..][1..] == formats[i + 1..];
        i := i + 1;
      }
    }

    /** Forget the current song: not playing, not loaded, no stems, every
        slot empty and no lead channel. The mixer and every slot's handle are
        freed. The effect registries are kept as they are. */
    method UnloadSong()
      requires Valid()
      modifies this`isPlaying, this`isAudioLoaded, this`stemsLoaded, this`leadChannelHandle,
               this`leadChannelLength, this`nativeCalls, stemChannels
      ensures Valid()
      ensures stemChannels[..] == Zeros(stemChannels.Length)
      ensures !isPlaying && !isAudioLoaded && stemsLoaded == 0
      ensures leadChannelHandle == 0 && leadChannelLength == 0.0
      ensures nativeCalls == old(nativeCalls) + UnloadCalls(mixerHandle, old(stemChannels[..]))
    {
      ghost var reg := Registries(stemEffects, stemGainDsps);
      ghost var slots := stemChannels[..];
      isPlaying := false;
      isAudioLoaded := false;
      stemsLoaded := 0;
      if mixerHandle != 0 {
        nativeCalls := nativeCalls + [StreamFree(mixerHandle)];
      }
      FreeStemSlots();
      assert Registries(stemEffects, stemGainDsps) == reg;
      assert SlotsRegistered(stemChannels[..], stemEffects);
      assert nativeCalls == old(nativeCalls) + UnloadCalls(mixerHandle, slots);
      leadChannelHandle := 0;
      leadChannelLength := 0.0;
    }

    /** Free every slot's handle, in slot order, and empty the slot. */
    method FreeStemSlots()
      modifies this`nativeCalls, stemChannels
      ensures stemChannels[..] == Zeros(stemChannels.Length)
      ensures nativeCalls == old(nativeCalls) + FreeAll(old(stemChannels[..]))
    {
      ghost var slots := stemChannels[..];
      var i := 0;
      while i < stemChannels.Length
        invariant 0 <= i <= stemChannels.Length
        invariant forall k :: 0 <= k < i ==> stemChannels[k] == 0
        invariant forall k :: i <= k < stemChannels.Length ==> stemChannels[k] == slots[k]
        invariant nativeCalls == old(nativeCalls) + FreeAll(slots[..i])
      {
        var stemHandle := stemChannels[i];
        assert slots[..i + 1][..i] == slots[..i];
        stemChannels[i] := 0;
        nativeCalls := nativeCalls + [StreamFree(stemHandle)];
        i := i + 1;
      }
      assert slots[..i] == slots;
      assert stemChannels[..] == Zeros(stemChannels.Length);
    }

    /** The bookkeeping of a load in progress, as a LoadState. */
    ghost function Snapshot(accepted: seq<StemFile>, thrown: bool): LoadState
      reads this`stemChannels, stemChannels, this`stemsLoaded, this`leadChannelHandle,
            this`leadChannelLength, this`stemEffects, this`nativeCalls
    {
      LoadState(stemChannels[..], stemsLoaded, leadChannelHandle, leadChannelLength,
                stemEffects, nativeCalls, accepted, thrown)
    }

    /** Load a song from its stem files (with the library's answers for each,
        see StemFile) into a new mixer `mixer`. The previous song is unloaded
        first. `thrown` reports that a stem's handle was already in the
        effect registry, where the insertion throws and the load stops. */
    method LoadSong(stems: seq<StemFile>, mixer: int) returns (thrown: bool)
      requires Valid()
      requires Fits(stems, stemChannels.Length)
      modifies this`isPlaying, this`isAudioLoaded, this`stemsLoaded, this`leadChannelHandle,
               this`leadChannelLength, this`nativeCalls, this`mixerHandle, this`audioLength,
               this`stemEffects, stemChannels
      ensures Valid()
      ensures var r := LoadStems(Cleared(stemChannels.Length, old(stemEffects),
                                         old(nativeCalls) + UnloadCalls(old(mixerHandle), old(stemChannels[..]))),
                                 stems, stemVolumes[..], mixer);
        Snapshot(r.accepted, thrown) == r
      ensures !thrown ==> SlotsFresh(stemChannels[..], stemEffects)
      ensures mixerHandle == mixer && !isPlaying
      ensures isAudioLoaded == !thrown
      ensures audioLength == if thrown then old(audioLength) else leadChannelLength
    {
      UnloadSong();
      thrown := LoadIntoMixer(stems, mixer);
    }

    /** The part of LoadSong after the unload: the stems go into the new
        mixer `mixer`, and the song counts as loaded unless an insertion
        threw. */
    method LoadIntoMixer(stems: seq<StemFile>, mixer: int) returns (thrown: bool)
      requires Valid() && Fits(stems, stemChannels.Length)
      requires stemChannels[..] == Zeros(stemChannels.Length)
      requires !isPlaying && !isAudioLoaded && leadChannelHandle == 0 && leadChannelLength == 0.0
      modifies this`isAudioLoaded, this`stemsLoaded, this`leadChannelHandle, this`leadChannelLength,
               this`nativeCalls, this`mixerHandle, this`audioLength, this`stemEffects, stemChannels
      ensures Valid()
      ensures var r := LoadStems(Cleared(stemChannels.Length, old(stemEffects), old(nativeCalls)),
                                 stems, stemVolumes[..], mixer);
        Snapshot(r.accepted, thrown) == r
      ensures !thrown ==> SlotsFresh(stemChannels[..], stemEffects)
      ensures mixerHandle == mixer
      ensures isAudioLoaded == !thrown
      ensures audioLength == if thrown then old(audioLength) else leadChannelLength
    {
      mixerHandle := mixer;
      stemsLoaded := 0;
      ghost var accepted;
      thrown, accepted := LoadStemFiles(stems, stemVolumes[..]);
      ghost var loaded := LoadStems(Cleared(stemChannels.Length, old(stemEffects), old(nativeCalls)),
                                    stems, stemVolumes[..], mixer);
      assert Snapshot(accepted, thrown) == loaded;
      LoadLeavesFreshRegistries(stemChannels.Length, old(stemEffects), old(nativeCalls), stems,
                                stemVolumes[..], mixer, stemGainDsps);
      assert Valid();
      if !thrown {
        audioLength := leadChannelLength;
        isAudioLoaded := true;
      }
    }

    /** The loading loop, from an unloaded song: each stem file in turn
        (see LoadStemFile), until the end or until an insertion into the
        effect registry throws. `accepted` are the stems taken. */
    method LoadStemFiles(stems: seq<StemFile>, ghost volumes: seq<real>)
      returns (thrown: bool, ghost accepted: seq<StemFile>)
      requires Fits(stems, stemChannels.Length) && stemChannels.Length == stemVolumes.Length
      requires stemVolumes[..] == volumes
      requires stemChannels[..] == Zeros(stemChannels.Length)
      requires stemsLoaded == 0 && leadChannelHandle == 0 && leadChannelLength == 0.0
      modifies this`leadChannelHandle, this`leadChannelLength, this`nativeCalls, this`stemsLoaded,
               this`stemEffects, stemChannels
      ensures var r := LoadStems(Cleared(stemChannels.Length, old(stemEffects), old(nativeCalls)),
                                 stems, volumes, mixerHandle);
        Snapshot(accepted, thrown) == r
    {
      ghost var start := Snapshot([], false);
      assert start == Cleared(stemChannels.Length, stemEffects, nativeCalls);
      ghost var final := LoadStems(start, stems, volumes, mixerHandle);
      accepted := [];
      thrown := false;
      var i := 0;
      while i < |stems| && !thrown
        invariant 0 <= i <= |stems|
        invariant LoadStems(Snapshot(accepted, thrown), stems[i..], volumes, mixerHandle) == final
      {
        assert stems[i..][1..] == stems[i + 1..];
        ghost var after := LoadStem(Snapshot(accepted, thrown), stems[i], volumes, mixerHandle);
        thrown := LoadStemFile(stems[i], volumes, accepted);
        accepted := after.accepted;
        i := i + 1;
      }
      if thrown {
        LoadStemsStopsOnThrow(Snapshot(accepted, thrown), stems[i..], volumes, mixerHandle);
      }
    }

    /** One stem file of a load in progress (the body of the loading loop):
        see LoadStem. `accepted` are the stems taken so far. */
    method LoadStemFile(f: StemFile, ghost volumes: seq<real>, ghost accepted: seq<StemFile>) returns (thrown: bool)
      requires f.index < stemChannels.Length == stemVolumes.Length
      requires stemVolumes[..] == volumes
      modifies this`leadChannelHandle, this`leadChannelLength, this`nativeCalls, this`stemsLoaded,
               this`stemEffects, stemChannels
      ensures Snapshot(LoadStem(old(Snapshot(accepted, false)), f, volumes, mixerHandle).accepted, thrown)
              == LoadStem(old(Snapshot(accepted, false)), f, volumes, mixerHandle)
    {
      thrown := false;
      if stemChannels[f.index] != 0 {
        // the stem is already loaded
        return;
      }
      if f.stream == 0 {
        // the stream failed to open
        return;
      }
      nativeCalls := nativeCalls + [SetVolume(f.tempo, stemVolumes[f.index])];
      if f.length > leadChannelLength {
        leadChannelHandle := f.tempo;
        leadChannelLength := f.length;
      }
      stemChannels[f.index] := f.tempo;
      stemsLoaded := stemsLoaded + 1;
      if f.tempo in stemEffects {
        thrown := true;
        return;
      }
      stemEffects := stemEffects[f.tempo := map[]];
      nativeCalls := nativeCalls + [MixerAddChannel(mixerHandle, f.tempo)];
    }

    /** Start playback: only a loaded song that is not playing; the flag is
        set whether or not the library manages to play. */
    method Play()
      requires Valid()
      modifies this`isPlaying, this`nativeCalls
      ensures Valid()
      ensures old(isAudioLoaded && !isPlaying) ==>
        isPlaying && nativeCalls == old(nativeCalls) + [ChannelPlay(mixerHandle)]
      ensures !old(isAudioLoaded && !isPlaying) ==>
        isPlaying == old(isPlaying) && nativeCalls == old(nativeCalls)
    {
      if !isAudioLoaded || isPlaying {
        return;
      }
      nativeCalls := nativeCalls + [ChannelPlay(mixerHandle)];
      isPlaying := true;
    }

    /** Pause playback: only a loaded song that is playing. */
    method Pause()
      requires Valid()
      modifies this`isPlaying, this`nativeCalls
      ensures Valid()
      ensures old(isAudioLoaded && isPlaying) ==>
        !isPlaying && nativeCalls == old(nativeCalls) + [ChannelPause(mixerHandle)]
      ensures !old(isAudioLoaded && isPlaying) ==>
        isPlaying == old(isPlaying) && nativeCalls == old(nativeCalls)
    {
      if !isAudioLoaded || !isPlaying {
        return;
      }
      nativeCalls := nativeCalls + [ChannelPause(mixerHandle)];
      isPlaying := false;
    }

    /** Play sound effect `sample` on the channel the library gives for it
        (`channel`), at the effect volume times that effect's own gain
        `sampleGain(sample)`. An effect that did not load plays nothing. */
    method PlaySoundEffect(sample: nat, channel: int, sampleGain: nat -> real)
      requires sample < sfxSamples.Length
      modifies this`nativeCalls
      ensures nativeCalls == if sfxSamples[sample] == 0 then old(nativeCalls)
        else old(nativeCalls) + [SetVolume(channel, Scaled(sfxVolume, sampleGain(sample))), ChannelPlay(channel)]
    {
      if sfxSamples[sample] == 0 {
        return;
      }
      nativeCalls := nativeCalls + [SetVolume(channel, Scaled(sfxVolume, sampleGain(sample))), ChannelPlay(channel)];
    }

    /** Set a loaded stem's playing volume to `volume` scaled by the stem's
        volume setting; an unloaded stem is left alone. */
    method SetStemVolume(stem: nat, volume: real)
      requires Valid() && stem < stemChannels.Length
      modifies this`nativeCalls
      ensures Valid()
      ensures nativeCalls == if stemChannels[stem] == 0 then old(nativeCalls)
        else old(nativeCalls) + [SetVolume(stemChannels[stem], Scaled(volume, stemVolumes[stem]))]
    {
      var stemHandle := stemChannels[stem];
      if stemHandle == 0 {
        return;
      }
      nativeCalls := nativeCalls + [SetVolume(stemHandle, Scaled(volume, stemVolumes[stem]))];
    }

    /** Route a volume setting to exactly one destination: the library's
        global stream volume (scaled to 0..10000) for the master volume, the
        effect volume for sound effects, or the stem's volume setting. */
    method UpdateVolumeSetting(stem: SongStem, volume: real)
      requires Valid()
      requires stem.Stem? ==> stem.ordinal < stemVolumes.Length
      modifies this`sfxVolume, this`nativeCalls, stemVolumes
      ensures Valid()
      ensures stem.Master? ==>
        && nativeCalls == old(nativeCalls) + [SetGlobalStreamVolume(TruncateToInt(10000.0 * volume))]
        && sfxVolume == old(sfxVolume) && stemVolumes[..] == old(stemVolumes[..])
      ensures stem.Sfx? ==>
        && sfxVolume == volume
        && nativeCalls == old(nativeCalls) && stemVolumes[..] == old(stemVolumes[..])
      ensures stem.Stem? ==>
        && stemVolumes[..] == old(stemVolumes[..])[stem.ordinal := volume]
        && nativeCalls == old(nativeCalls) && sfxVolume == old(sfxVolume)
    {
      if stem == Master {
        nativeCalls := nativeCalls + [SetGlobalStreamVolume(TruncateToInt(10000.0 * volume))];
        return;
      }
      if stem == Sfx {
        sfxVolume := volume;
        return;
      }
      stemVolumes[stem.ordinal] := volume;
    }

    /** Turn reverb on or off for a stem. An unloaded stem is left alone; so
        is a stem already in the requested state. Turning it on registers the
        reverb effect `fx` and the gain DSP `dsp` the library gives; turning
        it off removes both from the channel and from the registries. */
    method ApplyReverb(stem: nat, reverb: bool, fx: int, dsp: int)
      requires Valid() && stem < stemChannels.Length
      modifies this`stemEffects, this`stemGainDsps, this`nativeCalls
      ensures Valid()
      ensures var h := stemChannels[stem];
        h == 0 ==> stemEffects == old(stemEffects) && stemGainDsps == old(stemGainDsps)
                   && nativeCalls == old(nativeCalls)
      ensures var h := stemChannels[stem];
        h != 0 ==>
          && h in old(stemEffects)
          && Registries(stemEffects, stemGainDsps)
               == ToggleReverb(Registries(old(stemEffects), old(stemGainDsps)), h, reverb, fx, dsp)
          && nativeCalls == old(nativeCalls) +
               (if !reverb && HasReverb(old(stemEffects), h)
                then [ChannelRemoveFx(h, old(stemEffects)[h][ReverbType]), ChannelRemoveDsp(h, old(stemGainDsps)[h])]
                else [])
    {
      var stemHandle := stemChannels[stem];
      if stemHandle == 0 {
        return;
      }
      assert stemChannels[..][stem] == stemHandle;
      if reverb {
        if ReverbType in stemEffects[stemHandle] {
          return;
        }
        stemEffects := stemEffects[stemHandle := stemEffects[stemHandle][ReverbType := fx]];
        stemGainDsps := stemGainDsps[stemHandle := dsp];
      } else {
        if ReverbType !in stemEffects[stemHandle] {
          return;
        }
        nativeCalls := nativeCalls + [ChannelRemoveFx(stemHandle, stemEffects[stemHandle][ReverbType]),
                                      ChannelRemoveDsp(stemHandle, stemGainDsps[stemHandle])];
        stemEffects := stemEffects[stemHandle := stemEffects[stemHandle] - {ReverbType}];
        stemGainDsps := stemGainDsps - {stemHandle};
      }
    }
  }
}
