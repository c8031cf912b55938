/**
  * The playback controller of `useAudioPlayer` and the player-type switch of
  * the `AudioPlayer` component.
  *
  * The hook's React state (`state`, `currentTime`, `realDuration`,
  * `useSyntheticViz`), its refs (`zeroFrameCount`, `corsFailedRef`,
  * `ctxRef`) and the two properties of the audio element it writes
  * (`crossOrigin`, `currentTime`) are the fields of `AudioController`.
  * Each handler is a method proved against a step function on a
  * `Playback` snapshot; what the browser decides (whether `new
  * AudioContext()` succeeds, whether `audio.play()` resolves, the sample
  * data of a frame, the element's clock and length) arrives as a parameter.
  */
module AudioPlayer {
  import opened Wrappers

  datatype PlayerState = Idle | Loading | Playing | Paused | Error

  /** A byte of the analyser's `Uint8Array`. */
  newtype Byte = x: int | 0 <= x < 256

  /** Everything the handlers read or write, at one moment. */
  datatype Playback = Playback(
    state: PlayerState,
    /** `audio.crossOrigin` is "anonymous" (true) or `null` (false). */
    crossOrigin: bool,
    corsFailed: bool,
    syntheticViz: bool,
    zeroFrames: nat,
    /** `ctxRef.current !== null` */
    hasContext: bool,
    /** `audio.currentTime` */
    position: real,
    /** the `currentTime` state */
    currentTime: real,
    /** `audio.duration`, `None` while it is NaN (no metadata yet) */
    duration: Option<real>,
    realDuration: Option<real>)

  /** Right after the mount effect: a fresh element with `crossOrigin = "anonymous"`. */
  const Mounted := Playback(Idle, true, false, false, 0, false, 0.0, 0.0, None, None)

  /**
    * What the handlers keep true: CORS has failed exactly when
    * `crossOrigin` was cleared, and then synthetic visualisation is on;
    * the zero-frame counter passes 60 only once synthetic visualisation
    * is on, and never passes 61.
    */
  predicate Inv(p: Playback) {
    && (p.corsFailed <==> !p.crossOrigin)
    && (p.corsFailed ==> p.syntheticViz)
    && (p.zeroFrames > 60 ==> p.syntheticViz)
    && p.zeroFrames <= 61
  }

  // ---------------------------------------------------------------------------
  // The element's events

  /** `onTimeUpdate`: the shown time follows the element's clock. */
  function TimeUpdate(p: Playback, t: real): Playback {
    p.(position := t, currentTime := t)
  }

  /** `onLoadedMetadata` */
  function LoadedMetadata(p: Playback, d: real): Playback {
    p.(duration := Some(d), realDuration := Some(d))
  }

  /**
    * `onError`: the first error while `crossOrigin` is set is taken for a
    * CORS refusal and retried once without it, with synthetic visualisation;
    * any other error puts the player in "error".
    */
  function MediaError(p: Playback): (r: Playback)
    ensures !p.corsFailed && p.crossOrigin ==>
              r.corsFailed && !r.crossOrigin && r.syntheticViz && r.state == p.state
    ensures p.corsFailed || !p.crossOrigin ==> r.state == Error && r.corsFailed == p.corsFailed
    ensures r.zeroFrames == p.zeroFrames && r.position == p.position
  {
    if !p.corsFailed && p.crossOrigin then
      p.(corsFailed := true, crossOrigin := false, syntheticViz := true)
    else
      p.(state := Error)
  }

  // ---------------------------------------------------------------------------
  // Playing and pausing

  /**
    * `initAudioContext`: skipped once a context exists, CORS has failed or
    * synthetic visualisation is on; otherwise a context is made, or, when
    * the browser refuses, synthetic visualisation is turned on.
    */
  function InitAudioContextStep(p: Playback, created: bool): (r: Playback)
    ensures p.hasContext || p.corsFailed || p.syntheticViz ==> r == p
    ensures !(p.hasContext || p.corsFailed || p.syntheticViz) ==>
              r.hasContext == created && r.syntheticViz == !created
    ensures r.state == p.state && r.corsFailed == p.corsFailed && r.zeroFrames == p.zeroFrames
  {
    if p.hasContext || p.corsFailed || p.syntheticViz then p
    else if created then p.(hasContext := true)
    else p.(syntheticViz := true)
  }

  /** `play()` up to its `await audio.play()`: the context is set up and the player is loading. */
  function BeginPlay(p: Playback, created: bool): (r: Playback)
    ensures r.state == Loading
    ensures r.syntheticViz == InitAudioContextStep(p, created).syntheticViz
  {
    InitAudioContextStep(p, created).(state := Loading)
  }

  /** The end of `play()`: "playing" when `audio.play()` resolved, "error" when it threw. */
  function FinishPlay(p: Playback, ok: bool): (r: Playback)
    ensures r.state == Playing <==> ok
    ensures r.state == Error <==> !ok
  {
    p.(state := if ok then Playing else Error)
  }

  /** `pause()`, and `onEnded`, which has the same effect on the state. */
  function PauseStep(p: Playback): (r: Playback)
    ensures r.state == Paused
  {
    p.(state := Paused)
  }

  /** `togglePlay()`: pause when playing, play otherwise. */
  function TogglePlayStep(p: Playback, created: bool): (r: Playback)
    ensures r.state == Paused <==> p.state == Playing
    ensures r.state == Loading <==> p.state != Playing
  {
    if p.state == Playing then PauseStep(p) else BeginPlay(p, created)
  }

  // ---------------------------------------------------------------------------
  // Seeking

  /** `audio.duration || Infinity`: NaN and 0 leave the position without an upper bound. */
  predicate HasLength(duration: Option<real>) {
    duration.Some? && duration.value != 0.0
  }

  /** `Math.max(0, Math.min(time, audio.duration || Infinity))` */
  function Clamp(time: real, duration: Option<real>): (r: real)
    ensures 0.0 <= r
    ensures HasLength(duration) && duration.value > 0.0 ==> r <= duration.value
    ensures 0.0 <= time && (!HasLength(duration) || time <= duration.value) ==> r == time
    ensures time < 0.0 ==> r == 0.0
    ensures HasLength(duration) && 0.0 <= duration.value < time ==> r == duration.value
  {
    var upper := if HasLength(duration) && duration.value < time then duration.value else time;
    if upper < 0.0 then 0.0 else upper
  }

  /** Clamping a clamped position changes nothing. */
  lemma ClampIdempotent(time: real, duration: Option<real>)
    requires duration.Some? ==> duration.value >= 0.0
    ensures Clamp(Clamp(time, duration), duration) == Clamp(time, duration)
  {
  }

  /** `seek(time)`: the element and the shown time move to the clamped target; the zero-frame count restarts. */
  function SeekStep(p: Playback, time: real): (r: Playback)
    ensures r.position == r.currentTime == Clamp(time, p.duration)
    ensures r.zeroFrames == 0
    ensures r.(position := p.position, currentTime := p.currentTime, zeroFrames := p.zeroFrames) == p
  {
    var t := Clamp(time, p.duration);
    p.(position := t, currentTime := t, zeroFrames := 0)
  }

  /**
    * `skip(delta)`: a seek relative to the element's position. It lands
    * inside the episode, never before 0 and never past a known length, and
    * exactly `delta` away when that is inside.
    */
  function SkipStep(p: Playback, delta: real): (r: Playback)
    ensures 0.0 <= r.position
    ensures HasLength(p.duration) && p.duration.value > 0.0 ==> r.position <= p.duration.value
    ensures 0.0 <= p.position + delta && (!HasLength(p.duration) || p.position + delta <= p.duration.value) ==>
              r.position == p.position + delta
  {
    SeekStep(p, p.position + delta)
  }

  /** Seeking twice to the same place is seeking once. */
  lemma SeekIdempotent(p: Playback, time: real)
    requires p.duration.Some? ==> p.duration.value >= 0.0
    ensures SeekStep(SeekStep(p, time), time) == SeekStep(p, time)
  {
    ClampIdempotent(time, p.duration);
  }

  // ---------------------------------------------------------------------------
  // Detecting a silent analyser

  /** `data.every(v => v === 0)` */
  predicate AllZero(data: seq<Byte>) {
    forall i :: 0 <= i < |data| ==> data[i] == 0
  }

  /**
    * `checkFrequencyData(data)`: while playing without synthetic
    * visualisation, count consecutive all-zero frames, reset the count on
    * any other frame, and switch to synthetic visualisation once the count
    * passes 60.
    */
  function CheckFrequencyDataStep(p: Playback, data: seq<Byte>): (r: Playback)
    ensures p.syntheticViz || p.state != Playing ==> r == p
    ensures !p.syntheticViz && p.state == Playing && AllZero(data) ==>
              r.zeroFrames == p.zeroFrames + 1 && (r.syntheticViz <==> p.zeroFrames + 1 > 60)
    ensures !p.syntheticViz && p.state == Playing && !AllZero(data) ==>
              r.zeroFrames == 0 && !r.syntheticViz
    ensures r.state == p.state && (p.syntheticViz ==> r.syntheticViz)
  {
    if p.syntheticViz || p.state != Playing then p
    else if AllZero(data) then
      var count := p.zeroFrames + 1;
      if count > 60 then p.(zeroFrames := count, syntheticViz := true) else p.(zeroFrames := count)
    else
      p.(zeroFrames := 0)
  }

  /** `k` silent frames in a row. */
  function SilentFrames(p: Playback, data: seq<Byte>, k: nat): Playback {
    if k == 0 then p else CheckFrequencyDataStep(SilentFrames(p, data, k - 1), data)
  }

  /**
    * From a fresh count while playing, 60 silent frames leave the real
    * visualisation on and the 61st switches to the synthetic one.
    */
  lemma {:induction false} SilentFramesCount(p: Playback, data: seq<Byte>, k: nat)
    requires p.state == Playing && !p.syntheticViz && p.zeroFrames == 0
    requires AllZero(data) && k <= 61
    ensures SilentFrames(p, data, k).state == Playing
    ensures k <= 60 ==> !SilentFrames(p, data, k).syntheticViz && SilentFrames(p, data, k).zeroFrames == k
    ensures k == 61 ==> SilentFrames(p, data, k).syntheticViz
  {
    if k > 0 {
      SilentFramesCount(p, data, k - 1);
    }
  }

  // ---------------------------------------------------------------------------
  // Event sequences

  datatype Event =
    | TimeUpdateEvent(t: real)
    | LoadedMetadataEvent(d: real)
    | EndedEvent
    | ErrorEvent
    | PlayCall(contextCreated: bool)
    | PlaySettled(ok: bool)
    | PauseCall
    | TogglePlayCall(contextCreated: bool)
    | SeekCall(time: real)
    | SkipCall(delta: real)
    | FrameCheck(data: seq<Byte>)

  /**
    * The handler an event runs. Every handler keeps the invariant, and none
    * clears `corsFailed` or `useSyntheticViz`.
    */
  function Step(p: Playback, e: Event): (r: Playback)
    ensures Inv(p) ==> Inv(r)
    ensures p.corsFailed ==> r.corsFailed
    ensures p.syntheticViz ==> r.syntheticViz
  {
    match e
    case TimeUpdateEvent(t) => TimeUpdate(p, t)
    case LoadedMetadataEvent(d) => LoadedMetadata(p, d)
    case EndedEvent => PauseStep(p)
    case ErrorEvent => MediaError(p)
    case PlayCall(created) => BeginPlay(p, created)
    case PlaySettled(ok) => FinishPlay(p, ok)
    case PauseCall => PauseStep(p)
    case TogglePlayCall(created) => TogglePlayStep(p, created)
    case SeekCall(time) => SeekStep(p, time)
    case SkipCall(delta) => SkipStep(p, delta)
    case FrameCheck(data) => CheckFrequencyDataStep(p, data)
  }

  /**
    * The handlers of a sequence of events, in order. The sequence keeps the
    * invariant, and once CORS has failed, or synthetic visualisation is on,
    * it stays so.
    */
  function Run(p: Playback, es: seq<Event>): (r: Playback)
    ensures Inv(p) ==> Inv(r)
    ensures p.corsFailed ==> r.corsFailed
    ensures p.syntheticViz ==> r.syntheticViz
    decreases |es|
  {
    if es == [] then p else Run(Step(p, es[0]), es[1..])
  }

  lemma MountedInv()
    ensures Inv(Mounted)
  {
  }

  /** The CORS retry happens once: the next error, whatever happened between, is an error. */
  lemma RetryOnce(p: Playback, es: seq<Event>)
    requires Inv(p) && !p.corsFailed
    ensures Run(MediaError(p), es).corsFailed
    ensures MediaError(Run(MediaError(p), es)).state == Error
  {
  }

  // ---------------------------------------------------------------------------
  // The hook as an object

  class AudioController {
    var state: PlayerState
    var crossOrigin: bool
    var corsFailed: bool
    var syntheticViz: bool
    var zeroFrames: nat
    var hasContext: bool
    var position: real
    var currentTime: real
    var duration: Option<real>
    var realDuration: Option<real>

    function Snapshot(): Playback
      reads this
    {
      Playback(state, crossOrigin, corsFailed, syntheticViz, zeroFrames, hasContext,
               position, currentTime, duration, realDuration)
    }

    ghost predicate Valid()
      reads this
    {
      Inv(Snapshot())
    }

    /** The mount effect: a new element, `crossOrigin = "anonymous"`, nothing loaded. */
    constructor ()
      ensures Snapshot() == Mounted && Valid()
    {
      state := Idle;
      crossOrigin := true;
      corsFailed := false;
      syntheticViz := false;
      zeroFrames := 0;
      hasContext := false;
      position := 0.0;
      currentTime := 0.0;
      duration := None;
      realDuration := None;
    }

    method OnTimeUpdate(t: real)
      requires Valid()
      modifies this
      ensures Snapshot() == TimeUpdate(old(Snapshot()), t) && Valid()
    {
      position := t;
      currentTime := position;
    }

    method OnLoadedMetadata(d: real)
      requires Valid()
      modifies this
      ensures Snapshot() == LoadedMetadata(old(Snapshot()), d) && Valid()
    {
      duration := Some(d);
      realDuration := duration;
    }

    method OnEnded()
      requires Valid()
      modifies this
      ensures Snapshot() == PauseStep(old(Snapshot())) && Valid()
    {
      state := Paused;
    }

    method OnError()
      requires Valid()
      modifies this
      ensures Snapshot() == MediaError(old(Snapshot())) && Valid()
    {
      if !corsFailed && crossOrigin {
        corsFailed := true;
        crossOrigin := false;
        syntheticViz := true;
      } else {
        state := Error;
      }
    }

    method InitAudioContext(created: bool)
      requires Valid()
      modifies this
      ensures Snapshot() == InitAudioContextStep(old(Snapshot()), created) && Valid()
    {
      if hasContext || corsFailed || syntheticViz {
        return;
      }
      if created {
        hasContext := true;
      } else {
        syntheticViz := true;
      }
    }

    /** `play()` up to `await audio.play()`. */
    method Play(created: bool)
      requires Valid()
      modifies this
      ensures Snapshot() == BeginPlay(old(Snapshot()), created) && Valid()
    {
      InitAudioContext(created);
      state := Loading;
    }

    /** The rest of `play()`, once `audio.play()` has settled. */
    method PlaySettled(ok: bool)
      requires Valid()
      modifies this
      ensures Snapshot() == FinishPlay(old(Snapshot()), ok) && Valid()
    {
      if ok {
        state := Playing;
      } else {
        state := Error;
      }
    }

    method Pause()
      requires Valid()
      modifies this
      ensures Snapshot() == PauseStep(old(Snapshot())) && Valid()
    {
      state := Paused;
    }

    method TogglePlay(created: bool)
      requires Valid()
      modifies this
      ensures Snapshot() == TogglePlayStep(old(Snapshot()), created) && Valid()
    {
      if state == Playing {
        Pause();
      } else {
        Play(created);
      }
    }

    method Seek(time: real)
      requires Valid()
      modifies this
      ensures Snapshot() == SeekStep(old(Snapshot()), time) && Valid()
    {
      position := Clamp(time, duration);
      currentTime := position;
      zeroFrames := 0;
    }

    method Skip(delta: real)
      requires Valid()
      modifies this
      ensures Snapshot() == SkipStep(old(Snapshot()), delta) && Valid()
    {
      Seek(position + delta);
    }

    method CheckFrequencyData(data: seq<Byte>)
      requires Valid()
      modifies this
      ensures Snapshot() == CheckFrequencyDataStep(old(Snapshot()), data) && Valid()
    {
      if syntheticViz || state != Playing {
        return;
      }
      if AllZero(data) {
        zeroFrames := zeroFrames + 1;
        if zeroFrames > 60 {
          syntheticViz := true;
        }
      } else {
        zeroFrames := 0;
      }
    }
  }

  // ---------------------------------------------------------------------------
  // The player-type switch

  const StorageKey := "nexus.player"

  /**
    * The `useNative` flag and `localStorage`; `None` for a storage whose
    * every access throws (the `catch` branches).
    */
  datatype Preference = Preference(useNative: bool, storage: Option<map<string, string>>)

  /**
    * The initial value of `useNative`: whether "native" is stored under the
    * key; a storage that throws gives the custom player.
    */
  function StoredUseNative(storage: Option<map<string, string>>): (r: bool)
    ensures storage.None? ==> !r
    ensures r ==> StorageKey in storage.value && storage.value[StorageKey] == "native"
  {
    storage.Some? && StorageKey in storage.value && storage.value[StorageKey] == "native"
  }

  /** `setItem(STORAGE_KEY, "native")` when the new value is true, `removeItem(STORAGE_KEY)` otherwise. */
  function StoreUseNative(storage: map<string, string>, next: bool): (r: map<string, string>)
    ensures forall k :: k != StorageKey ==> (k in r <==> k in storage)
    ensures forall k :: k != StorageKey && k in r ==> r[k] == storage[k]
  {
    if next then storage[StorageKey := "native"] else storage - {StorageKey}
  }

  /**
    * `togglePlayerType()`: the flag flips; where storage works, "native" is
    * stored exactly when the new value is true, so a reload reads the new
    * value back.
    */
  function TogglePlayerTypeStep(p: Preference): (r: Preference)
    ensures r.useNative == !p.useNative
    ensures r.storage.Some? <==> p.storage.Some?
    ensures r.storage.Some? ==> (StorageKey in r.storage.value && r.storage.value[StorageKey] == "native" <==> r.useNative)
    ensures r.storage.Some? ==> StoredUseNative(r.storage) == r.useNative
  {
    var next := !p.useNative;
    match p.storage
    case None => Preference(next, None)
    case Some(st) => Preference(next, Some(StoreUseNative(st, next)))
  }

  /** Toggling twice restores the flag, and the stored entry with it when storage works. */
  lemma ToggleTwice(p: Preference)
    requires p.storage.Some? ==> StoredUseNative(p.storage) == p.useNative
    ensures TogglePlayerTypeStep(TogglePlayerTypeStep(p)).useNative == p.useNative
    ensures StoredUseNative(TogglePlayerTypeStep(TogglePlayerTypeStep(p)).storage) == StoredUseNative(p.storage)
  {
  }

  class PlayerPreference {
    var useNative: bool
    var storage: Option<map<string, string>>

    function Snapshot(): Preference
      reads this
    {
      Preference(useNative, storage)
    }

    /** The lazy initial state of `useNative`. */
    constructor (storage: Option<map<string, string>>)
      ensures Snapshot() == Preference(StoredUseNative(storage), storage)
    {
      useNative := StoredUseNative(storage);
      this.storage := storage;
    }

    method TogglePlayerType()
      modifies this
      ensures Snapshot() == TogglePlayerTypeStep(old(Snapshot()))
    {
      var next := !useNative;
      if storage.Some? {
        if next {
          storage := Some(storage.value[StorageKey := "native"]);
        } else {
          storage := Some(storage.value - {StorageKey});
        }
      }
      useNative := next;
    }
  }
}
