/** The client's playback controller (client/src/App.tsx): the component
    state as one record, every handler and media-element listener as a pure
    transition on it, and the invariants the transitions keep. */
module Player {
  import opened Wrappers
  import opened SongSchema
  import Catalog

  /** The codes of `MediaError` (section 4.8.11.1 of the HTML Living
      Standard). A browser reports `Aborted` with an `abort` event, never an
      `error` event, so `MediaFailed(Aborted)` is an event no browser sends;
      it only widens the set of runs the invariants below cover. */
  datatype MediaErrorCode = Aborted | Network | Decode | SrcNotSupported

  /** The one media element the page owns: the URL it is bound to, whether it
      is paused, its playback position in whole seconds, and its `error`
      attribute. */
  datatype AudioElement = AudioElement(src: string, paused: bool, position: nat, error: Option<MediaErrorCode>)

  /** A fresh element, and the element right after `load()`: bound to `src`,
      paused, at 0 and without an error. */
  function Unstarted(src: string): AudioElement {
    AudioElement(src, true, 0, None)
  }

  /** `play()` gives up at once, leaving the element paused, when the element
      failed to find a usable source: its promise is already rejected. */
  predicate PlayRefused(a: AudioElement) {
    a.error == Some(SrcNotSupported)
  }

  /** The component state. `audio` is absent until the mount effect has
      created the element. Times are whole seconds. */
  datatype State = State(
    songs: seq<Song>,
    currentSong: Option<Song>,
    isPlaying: bool,
    isLoading: bool,
    currentTime: nat,
    duration: nat,
    error: Option<string>,
    usingFallbackData: bool,
    audio: Option<AudioElement>)

  /** The state of the first render. */
  const Initial: State := State([], None, false, false, 0, 0, None, false, None)

  const MediaErrorMessage: string := "Error loading audio file - using demo audio URLs"
  const PlayErrorMessage: string := "Failed to play audio - demo URLs may not be accessible"

  /** What the catalog request settles to. */
  datatype FetchOutcome = Fetched(songs: seq<Song>) | FetchFailed

  /* ---------------------------------------------------------------------- */
  /* Catalog loading                                                         */
  /* ---------------------------------------------------------------------- */

  /** The synchronous start of `loadSongs`, up to the request. */
  function BeginLoad(p: State): (r: State)
    ensures r.isLoading && r.error.None?
    ensures r.(isLoading := p.isLoading, error := p.error) == p
  {
    p.(isLoading := true, error := None)
  }

  /** The rest of `loadSongs`, once the request settles: the fetched list and
      live mode, or the built-in list and fallback mode; loading ends either
      way. */
  function FinishLoad(p: State, outcome: FetchOutcome): (r: State)
    ensures !r.isLoading
    ensures outcome.Fetched? ==> r.songs == outcome.songs && !r.usingFallbackData
    ensures outcome.FetchFailed? ==> r.songs == Catalog.PredefinedSongs && r.usingFallbackData
    ensures r.(songs := p.songs, usingFallbackData := p.usingFallbackData, isLoading := p.isLoading) == p
  {
    match outcome
    case Fetched(songs) => p.(songs := songs, usingFallbackData := false, isLoading := false)
    case FetchFailed => p.(songs := Catalog.PredefinedSongs, usingFallbackData := true, isLoading := false)
  }

  /** `loadSongs` with nothing in between its start and its end. */
  function LoadSongs(p: State, outcome: FetchOutcome): (r: State)
    ensures !r.isLoading && r.error.None?
    ensures r.usingFallbackData <==> outcome.FetchFailed?
    ensures r.songs == (if outcome.Fetched? then outcome.songs else Catalog.PredefinedSongs)
    ensures r.currentSong == p.currentSong && r.isPlaying == p.isPlaying && r.audio == p.audio
    ensures r.currentTime == p.currentTime && r.duration == p.duration
  {
    FinishLoad(BeginLoad(p), outcome)
  }

  /** A failed request leaves exactly the four built-in songs on screen, ids 1
      to 4 on one shared URL, and the fallback notice raised. */
  lemma FailedFetchShowsFallbackCatalog(p: State)
    ensures var r := LoadSongs(p, FetchFailed);
      && r.usingFallbackData
      && |r.songs| == 4
      && (forall i :: 0 <= i < |r.songs| ==> r.songs[i].id == i + 1)
      && (forall i :: 0 <= i < |r.songs| ==> r.songs[i].audioUrl == Catalog.DemoAudioUrl)
  {
    Catalog.PredefinedSongsShape();
  }

  /* ---------------------------------------------------------------------- */
  /* The media element and its listeners                                     */
  /* ---------------------------------------------------------------------- */

  /** The mount effect: create the element, unbound and paused, unless one
      already exists. Nothing else changes. */
  function CreateAudio(p: State): (r: State)
    ensures r.audio.Some?
    ensures p.audio.Some? ==> r == p
    ensures p.audio.None? ==> r.audio == Some(AudioElement("", true, 0, None))
    ensures r.(audio := p.audio) == p
  {
    if p.audio.Some? then p else p.(audio := Some(Unstarted("")))
  }

  /** `loadedmetadata`: the element's duration, or 0 when it is not a number. */
  function OnLoadedMetadata(p: State, mediaDuration: Option<nat>): (r: State)
    ensures r.duration == (if mediaDuration.Some? then mediaDuration.value else 0)
    ensures r.(duration := p.duration) == p
  {
    p.(duration := match mediaDuration case Some(d) => d case None => 0)
  }

  /** `timeupdate`: the element reports that it is now at `position`. */
  function OnTimeUpdate(p: State, position: nat): (r: State)
    ensures r.currentTime == position
    ensures p.audio.Some? ==> r.audio == Some(p.audio.value.(position := position))
    ensures r.(currentTime := p.currentTime, audio := p.audio) == p
  {
    var audio := match p.audio case Some(a) => Some(a.(position := position)) case None => None;
    p.(currentTime := position, audio := audio)
  }

  /** `ended`: playback is over and the display rewinds. */
  function OnEnded(p: State): (r: State)
    ensures !r.isPlaying && r.currentTime == 0
    ensures r.(isPlaying := p.isPlaying, currentTime := p.currentTime) == p
  {
    p.(isPlaying := false, currentTime := 0)
  }

  /** `error`: the element failed with `code`, which it now carries in its
      `error` attribute; the message shows and playback is off. */
  function OnMediaError(p: State, code: MediaErrorCode): (r: State)
    ensures !r.isPlaying && r.error == Some(MediaErrorMessage)
    ensures p.audio.Some? ==> r.audio == Some(p.audio.value.(error := Some(code)))
    ensures p.audio.None? ==> r.audio.None?
    ensures r.(isPlaying := p.isPlaying, error := p.error, audio := p.audio) == p
  {
    var audio := match p.audio case Some(a) => Some(a.(error := Some(code))) case None => None;
    p.(error := Some(MediaErrorMessage), isPlaying := false, audio := audio)
  }

  /** The rejection handler of `play()`: it records a message and nothing
      else, so `isPlaying` keeps whatever value it has. */
  function OnPlayRejected(p: State): (r: State)
    ensures r.error == Some(PlayErrorMessage)
    ensures r.isPlaying == p.isPlaying
    ensures r.(error := p.error) == p
  {
    p.(error := Some(PlayErrorMessage))
  }

  /** A pause the browser makes on its own (a media key, its media-session
      controls, loss of audio focus). The component has no `pause` listener,
      so only the element changes. */
  function OnBrowserPause(p: State): (r: State)
    requires p.audio.Some?
    ensures r.audio == Some(p.audio.value.(paused := true))
    ensures r.(audio := p.audio) == p
  {
    p.(audio := Some(p.audio.value.(paused := true)))
  }

  /* ---------------------------------------------------------------------- */
  /* Transport controls                                                      */
  /* ---------------------------------------------------------------------- */

  /** `selectSong`: make `s` current, bind the element to its URL and reload
      it (which pauses and rewinds it and clears its error), clear the
      message, and reset the playing flag and both times. */
  function SelectSong(p: State, s: Song): (r: State)
    ensures r.currentSong == Some(s)
    ensures r.error.None? && !r.isPlaying && r.currentTime == 0 && r.duration == 0
    ensures p.audio.Some? ==> r.audio == Some(AudioElement(s.audioUrl, true, 0, None))
    ensures p.audio.None? ==> r.audio.None?
    ensures r.songs == p.songs && r.isLoading == p.isLoading && r.usingFallbackData == p.usingFallbackData
  {
    var audio := if p.audio.Some? then Some(Unstarted(s.audioUrl)) else None;
    p.(currentSong := Some(s), error := None, audio := audio,
       isPlaying := false, currentTime := 0, duration := 0)
  }

  /** `playPause`: without an element or a current song nothing happens;
      when playing, pause; otherwise call `play()` and set the flag at once,
      before the start attempt settles. `play()` unpauses the element unless
      it refuses outright, in which case the element stays as it was. */
  function PlayPause(p: State): (r: State)
    ensures p.audio.None? || p.currentSong.None? ==> r == p
    ensures p.audio.Some? && p.currentSong.Some? ==>
      && r.isPlaying == !p.isPlaying
      && (p.isPlaying ==> r.audio == Some(p.audio.value.(paused := true)))
      && (!p.isPlaying && PlayRefused(p.audio.value) ==> r.audio == p.audio)
      && (!p.isPlaying && !PlayRefused(p.audio.value) ==> r.audio == Some(p.audio.value.(paused := false)))
      && r.(isPlaying := p.isPlaying, audio := p.audio) == p
  {
    match p.audio
    case None => p
    case Some(a) =>
      if p.currentSong.None? then p
      else if p.isPlaying then p.(audio := Some(a.(paused := true)), isPlaying := false)
      else p.(audio := Some(Play(a)), isPlaying := true)
  }

  /** The element's own part of `play()`. */
  function Play(a: AudioElement): (b: AudioElement)
    ensures b.src == a.src && b.position == a.position && b.error == a.error
    ensures b.paused <==> PlayRefused(a) && a.paused
  {
    if PlayRefused(a) then a else a.(paused := false)
  }

  /** `stop`: pause and rewind the element and clear the playing flag and the
      displayed time; the current song and the duration stay. Only a missing
      element makes it do nothing. */
  function Stop(p: State): (r: State)
    ensures p.audio.None? ==> r == p
    ensures p.audio.Some? ==>
      && !r.isPlaying && r.currentTime == 0
      && r.audio == Some(p.audio.value.(paused := true, position := 0))
      && r.(isPlaying := p.isPlaying, currentTime := p.currentTime, audio := p.audio) == p
  {
    match p.audio
    case None => p
    case Some(a) => p.(audio := Some(a.(paused := true, position := 0)), isPlaying := false, currentTime := 0)
  }

  /** Choosing one song and then another before playing is the same as
      choosing only the second: the element ends up on the second URL with
      both times at zero. */
  lemma SecondSelectionWins(p: State, a: Song, b: Song)
    ensures SelectSong(SelectSong(p, a), b) == SelectSong(p, b)
    ensures p.audio.Some? ==> SelectSong(SelectSong(p, a), b).audio.value.src == b.audioUrl
  {
  }

  /** Stopping twice is stopping once. */
  lemma StopIdempotent(p: State)
    ensures Stop(Stop(p)) == Stop(p)
  {
  }

  /* ---------------------------------------------------------------------- */
  /* The event-driven machine                                                */
  /* ---------------------------------------------------------------------- */

  /** Everything that can happen to the component, one handler run each. */
  datatype Event =
    | LoadStarted
    | AudioCreated
    | CatalogSettled(outcome: FetchOutcome)
    | Selected(song: Song)
    | PlayPauseClicked
    | StopClicked
    | MetadataLoaded(mediaDuration: Option<nat>)
    | TimeUpdated(position: nat)
    | PlaybackEnded
    | MediaFailed(code: MediaErrorCode)
    | PlayRejected
    | BrowserPaused

  /** Dispatch one event. Element events only arrive once there is an
      element to raise them. */
  function Step(p: State, e: Event): State {
    match e
    case LoadStarted => BeginLoad(p)
    case AudioCreated => CreateAudio(p)
    case CatalogSettled(outcome) => FinishLoad(p, outcome)
    case Selected(s) => SelectSong(p, s)
    case PlayPauseClicked => PlayPause(p)
    case StopClicked => Stop(p)
    case MetadataLoaded(d) => if p.audio.Some? then OnLoadedMetadata(p, d) else p
    case TimeUpdated(t) => if p.audio.Some? then OnTimeUpdate(p, t) else p
    case PlaybackEnded => if p.audio.Some? then OnEnded(p) else p
    case MediaFailed(code) => if p.audio.Some? then OnMediaError(p, code) else p
    case PlayRejected => if p.audio.Some? then OnPlayRejected(p) else p
    case BrowserPaused => if p.audio.Some? then OnBrowserPause(p) else p
  }

  /** Dispatch a sequence of events in order. */
  function Run(p: State, events: seq<Event>): State
    decreases |events|
  {
    if |events| == 0 then p else Run(Step(p, events[0]), events[1..])
  }

  /** The state once both mount effects have run: the catalog request is out
      and the element exists. */
  const Mounted: State := CreateAudio(BeginLoad(Initial))

  /** The session invariant: only a selected song can be playing. */
  predicate PlayingImpliesSelected(p: State) {
    p.isPlaying ==> p.currentSong.Some?
  }

  /** Once mounted, more holds: the element exists, it is bound to the
      current song's URL, and only a selected song can be playing. */
  predicate AudioFollowsSelection(p: State) {
    && p.audio.Some?
    && (p.currentSong.Some? ==> p.audio.value.src == p.currentSong.value.audioUrl)
    && (p.isPlaying ==> p.currentSong.Some?)
  }

  /** While the flag says playing, the element is not paused, unless
      `play()` refused to start it. A pause the browser makes on its own
      breaks this (`BrowserPausePlaysNothing`). */
  predicate ElementPlaysWhenFlagged(p: State) {
    && p.audio.Some?
    && (p.isPlaying ==> !p.audio.value.paused || PlayRefused(p.audio.value))
  }

  /** No event in `events` is a pause the browser made on its own. */
  predicate NoBrowserPause(events: seq<Event>) {
    forall i :: 0 <= i < |events| ==> !events[i].BrowserPaused?
  }

  lemma StepKeepsPlayingImpliesSelected(p: State, e: Event)
    requires PlayingImpliesSelected(p)
    ensures PlayingImpliesSelected(Step(p, e))
  {
  }

  lemma {:induction false} RunKeepsPlayingImpliesSelected(p: State, events: seq<Event>)
    requires PlayingImpliesSelected(p)
    ensures PlayingImpliesSelected(Run(p, events))
    decreases |events|
  {
    if |events| > 0 {
      StepKeepsPlayingImpliesSelected(p, events[0]);
      RunKeepsPlayingImpliesSelected(Step(p, events[0]), events[1..]);
    }
  }

  /** From the first render, whatever happens in whatever order, the
      component never plays without a selected song. */
  lemma NeverPlayingWithoutSong(events: seq<Event>)
    ensures PlayingImpliesSelected(Run(Initial, events))
  {
    RunKeepsPlayingImpliesSelected(Initial, events);
  }

  lemma StepKeepsAudioFollowsSelection(p: State, e: Event)
    requires AudioFollowsSelection(p)
    ensures AudioFollowsSelection(Step(p, e))
  {
  }

  lemma {:induction false} RunKeepsAudioFollowsSelection(p: State, events: seq<Event>)
    requires AudioFollowsSelection(p)
    ensures AudioFollowsSelection(Run(p, events))
    decreases |events|
  {
    if |events| > 0 {
      StepKeepsAudioFollowsSelection(p, events[0]);
      RunKeepsAudioFollowsSelection(Step(p, events[0]), events[1..]);
    }
  }

  /** Every event but a browser-made pause keeps the element playing while
      the flag says so. */
  lemma StepKeepsElementPlaysWhenFlagged(p: State, e: Event)
    requires ElementPlaysWhenFlagged(p) && !e.BrowserPaused?
    ensures ElementPlaysWhenFlagged(Step(p, e))
  {
  }

  lemma {:induction false} RunKeepsElementPlaysWhenFlagged(p: State, events: seq<Event>)
    requires ElementPlaysWhenFlagged(p) && NoBrowserPause(events)
    ensures ElementPlaysWhenFlagged(Run(p, events))
    decreases |events|
  {
    if |events| > 0 {
      StepKeepsElementPlaysWhenFlagged(p, events[0]);
      RunKeepsElementPlaysWhenFlagged(Step(p, events[0]), events[1..]);
    }
  }

  /** After mounting, the element always carries the selected song's URL.
      It is also unpaused whenever the component believes it is playing,
      except after a refused start, as long as the browser has not paused
      it on its own. */
  lemma MountedElementFollowsSelection(events: seq<Event>)
    ensures Mounted.audio == Some(AudioElement("", true, 0, None)) && Mounted.isLoading
    ensures AudioFollowsSelection(Run(Mounted, events))
    ensures NoBrowserPause(events) ==> ElementPlaysWhenFlagged(Run(Mounted, events))
  {
    RunKeepsAudioFollowsSelection(Mounted, events);
    if NoBrowserPause(events) {
      RunKeepsElementPlaysWhenFlagged(Mounted, events);
    }
  }

  /* ---------------------------------------------------------------------- */
  /* The discrete playback phases                                            */
  /* ---------------------------------------------------------------------- */

  /** Nothing selected; selected and stopped; playing; stopped with a
      message showing. */
  datatype Phase = Idle | Ready | Playing | Failed

  function PhaseOf(p: State): Phase {
    if p.currentSong.None? then Idle
    else if p.isPlaying then Playing
    else if p.error.Some? then Failed
    else Ready
  }

  /** How the handlers move between phases. The last clause is where the
      code departs from a controller that leaves Playing on a failed start:
      a rejected `play()` shows a message but stays Playing. */
  lemma PhaseTransitions(p: State, s: Song, code: MediaErrorCode)
    ensures PhaseOf(SelectSong(p, s)) == Ready
    ensures PhaseOf(p) == Idle ==> PhaseOf(PlayPause(p)) == Idle
    ensures p.audio.Some? && PhaseOf(p) in {Ready, Failed} ==> PhaseOf(PlayPause(p)) == Playing
    ensures p.audio.Some? && PhaseOf(p) == Playing ==> PhaseOf(PlayPause(p)) != Playing
    ensures p.audio.Some? && PhaseOf(p) != Idle ==> PhaseOf(Stop(p)) in {Ready, Failed}
    ensures PhaseOf(OnEnded(p)) != Playing
    ensures PhaseOf(p) != Idle ==> PhaseOf(OnMediaError(p, code)) == Failed
    ensures PhaseOf(p) == Playing ==> PhaseOf(OnPlayRejected(p)) == Playing
  {
  }

  /** The flag and the element can disagree: when a song's source cannot be
      used, the element reports the error, and a later click on play/pause
      sets the playing flag while `play()` leaves the element paused. The
      display then says Playing while nothing plays. */
  lemma RefusedStartPlaysNothing(s: Song)
    ensures var q := Run(Mounted, [Selected(s), MediaFailed(SrcNotSupported), PlayPauseClicked]);
      && q.isPlaying && q.audio.Some? && q.audio.value.paused
      && PhaseOf(q) == Playing
  {
    var q1 := Step(Mounted, Selected(s));
    var q2 := Step(q1, MediaFailed(SrcNotSupported));
    var q3 := Step(q2, PlayPauseClicked);
    assert q2.audio == Some(AudioElement(s.audioUrl, true, 0, Some(SrcNotSupported)));
    assert q3.isPlaying && q3.audio.value.paused;
    var e3 := [PlayPauseClicked];
    var e2 := [MediaFailed(SrcNotSupported)] + e3;
    var e1 := [Selected(s)] + e2;
    assert e3[1..] == [] && e2[1..] == e3 && e1[1..] == e2;
    assert Run(q2, e3) == q3;
    assert Run(q1, e2) == q3;
    assert Run(Mounted, e1) == q3;
    assert e1 == [Selected(s), MediaFailed(SrcNotSupported), PlayPauseClicked];
  }

  /** With no `pause` listener the component misses a pause the browser
      makes: after a song starts and the browser pauses it, the display says
      Playing while the element, which did start, stays paused. */
  lemma BrowserPausePlaysNothing(s: Song)
    ensures var q := Run(Mounted, [Selected(s), PlayPauseClicked, BrowserPaused]);
      && q.isPlaying && q.audio.Some? && q.audio.value.paused
      && !PlayRefused(q.audio.value)
      && PhaseOf(q) == Playing
  {
    var q1 := Step(Mounted, Selected(s));
    var q2 := Step(q1, PlayPauseClicked);
    var q3 := Step(q2, BrowserPaused);
    assert q2.isPlaying && q2.audio == Some(AudioElement(s.audioUrl, false, 0, None));
    assert q3.isPlaying && q3.audio.value.paused;
    var e3 := [BrowserPaused];
    var e2 := [PlayPauseClicked] + e3;
    var e1 := [Selected(s)] + e2;
    assert e3[1..] == [] && e2[1..] == e3 && e1[1..] == e2;
    assert Run(q2, e3) == q3;
    assert Run(q1, e2) == q3;
    assert Run(Mounted, e1) == q3;
    assert e1 == [Selected(s), PlayPauseClicked, BrowserPaused];
  }
}
