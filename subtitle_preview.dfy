/** The video preview of the subtitle editor (src/components/subtitles/SubtitleVideoPreview.tsx):
    it shows the cue under the playback position, toggles play and pause, and seeks to
    the start of the entry the editor makes active. The `<video>` element is a class of
    its own; the preview's state (the text it shows, and the playback time and playing
    flag it reports to the editor) is another. Playback times are exact reals here. */
module SubtitlePreview {
  import opened Text
  import opened SubtitleEntries

  /** Whether the cue covers instant `t` (milliseconds), both ends included. */
  predicate Covers(e: SubtitleEntry, t: real)
  {
    e.startTime as real <= t <= e.endTime as real
  }

  /** The first entry, from `i` on, that covers `t`. */
  function FindCue(entries: seq<SubtitleEntry>, t: real, i: nat): (r: Option<nat>)
    requires i <= |entries|
    ensures r.Some? ==> i <= r.value < |entries| && Covers(entries[r.value], t)
    ensures r.Some? ==> forall k :: i <= k < r.value ==> !Covers(entries[k], t)
    ensures r.None? ==> forall k :: i <= k < |entries| ==> !Covers(entries[k], t)
    decreases |entries| - i
  {
    if i == |entries| then None
    else if Covers(entries[i], t) then Some(i)
    else FindCue(entries, t, i + 1)
  }

  /** The text shown at `t`: the first covering cue's text, or nothing. */
  function CueText(entries: seq<SubtitleEntry>, t: real): (text: string)
    ensures (exists k :: 0 <= k < |entries| && Covers(entries[k], t)) || text == ""
  {
    match FindCue(entries, t, 0)
    case Some(k) => entries[k].text
    case None => ""
  }

  /** The first entry, from `i` on, with the given id. */
  function FindEntry(entries: seq<SubtitleEntry>, id: string, i: nat): (r: Option<nat>)
    requires i <= |entries|
    ensures r.Some? ==> i <= r.value < |entries| && entries[r.value].id == id
    ensures r.Some? ==> forall k :: i <= k < r.value ==> entries[k].id != id
    ensures r.None? ==> forall k :: i <= k < |entries| ==> entries[k].id != id
    decreases |entries| - i
  {
    if i == |entries| then None
    else if entries[i].id == id then Some(i)
    else FindEntry(entries, id, i + 1)
  }

  /** The `<video>` element: whether it is paused, and its position in seconds. */
  class VideoElement {
    var paused: bool
    var currentTime: real

    method Play()
      modifies this
      ensures !paused && currentTime == old(currentTime)
    {
      paused := false;
    }

    method Pause()
      modifies this
      ensures paused && currentTime == old(currentTime)
    {
      paused := true;
    }
  }

  /** The play/pause button: a paused video plays, a playing one pauses, and without a
      video nothing happens. */
  method HandlePlayPause(video: VideoElement?)
    modifies video
    ensures video != null ==> video.paused == !old(video.paused) && video.currentTime == old(video.currentTime)
  {
    if video == null {
      return;
    }
    if video.paused {
      video.Play();
    } else {
      video.Pause();
    }
  }

  /** Seeking when the active entry changes: with no active id, an empty one, no video
      or an id no entry has, the video stays where it is; otherwise it moves to the start
      of the first entry with that id. */
  method SeekToActiveEntry(video: VideoElement?, entries: seq<SubtitleEntry>, activeId: Option<string>)
    modifies video
    ensures video != null ==> video.paused == old(video.paused)
    ensures video != null ==>
              match SeekTarget(entries, activeId)
              case None => video.currentTime == old(video.currentTime)
              case Some(k) => video.currentTime == entries[k].startTime as real / 1000.0
  {
    if activeId.None? || activeId.value == "" || video == null {
      return;
    }
    var found := FindEntry(entries, activeId.value, 0);
    if found.Some? {
      video.currentTime := entries[found.value].startTime as real / 1000.0;
    }
  }

  /** The entry a change of active id seeks to, if any. */
  function SeekTarget(entries: seq<SubtitleEntry>, activeId: Option<string>): (r: Option<nat>)
    ensures r.Some? <==> activeId.Some? && activeId.value != "" && exists k :: 0 <= k < |entries| && entries[k].id == activeId.value
    ensures r.Some? ==> r.value < |entries| && entries[r.value].id == activeId.value
                        && forall k :: 0 <= k < r.value ==> entries[k].id != activeId.value
  {
    if activeId.None? || activeId.value == "" then None else FindEntry(entries, activeId.value, 0)
  }

  /** After a seek to an entry that is not empty in time, the preview shows a cue: that
      entry's, or the cue of an earlier entry that overlaps its start. */
  lemma SeekShowsCue(entries: seq<SubtitleEntry>, k: nat)
    requires k < |entries| && entries[k].startTime <= entries[k].endTime
    ensures var t := (entries[k].startTime as real / 1000.0) * 1000.0;
            var found := FindCue(entries, t, 0);
            found.Some? && found.value <= k && Covers(entries[found.value], entries[k].startTime as real)
  {
    var t := (entries[k].startTime as real / 1000.0) * 1000.0;
    assert t == entries[k].startTime as real;
    assert Covers(entries[k], t);
  }

  /** What the preview keeps: the text it shows, and what it reports to the editor. */
  class Preview {
    var currentSubText: string
    var videoCurrentTime: real
    var isVideoPlaying: bool

    constructor ()
      ensures currentSubText == "" && videoCurrentTime == 0.0 && !isVideoPlaying
    {
      currentSubText := "";
      videoCurrentTime := 0.0;
      isVideoPlaying := false;
    }

    /** Reading the playback position: it is reported in milliseconds, the cue under it
        is shown, and another animation frame is wanted while the video plays. */
    method UpdateTime(video: VideoElement, entries: seq<SubtitleEntry>) returns (again: bool)
      modifies this
      ensures videoCurrentTime == video.currentTime * 1000.0
      ensures currentSubText == CueText(entries, videoCurrentTime)
      ensures isVideoPlaying == old(isVideoPlaying)
      ensures again <==> !video.paused
    {
      var timeMs := video.currentTime * 1000.0;
      videoCurrentTime := timeMs;
      var current := FindCue(entries, timeMs, 0);
      currentSubText := if current.Some? then entries[current.value].text else "";
      again := !video.paused;
    }

    /** The `play` event: playing is reported, and frames start to run. */
    method OnPlay()
      modifies this
      ensures isVideoPlaying
      ensures currentSubText == old(currentSubText) && videoCurrentTime == old(videoCurrentTime)
    {
      isVideoPlaying := true;
    }

    /** The `pause` event: pausing is reported and the position is read once more. */
    method OnPause(video: VideoElement, entries: seq<SubtitleEntry>)
      modifies this
      ensures !isVideoPlaying
      ensures videoCurrentTime == video.currentTime * 1000.0
      ensures currentSubText == CueText(entries, videoCurrentTime)
    {
      isVideoPlaying := false;
      var _ := UpdateTime(video, entries);
    }
  }

  /** The text shown is the text of the first cue covering the position, and it is empty
      exactly when no cue covers it or that cue's text is empty. */
  lemma CueTextSpec(entries: seq<SubtitleEntry>, t: real)
    ensures CueText(entries, t) == "" <==>
              (forall k :: 0 <= k < |entries| ==> !Covers(entries[k], t))
              || exists k :: 0 <= k < |entries| && Covers(entries[k], t) && entries[k].text == ""
                             && forall m :: 0 <= m < k ==> !Covers(entries[m], t)
    ensures forall k :: 0 <= k < |entries| && Covers(entries[k], t) && (forall m :: 0 <= m < k ==> !Covers(entries[m], t))
                        ==> CueText(entries, t) == entries[k].text
  {
    var found := FindCue(entries, t, 0);
    if found.Some? {
      forall k | 0 <= k < |entries| && Covers(entries[k], t) && (forall m :: 0 <= m < k ==> !Covers(entries[m], t))
        ensures k == found.value
      {
      }
    }
  }
}
