/**
 * The playback state of the PySimpleGUI music player in
 * `023_project/themes/music_player/music_player.py`: the playlist, the index
 * of the current track, the playing and paused flags and the volume.  The
 * mixer itself, the MP3 decoder and the `playlist.json` file are not
 * modelled: whether a file exists and how many whole seconds it lasts are
 * inputs of `add_track`.
 */
module MusicPlayer {
  import opened Wrappers

  /** The dictionary `_get_track_info` builds. */
  datatype Track = Track(path: string, title: string, duration: nat, durationStr: string)

  /** `os.path.basename`: what follows the last `/`, the whole path when there is none. */
  function Basename(path: string): (r: string)
    ensures '/' !in r
    ensures exists k :: 0 <= k <= |path| && r == path[k..] && (k == 0 || path[k - 1] == '/')
  {
    if path == [] then
      assert path[0..] == path;
      []
    else if path[|path| - 1] == '/' then
      assert path[|path|..] == [];
      []
    else
      var rest := Basename(path[..|path| - 1]);
      var k :| 0 <= k <= |path| - 1 && rest == path[..|path| - 1][k..] && (k == 0 || path[..|path| - 1][k - 1] == '/');
      assert rest + [path[|path| - 1]] == path[k..];
      rest + [path[|path| - 1]]
  }

  /** A number below 100 written with two digits, as `%M` and `%S` write it. */
  function TwoDigits(n: nat): (r: string)
    requires n < 100
    ensures |r| == 2 && '0' <= r[0] <= '9' && '0' <= r[1] <= '9'
    ensures (r[0] as int - '0' as int) * 10 + (r[1] as int - '0' as int) == n
  {
    [('0' as int + n / 10) as char, ('0' as int + n % 10) as char]
  }

  /**
   * `time.strftime('%M:%S', time.gmtime(length))`: minutes within the hour
   * and seconds within the minute of the whole seconds the track lasts.
   */
  function DurationStr(seconds: nat): (r: string)
    ensures |r| == 5 && r[2] == ':'
  {
    TwoDigits(seconds / 60 % 60) + ":" + TwoDigits(seconds % 60)
  }

  /** Reading `MM:SS` back gives the length modulo an hour: the hours are lost. */
  lemma DurationStrReadsBack(seconds: nat)
    ensures var r := DurationStr(seconds);
      ((r[0] as int - '0' as int) * 10 + (r[1] as int - '0' as int)) * 60
      + (r[3] as int - '0' as int) * 10 + (r[4] as int - '0' as int) == seconds % 3600
  {
    var r := DurationStr(seconds);
    var m, s := TwoDigits(seconds / 60 % 60), TwoDigits(seconds % 60);
    assert r[0] == m[0] && r[1] == m[1] && r[3] == s[0] && r[4] == s[1];
    WithinHour(seconds);
  }

  /** The seconds within the hour are the minutes within the hour and the seconds within the minute. */
  lemma WithinHour(seconds: nat)
    ensures seconds % 3600 == 60 * (seconds / 60 % 60) + seconds % 60
  {
    var m, s0 := seconds / 60, seconds % 60;
    var h, m0 := m / 60, m % 60;
    assert seconds == 3600 * h + (60 * m0 + s0);
    assert 0 <= 60 * m0 + s0 < 3600;
  }

  /** `_get_track_info` of a file that lasts `seconds` whole seconds. */
  function TrackInfo(path: string, seconds: nat): (r: Track)
    ensures r.path == path && r.duration == seconds && '/' !in r.title && |r.durationStr| == 5
  {
    Track(path, Basename(path), seconds, DurationStr(seconds))
  }

  /** The fields the methods change. */
  datatype State = State(
    currentTrack: Option<string>, playing: bool, paused: bool,
    playlist: seq<Track>, currentIndex: int, volume: real)

  /** Where `playlist[i]` lands in Python: negative indices count from the end; `None` is an `IndexError`. */
  function PyIndex(length: nat, i: int): (r: Option<nat>)
    ensures r.Some? <==> -(length as int) <= i < length
    ensures r.Some? ==> r.value < length && (r.value == i || r.value == length + i)
  {
    if 0 <= i < length then Some(i)
    else if -(length as int) <= i < 0 then Some(length + i)
    else None
  }

  /** `add_track`: one more track when the file exists, none otherwise. */
  function AddTrackOf(s: State, path: string, exists_: bool, seconds: nat): (r: State)
    ensures exists_ ==> r == s.(playlist := s.playlist + [TrackInfo(path, seconds)])
    ensures !exists_ ==> r == s
    ensures |r.playlist| == |s.playlist| + (if exists_ then 1 else 0)
  {
    if exists_ then s.(playlist := s.playlist + [TrackInfo(path, seconds)]) else s
  }

  /**
   * `play`: nothing on an empty playlist.  Otherwise `index`, when given,
   * becomes the current index; then the track there is loaded and played,
   * or, when the index is out of range, `IndexError` is raised with the
   * index already set (`true` in the second component).
   */
  function PlayOf(s: State, index: Option<int>): (r: (State, bool))
    ensures s.playlist == [] ==> r == (s, false)
    ensures s.playlist != [] ==> r.0.currentIndex == (if index.Some? then index.value else s.currentIndex)
    ensures var k := PyIndex(|s.playlist|, r.0.currentIndex);
      s.playlist != [] && k.Some? ==>
        !r.1 && r.0 == s.(currentIndex := r.0.currentIndex, currentTrack := Some(s.playlist[k.value].path),
                          playing := true, paused := false)
    ensures var k := PyIndex(|s.playlist|, r.0.currentIndex);
      s.playlist != [] && k.None? ==> r.1 && r.0 == s.(currentIndex := r.0.currentIndex)
  {
    if s.playlist == [] then (s, false)
    else
      var i := if index.Some? then index.value else s.currentIndex;
      var k := PyIndex(|s.playlist|, i);
      if k.None? then (s.(currentIndex := i), true)
      else (s.(currentIndex := i, currentTrack := Some(s.playlist[k.value].path), playing := true, paused := false), false)
  }

  /** `pause`: playing and not paused pauses; paused resumes; otherwise nothing. */
  function PauseOf(s: State): (r: State)
    ensures r == s.(paused := r.paused)
    ensures r.paused <==> (s.playing && !s.paused)
  {
    if s.playing && !s.paused then s.(paused := true)
    else if s.paused then s.(paused := false)
    else s
  }

  /** Pausing twice while playing puts the flags back. */
  lemma PauseTwice(s: State)
    requires s.playing
    ensures PauseOf(PauseOf(s)) == s
  {
  }

  /** `stop`. */
  function StopOf(s: State): (r: State)
    ensures r == s.(playing := false, paused := false)
  {
    s.(playing := false, paused := false)
  }

  /**
   * `next_track`: nothing on an empty playlist; otherwise one on, wrapping
   * round (Python's `%` by a positive length is never negative, like Dafny's),
   * and `play()`.
   */
  function NextOf(s: State): (r: State)
    ensures s.playlist == [] ==> r == s
    ensures s.playlist != [] ==> 0 <= r.currentIndex < |s.playlist| && r.playing && !r.paused
                                 && r.currentIndex == (s.currentIndex + 1) % |s.playlist|
                                 && r.currentTrack == Some(s.playlist[r.currentIndex].path)
                                 && r.playlist == s.playlist && r.volume == s.volume
  {
    if s.playlist == [] then s
    else PlayOf(s.(currentIndex := (s.currentIndex + 1) % |s.playlist|), None).0
  }

  /** `prev_track`: the same, one back. */
  function PrevOf(s: State): (r: State)
    ensures s.playlist == [] ==> r == s
    ensures s.playlist != [] ==> 0 <= r.currentIndex < |s.playlist| && r.playing && !r.paused
                                 && r.currentIndex == (s.currentIndex - 1) % |s.playlist|
                                 && r.currentTrack == Some(s.playlist[r.currentIndex].path)
                                 && r.playlist == s.playlist && r.volume == s.volume
  {
    if s.playlist == [] then s
    else PlayOf(s.(currentIndex := (s.currentIndex - 1) % |s.playlist|), None).0
  }

  /** From a track on the playlist, going back after going on returns to it. */
  lemma PrevAfterNext(s: State)
    requires 0 <= s.currentIndex < |s.playlist|
    ensures PrevOf(NextOf(s)).currentIndex == s.currentIndex
    ensures PrevOf(NextOf(s)).currentTrack == Some(s.playlist[s.currentIndex].path)
  {
    StepBack(s.currentIndex, |s.playlist|);
  }

  /** One on and one back round a playlist of `n` tracks. */
  lemma StepBack(i: int, n: int)
    requires 0 <= i < n
    ensures ((i + 1) % n - 1) % n == i
  {
    if i + 1 < n {
      ModSmall(i + 1, n);
      ModSmall(i, n);
    } else {
      ModSelf(n);
      ModMinusOne(n);
    }
  }

  lemma ModSmall(a: int, n: int)
    requires 0 <= a < n
    ensures a % n == a
  {
  }

  lemma ModSelf(n: int)
    requires 0 < n
    ensures n % n == 0
  {
    assert n == n * 1 + 0;
  }

  lemma ModMinusOne(n: int)
    requires 0 < n
    ensures (0 - 1) % n == n - 1
  {
    assert -1 == n * (-1) + (n - 1);
  }

  /** `set_volume`: `max(0.0, min(1.0, volume))`. */
  function Clamp(volume: real): (r: real)
    ensures 0.0 <= r <= 1.0
    ensures 0.0 <= volume <= 1.0 ==> r == volume
    ensures volume < 0.0 ==> r == 0.0
    ensures volume > 1.0 ==> r == 1.0
  {
    if 1.0 < volume then 1.0 else if volume < 0.0 then 0.0 else volume
  }

  class Player {
    var currentTrack: Option<string>
    var playing: bool
    var paused: bool
    var playlist: seq<Track>
    var currentIndex: int
    var volume: real

    function St(): State
      reads this
    {
      State(currentTrack, playing, paused, playlist, currentIndex, volume)
    }

    /** `MusicPlayer()`, with the playlist `_load_playlist` found (empty when there was none or it failed to read). */
    constructor(saved: seq<Track>)
      ensures St() == State(None, false, false, saved, 0, 0.5)
    {
      currentTrack, playing, paused := None, false, false;
      playlist, currentIndex, volume := saved, 0, 0.5;
    }

    method AddTrack(path: string, fileExists: bool, seconds: nat)
      modifies this
      ensures St() == AddTrackOf(old(St()), path, fileExists, seconds)
    {
      if fileExists {
        var info := TrackInfo(path, seconds);
        playlist := playlist + [info];
      }
    }

    /** `play`; `raised` is `true` when it ends in `IndexError`. */
    method Play(index: Option<int>) returns (raised: bool)
      modifies this
      ensures (St(), raised) == PlayOf(old(St()), index)
    {
      if playlist == [] {
        return false;
      }
      if index.Some? {
        currentIndex := index.value;
      }
      var k := PyIndex(|playlist|, currentIndex);
      if k.None? {
        return true;
      }
      currentTrack := Some(playlist[k.value].path);
      playing := true;
      paused := false;
      return false;
    }

    method Pause()
      modifies this
      ensures St() == PauseOf(old(St()))
    {
      if playing && !paused {
        paused := true;
      } else if paused {
        paused := false;
      }
    }

    method Stop()
      modifies this
      ensures St() == StopOf(old(St()))
    {
      playing := false;
      paused := false;
    }

    method NextTrack()
      modifies this
      ensures St() == NextOf(old(St()))
    {
      if playlist == [] {
        return;
      }
      currentIndex := (currentIndex + 1) % |playlist|;
      var _ := Play(None);
    }

    method PrevTrack()
      modifies this
      ensures St() == PrevOf(old(St()))
    {
      if playlist == [] {
        return;
      }
      currentIndex := (currentIndex - 1) % |playlist|;
      var _ := Play(None);
    }

    method SetVolume(v: real)
      modifies this
      ensures St() == old(St()).(volume := Clamp(v))
    {
      volume := Clamp(v);
    }
  }
}
