/**
 * The playlist player: which of the five fixed tracks is loaded, whether playback
 * is on, which playlist entry is highlighted, and the commands sent to the media
 * element. Clicking an entry calls LoadTrack, the play/pause button calls
 * TogglePlayPause, and the media element's `ended` notification calls Ended.
 */
module Player {
  import opened TimeFormat

  datatype Track = Track(title: string, artist: string, cover: string, src: string)

  /** The fixed playlist, in display order. */
  const Playlist: seq<Track> := [
    Track("Nuke Powder", "Maeloux", "files/cover1.jpg", "files/track1.mp3"),
    Track("I'm so tired of this", "Rebzyyx", "files/cover2.jpg", "files/track2.mp3"),
    Track("Empowering Yourself", "Olivier Deriviere", "files/cover3.jpg", "files/track3.mp3"),
    Track("Unslept", "Miraidempa", "files/cover4.jpg", "files/track4.mp3"),
    Track("I Just Threw Out The Love Of My Dreams", "Weezer", "files/cover5.jpg", "files/track5.mp3")
  ]

  /** The icon on the play/pause button: the action the next click performs. */
  datatype Glyph = PlayIcon | PauseIcon

  /** A playback command sent to the media element. */
  datatype MediaCommand = Play | Pause

  /** Exactly one entry of `flags` is set, the one at `k`. */
  predicate OnlyActive(flags: seq<bool>, k: nat)
  {
    k < |flags| && forall i :: 0 <= i < |flags| ==> (flags[i] <==> i == k)
  }

  /** The track index after the current one ends: the next one, wrapping from the last to the first. */
  function NextIndex(i: nat): (r: nat)
    requires i < |Playlist|
    ensures r < |Playlist|
    ensures i + 1 < |Playlist| ==> r == i + 1
    ensures i + 1 == |Playlist| ==> r == 0
  {
    (i + 1) % |Playlist|
  }

  /** The track index after `n` tracks in a row have ended, starting from `i`. */
  function AfterEnded(i: nat, n: nat): (r: nat)
    requires i < |Playlist|
    ensures r < |Playlist|
  {
    if n == 0 then i else NextIndex(AfterEnded(i, n - 1))
  }

  /** After `n` tracks in a row have ended, the index has moved `n` places round the playlist. */
  lemma {:induction false} AfterEndedModular(i: nat, n: nat)
    requires i < |Playlist|
    ensures AfterEnded(i, n) == (i + n) % |Playlist|
  {
    if n > 0 {
      AfterEndedModular(i, n - 1);
    }
  }

  /** Once every track has ended in turn, the same track is loaded again. */
  lemma AfterEndedCycles(i: nat, n: nat)
    requires i < |Playlist|
    ensures AfterEnded(i, n + |Playlist|) == AfterEnded(i, n)
  {
    AfterEndedModular(i, n);
    AfterEndedModular(i, n + |Playlist|);
  }

  class Player {
    var currentTrackIndex: nat
    var isPlaying: bool
    /** Whether each playlist entry on the page carries the `active` class. */
    const active: array<bool>
    var glyph: Glyph
    /** What the page shows for the loaded track, and the audio source it plays. */
    var title: string
    var artist: string
    var artwork: string
    var source: string
    var progress: real
    var elapsedLabel: string
    var totalLabel: string
    /** Every play and pause command sent to the media element, oldest first. */
    var media: seq<MediaCommand>

    /**
     * The player's invariant once the page has loaded: the index is in range, the
     * page shows that track and plays its audio, and only its entry is highlighted.
     */
    ghost predicate Valid()
      reads this, active
    {
      active.Length == |Playlist| && currentTrackIndex < |Playlist| &&
      OnlyActive(active[..], currentTrackIndex) &&
      Shows(Playlist[currentTrackIndex])
    }

    ghost predicate Shows(t: Track)
      reads this
    {
      title == t.title && artist == t.artist && artwork == t.cover && source == t.src
    }

    /** The button shows "pause" exactly while playback is on. */
    ghost predicate GlyphMatches()
      reads this
    {
      glyph == PauseIcon <==> isPlaying
    }

    /**
     * The player as the page sets it up: stopped at track 0, which is then loaded.
     * The markup's initial highlight, button icon and total-time label are parameters.
     */
    constructor (markupActive: seq<bool>, markupGlyph: Glyph, markupTotal: string)
      requires |markupActive| == |Playlist|
      ensures Valid() && fresh(active)
      ensures currentTrackIndex == 0 && !isPlaying && media == []
      ensures glyph == markupGlyph && totalLabel == markupTotal
      ensures progress == 0.0 && elapsedLabel == "0:00"
    {
      currentTrackIndex := 0;
      isPlaying := false;
      active := new bool[|Playlist|](i requires 0 <= i < |Playlist| => markupActive[i]);
      glyph := markupGlyph;
      title, artist, artwork, source := "", "", "", "";
      progress := 0.0;
      elapsedLabel := "0:00";
      totalLabel := markupTotal;
      media := [];
      new;
      LoadTrack(0);
    }

    /**
     * Loads track `index`: shows its metadata, switches the source, highlights only
     * its entry, clears the progress, and keeps playing if playback was on.
     */
    method LoadTrack(index: nat)
      requires active.Length == |Playlist| && index < |Playlist|
      modifies this, active
      ensures Valid() && currentTrackIndex == index
      ensures isPlaying == old(isPlaying) && glyph == old(glyph) && totalLabel == old(totalLabel)
      ensures progress == 0.0 && elapsedLabel == "0:00"
      ensures media == old(media) + if isPlaying then [Play] else []
    {
      var track := Playlist[index];
      title, artist, artwork, source := track.title, track.artist, track.cover, track.src;
      for i := 0 to active.Length
        modifies active
        invariant forall j :: 0 <= j < i ==> !active[j]
      {
        active[i] := false;
      }
      active[index] := true;
      progress := 0.0;
      elapsedLabel := "0:00";
      currentTrackIndex := index;
      if isPlaying {
        media := media + [Play];
      }
    }

    /** The play/pause button: flips playback and the icon, sending the matching command. */
    method TogglePlayPause()
      requires Valid()
      modifies this
      ensures Valid() && isPlaying == !old(isPlaying) && GlyphMatches()
      ensures media == old(media) + [if old(isPlaying) then Pause else Play]
      ensures currentTrackIndex == old(currentTrackIndex) && totalLabel == old(totalLabel)
      ensures progress == old(progress) && elapsedLabel == old(elapsedLabel)
    {
      if isPlaying {
        media := media + [Pause];
        glyph := PlayIcon;
      } else {
        media := media + [Play];
        glyph := PauseIcon;
      }
      isPlaying := !isPlaying;
    }

    /**
     * The current track has ended: the next track (wrapping to the first) is loaded,
     * and playback, if on, is resumed; play is then requested a second time.
     */
    method Ended()
      requires Valid()
      modifies this, active
      ensures Valid() && currentTrackIndex == NextIndex(old(currentTrackIndex))
      ensures isPlaying == old(isPlaying) && glyph == old(glyph) && totalLabel == old(totalLabel)
      ensures progress == 0.0 && elapsedLabel == "0:00"
      ensures media == old(media) + if isPlaying then [Play, Play] else []
    {
      currentTrackIndex := NextIndex(currentTrackIndex);
      LoadTrack(currentTrackIndex);
      if isPlaying {
        media := media + [Play];
      }
    }

    /** The loaded track's duration has become known: the total-time label shows it. */
    method DurationKnown(duration: Seconds)
      requires duration.Finite? ==> 0.0 <= duration.value
      modifies this`totalLabel
      ensures totalLabel == FormatTime(duration)
    {
      totalLabel := FormatTime(duration);
    }
  }

  /**
   * `n` tracks in a row play to their end, each `ended` notification handled by
   * `Ended`: the player has moved `n` places round the playlist.
   */
  method EndedRepeatedly(p: Player, n: nat)
    requires p.Valid()
    modifies p, p.active
    ensures p.Valid() && p.isPlaying == old(p.isPlaying)
    ensures p.currentTrackIndex == AfterEnded(old(p.currentTrackIndex), n)
    ensures p.currentTrackIndex == (old(p.currentTrackIndex) + n) % |Playlist|
  {
    var start := p.currentTrackIndex;
    for k := 0 to n
      invariant p.Valid() && p.isPlaying == old(p.isPlaying)
      invariant p.currentTrackIndex == AfterEnded(start, k)
    {
      p.Ended();
    }
    AfterEndedModular(start, n);
  }

  /**
   * From a freshly loaded page, selecting the last track and letting it end moves
   * the highlight from the last entry to the first.
   */
  method LastTrackWrapsAround() returns (p: Player)
    ensures p.Valid() && p.currentTrackIndex == 0 && !p.isPlaying
    ensures p.active[0] && !p.active[|Playlist| - 1]
  {
    p := new Player([false, false, false, false, false], PlayIcon, "0:00");
    p.LoadTrack(|Playlist| - 1);
    assert p.active[|Playlist| - 1];
    p.Ended();
    assert p.active[..][0];
    assert !p.active[..][|Playlist| - 1];
  }

  /**
   * From a freshly loaded (stopped) page, two presses of play/pause play and then
   * pause, and leave the player stopped with the play icon.
   */
  method ToggleTwiceFromStopped() returns (p: Player)
    ensures p.Valid() && !p.isPlaying && p.glyph == PlayIcon
    ensures p.media == [Play, Pause]
  {
    p := new Player([false, false, false, false, false], PlayIcon, "0:00");
    p.TogglePlayPause();
    assert p.isPlaying && p.glyph == PauseIcon;
    p.TogglePlayPause();
  }
}
