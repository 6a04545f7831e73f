/** The client's built-in song list (`predefinedSongs` in client/src/App.tsx),
    shown when the server cannot be reached. */
module Catalog {
  import opened SongSchema
  import opened Strings

  /** The one placeholder recording every built-in entry points at,
      "https://www.soundjay.com/misc/sounds/bell-ringing-05.wav", written as
      scheme, colon and remainder. */
  const DemoAudioUrl: string := "https" + ":" + "//www.soundjay.com/misc/sounds/bell-ringing-05.wav"

  /** `new Date('2024-01-01')`: a date-only string is read as UTC midnight. */
  const NewYear2024: Timestamp := 1704067200000

  const MillisPerDay: int := 86400000

  const PredefinedSongs: seq<Song> := [
    Song(1, "Classical Symphony No. 1", DemoAudioUrl, NewYear2024),
    Song(2, "Jazz Blues Melody", DemoAudioUrl, NewYear2024 + MillisPerDay),
    Song(3, "Rock Guitar Anthem", DemoAudioUrl, NewYear2024 + 2 * MillisPerDay),
    Song(4, "Electronic Dance Beat", DemoAudioUrl, NewYear2024 + 3 * MillisPerDay)
  ]

  /** The placeholder URL passes the URL check. */
  lemma DemoAudioUrlIsValid()
    ensures ValidUrl(DemoAudioUrl)
  {
    var u := DemoAudioUrl;
    assert u[0] == 'h' && u[1] == 't' && u[2] == 't' && u[3] == 'p' && u[4] == 's' && u[5] == ':';
    IndexOfFirst(u, ':', 5);
  }

  /** Four entries with ids 1 to 4 in order, one per day from 1 January 2024,
      all sharing the placeholder URL, which passes the URL check. */
  lemma PredefinedSongsShape()
    ensures |PredefinedSongs| == 4
    ensures forall i :: 0 <= i < |PredefinedSongs| ==>
      && PredefinedSongs[i].id == i + 1
      && PredefinedSongs[i].audioUrl == DemoAudioUrl
      && PredefinedSongs[i].createdAt == NewYear2024 + i * MillisPerDay
    ensures forall i :: 0 <= i < |PredefinedSongs| ==> ConformsToSongSchema(PredefinedSongs[i])
  {
    DemoAudioUrlIsValid();
    var p := PredefinedSongs;
    assert p[0].id == 1 && p[1].id == 2 && p[2].id == 3 && p[3].id == 4;
    forall i | 0 <= i < |p|
      ensures p[i].audioUrl == DemoAudioUrl
      ensures p[i].createdAt == NewYear2024 + i * MillisPerDay
      ensures p[i].id == i + 1
    {
      assert i == 0 || i == 1 || i == 2 || i == 3;
    }
  }
}
