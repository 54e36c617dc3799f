/** What the play views count, row by row, and which plays and items they put under one title. */
module PlayGroups {
  import opened Options
  import opened PlayLedger
  import opened Text
  import opened Viewings
  import opened PlayViews

  // ---------------------------------------------------------------- the rows of the base

  /** What a quality filter asks of a play's item. */
  predicate HasQuality(items: Library, bucket: Bucket, play: Viewing) {
    var item := (play.host, play.ratingKey);
    var known := if item in items then items[item].quality else None;
    match bucket
    case In4k => known == Some(K4)
    case In1080p => known == Some(P1080)
    case In720p => known == Some(P720)
    case InOther => play.kind != Track && (known.None? || known == Some(Sd))
  }

  predicate Asked(items: Library, f: Filters, play: Viewing) {
    && (f.since.Some? ==> play.viewedAt >= f.since.value)
    && (f.host.Some? ==> play.host == f.host.value)
    && (f.kind.Some? ==> play.kind == f.kind.value)
    && (f.quality.Some? ==> HasQuality(items, f.quality.value, play))
  }

  /**
   * A play is in the base exactly when the filters ask for it and each earlier one of the item by its
   * viewer, asked for or not, is at least the item's runtime behind it.
   */
  lemma BaseMeans(plays: seq<Viewing>, items: Library, f: Filters, play: Viewing)
    ensures play in Base(plays, items, f)
            <==> play in plays && Asked(items, f, play)
                 && forall p, millis | p in plays && SeenBefore(p, play) && RunsFor(items, play, millis) ::
                      (play.viewedAt - p.viewedAt) * 1000 >= millis
  {
    KeptExactly(plays, items, play);
    assert Asked(items, f, play) <==> Passes(items, f, play);
    hide Counts, Passes, Asked;
  }

  // ---------------------------------------------------------------- one title

  /** Two ways to join four texts with a colon give one text only when they are the same, or a colon hides inside. */
  lemma JoinedTexts(a: string, b: string, c: string, d: string)
    ensures a + ":" + b == c + ":" + d
            <==> (a == c && b == d)
                 || (exists x: string :: c == a + ":" + x && b == x + ":" + d)
                 || (exists x: string :: a == c + ":" + x && d == x + ":" + b)
  {
    if a + ":" + b == c + ":" + d {
      if |a| == |c| {
        assert (a + ":" + b)[..|a|] == a && (c + ":" + d)[..|a|] == c;
        assert (a + ":" + b)[|a| + 1..] == b && (c + ":" + d)[|a| + 1..] == d;
      } else if |a| < |c| {
        ColonInside(a, b, c, d);
      } else {
        ColonInside(c, d, a, b);
      }
    }
    forall x: string | c == a + ":" + x && b == x + ":" + d ensures a + ":" + b == c + ":" + d {
      assert a + ":" + (x + ":" + d) == (a + ":" + x) + ":" + d;
    }
    forall x: string | a == c + ":" + x && d == x + ":" + b ensures a + ":" + b == c + ":" + d {
      assert c + ":" + (x + ":" + b) == (c + ":" + x) + ":" + b;
    }
  }

  lemma ColonInside(a: string, b: string, c: string, d: string)
    requires a + ":" + b == c + ":" + d && |a| < |c|
    ensures exists x: string :: c == a + ":" + x && b == x + ":" + d
  {
    var whole := a + ":" + b;
    var x := c[|a| + 1..];
    assert whole[..|c|] == c && whole[..|a|] == a && whole[|a|] == ':';
    assert c == a + ":" + x;
    assert whole[|a| + 1..] == b && (c + ":" + d)[|a| + 1..] == x + ":" + d;
  }

  lemma LowerKeepsColons(text: string)
    ensures ':' in Lower(text) <==> ':' in text
  {
    var lower := Lower(text);
    if ':' in text {
      var i :| 0 <= i < |text| && text[i] == ':';
      assert lower[i] == ':';
    }
    if ':' in lower {
      var i :| 0 <= i < |lower| && lower[i] == ':';
      assert text[i] == ':';
    }
  }

  predicate Describes(items: Library, play: Viewing, known: Known) {
    (play.host, play.ratingKey) in items && items[(play.host, play.ratingKey)] == known
  }

  /** Two completions of episodes whose shows are known count for one title exactly when the shows have one name. */
  lemma EpisodesGroupByShow(items: Library, year: int -> string, p: Viewing, q: Viewing, a: Known, b: Known)
    requires p.kind == Episode && q.kind == Episode && Describes(items, p, a) && Describes(items, q, b)
    requires a.grandparentTitle != "" && b.grandparentTitle != ""
    ensures GroupKey(items, year, p) == GroupKey(items, year, q)
            <==> Lower(a.grandparentTitle) == Lower(b.grandparentTitle)
  {
    assert GroupKey(items, year, p)[5..] == Lower(a.grandparentTitle);
    assert GroupKey(items, year, q)[5..] == Lower(b.grandparentTitle);
  }

  /** The title a film is counted under: the library's, else the ledger's own. */
  function FilmTitle(items: Library, play: Viewing): string {
    var item := (play.host, play.ratingKey);
    if item in items && items[item].title != "" then items[item].title else play.title
  }

  function FilmYear(items: Library, play: Viewing): Option<int> {
    var item := (play.host, play.ratingKey);
    if item in items then items[item].year else None
  }

  /** A year is written without a colon, and no two alike. */
  ghost predicate YearsAreWritten(year: int -> string) {
    (forall n :: year(n) != "" && ':' !in year(n)) && forall m, n :: year(m) == year(n) ==> m == n
  }

  /** Two films with a title count for one exactly when title and year agree. */
  lemma FilmsGroupByTitleAndYear(items: Library, year: int -> string, p: Viewing, q: Viewing)
    requires p.kind == Movie && q.kind == Movie && YearsAreWritten(year)
    requires FilmTitle(items, p) != "" && FilmTitle(items, q) != ""
    ensures GroupKey(items, year, p) == GroupKey(items, year, q)
            <==> Lower(FilmTitle(items, p)) == Lower(FilmTitle(items, q)) && FilmYear(items, p) == FilmYear(items, q)
  {
    var a, b, c, d := Lower(FilmTitle(items, p)), YearText(items, year, p), Lower(FilmTitle(items, q)),
                      YearText(items, year, q);
    FilmKey(items, year, p);
    FilmKey(items, year, q);
    YearTextsDiffer(items, year, p, q);
    hide GroupKey, YearText, YearsAreWritten;
    assert ("movie:" + (a + ":" + b))[6..] == a + ":" + b && ("movie:" + (c + ":" + d))[6..] == c + ":" + d;
    JoinedTexts(a, b, c, d);
    NoColonInside(b);
    NoColonInside(d);
  }

  function YearText(items: Library, year: int -> string, play: Viewing): string {
    if FilmYear(items, play).Some? then year(FilmYear(items, play).value) else ""
  }

  lemma YearTextsDiffer(items: Library, year: int -> string, p: Viewing, q: Viewing)
    requires YearsAreWritten(year)
    ensures ':' !in YearText(items, year, p) && ':' !in YearText(items, year, q)
    ensures YearText(items, year, p) == YearText(items, year, q) <==> FilmYear(items, p) == FilmYear(items, q)
  {
    OneYearText(items, year, p);
    OneYearText(items, year, q);
    if FilmYear(items, p).Some? && FilmYear(items, q).Some? {
      var m, n := FilmYear(items, p).value, FilmYear(items, q).value;
      assert year(m) == year(n) ==> m == n;
    }
    hide YearText, FilmYear;
  }

  lemma OneYearText(items: Library, year: int -> string, play: Viewing)
    requires YearsAreWritten(year)
    ensures ':' !in YearText(items, year, play)
    ensures FilmYear(items, play).None? ==> YearText(items, year, play) == ""
    ensures FilmYear(items, play).Some? ==>
              YearText(items, year, play) == year(FilmYear(items, play).value) && YearText(items, year, play) != ""
  {
    if FilmYear(items, play).Some? {
      var n := FilmYear(items, play).value;
      assert year(n) != "" && ':' !in year(n);
    } else {
      assert ':' !in "";
    }
  }

  lemma FilmKey(items: Library, year: int -> string, play: Viewing)
    requires play.kind == Movie && FilmTitle(items, play) != ""
    ensures GroupKey(items, year, play)
            == "movie:" + (Lower(FilmTitle(items, play)) + ":" + YearText(items, year, play))
  {
    var a, b := Lower(FilmTitle(items, play)), YearText(items, year, play);
    assert "movie:" + a + ":" + b == "movie:" + (a + ":" + b);
  }

  lemma NoColonInside(text: string)
    requires ':' !in text
    ensures forall x: string, y: string :: text != x + ":" + y
  {
    forall x: string, y: string ensures text != x + ":" + y {
      assert (x + ":" + y)[|x|] == ':';
    }
  }

  /** Two tracks of known albums count for one title exactly when album and artist agree, or a colon hides in them. */
  lemma TracksGroupByAlbum(items: Library, year: int -> string, p: Viewing, q: Viewing, a: Known, b: Known)
    requires p.kind == Track && q.kind == Track && Describes(items, p, a) && Describes(items, q, b)
    requires a.parentTitle != "" && b.parentTitle != ""
    ensures var album, artist, other, theirs :=
              Lower(a.parentTitle), Lower(a.grandparentTitle), Lower(b.parentTitle), Lower(b.grandparentTitle);
            GroupKey(items, year, p) == GroupKey(items, year, q)
            <==> (album == other && artist == theirs)
                 || (exists x: string :: other == album + ":" + x && artist == x + ":" + theirs)
                 || (exists x: string :: album == other + ":" + x && theirs == x + ":" + artist)
  {
    var album, artist, other, theirs :=
      Lower(a.parentTitle), Lower(a.grandparentTitle), Lower(b.parentTitle), Lower(b.grandparentTitle);
    assert GroupKey(items, year, p) == "album:" + (album + ":" + artist);
    assert GroupKey(items, year, q) == "album:" + (other + ":" + theirs);
    assert ("album:" + (album + ":" + artist))[6..] == album + ":" + artist;
    assert ("album:" + (other + ":" + theirs))[6..] == other + ":" + theirs;
    JoinedTexts(album, artist, other, theirs);
  }

  const FIRST_TRACK := Viewing("h", 1, "1", Track, "t", 1, 0)
  const SECOND_TRACK := Viewing("h", 2, "2", Track, "u", 1, 0)

  function ColonAlbums(): Library {
    map[("h", "1") := Known(Track, "t", None, "a", None, "b:c", None, None, None, true),
        ("h", "2") := Known(Track, "u", None, "a:b", None, "c", None, None, None, true)]
  }

  /** "a" by "b:c" and "a:b" by "c" are counted as one album. */
  lemma ColonJoinsTwoAlbums(year: int -> string)
    ensures GroupKey(ColonAlbums(), year, FIRST_TRACK) == GroupKey(ColonAlbums(), year, SECOND_TRACK)
  {
    var x := "b";
    assert Lower("a") == "a" && Lower("b:c") == "b:c" && Lower("a:b") == "a:b" && Lower("c") == "c";
    assert "a:b" == "a" + ":" + x && "b:c" == x + ":" + "c";
    TracksGroupByAlbum(ColonAlbums(), year, FIRST_TRACK, SECOND_TRACK, ColonAlbums()[("h", "1")],
                       ColonAlbums()[("h", "2")]);
  }

  /** An item that stands alone shares its title with no other item. */
  lemma LoneItemsStandAlone(items: Library, year: int -> string, p: Viewing, q: Viewing)
    requires StartsWith(GroupKey(items, year, p), "item:") && ':' !in p.ratingKey && ':' !in q.ratingKey
    ensures GroupKey(items, year, p) == GroupKey(items, year, q) ==> ItemOf(p) == ItemOf(q)
  {
    var key, other := GroupKey(items, year, p), GroupKey(items, year, q);
    if key == other {
      StandsAlone(items, year, p);
      StandsAlone(items, year, q);
      assert ("item:" + (p.host + ":" + p.ratingKey))[5..] == p.host + ":" + p.ratingKey;
      assert ("item:" + (q.host + ":" + q.ratingKey))[5..] == q.host + ":" + q.ratingKey;
      JoinedTexts(p.host, p.ratingKey, q.host, q.ratingKey);
      NoColonInside(p.ratingKey);
      NoColonInside(q.ratingKey);
    }
  }

  lemma StandsAlone(items: Library, year: int -> string, p: Viewing)
    requires StartsWith(GroupKey(items, year, p), "item:")
    ensures GroupKey(items, year, p) == "item:" + (p.host + ":" + p.ratingKey)
  {
    var key := GroupKey(items, year, p);
    assert key[0] == 'i';
    assert "item:" + p.host + ":" + p.ratingKey == "item:" + (p.host + ":" + p.ratingKey);
  }

  // ---------------------------------------------------------------- what was never played

  /** No completion of the item in the window. */
  predicate NobodyFinished(plays: seq<Viewing>, since: Option<int>, server: string, key: string) {
    forall play | play in plays && play.host == server && play.ratingKey == key ::
      since.Some? && play.viewedAt < since.value
  }

  predicate Shelved(items: Library, host: Option<string>, server: string, key: string, kind: Kind) {
    && (server, key) in items && items[(server, key)].present && items[(server, key)].kind == kind
    && (host.None? || server == host.value)
  }

  lemma UnfinishedIsUnplayed(plays: seq<Viewing>, since: Option<int>, item: ItemId)
    ensures item !in PlayedItems(plays, since) <==> NobodyFinished(plays, since, item.0, item.1)
  {
    if play :| play in plays && InWindow(since, play) && ItemOf(play) == item {
      assert !NobodyFinished(plays, since, item.0, item.1);
    }
  }

  /** A group is listed exactly when it has members and nobody finished any. */
  lemma GroupIsUnplayed(plays: seq<Viewing>, items: Library, since: Option<int>, host: Option<string>,
                        group: (string, Kind, string))
    ensures group in Unplayed(plays, items, since, host)
            <==> (exists item :: InGroup(items, host, item, group))
                 && forall item | InGroup(items, host, item, group) :: NobodyFinished(plays, since, item.0, item.1)
  {
    UnplayedMeans(plays, items, since, host, group);
    forall item: ItemId ensures item !in PlayedItems(plays, since) <==> NobodyFinished(plays, since, item.0, item.1) {
      UnfinishedIsUnplayed(plays, since, item);
    }
    hide Unplayed, PlayedItems, NobodyFinished, InGroup;
  }

  /** A film is listed exactly when it is in the library and nobody finished it. */
  lemma FilmIsUnplayed(plays: seq<Viewing>, items: Library, since: Option<int>, host: Option<string>, server: string,
                       key: string)
    ensures (server, Movie, key) in Unplayed(plays, items, since, host)
            <==> Shelved(items, host, server, key, Movie) && NobodyFinished(plays, since, server, key)
  {
    GroupIsUnplayed(plays, items, since, host, (server, Movie, key));
    hide Unplayed, NobodyFinished;
    forall item: ItemId ensures InGroup(items, host, item, (server, Movie, key))
                                <==> item == (server, key) && Shelved(items, host, server, key, Movie) {
      assert item == (item.0, item.1);
    }
    hide InGroup, Shelved;
    if Shelved(items, host, server, key, Movie) {
      assert InGroup(items, host, (server, key), (server, Movie, key));
    }
  }

  predicate EpisodeOf(items: Library, host: Option<string>, server: string, show: string, key: string) {
    Shelved(items, host, server, key, Episode) && items[(server, key)].grandparentKey == Some(show)
  }

  predicate TrackOf(items: Library, host: Option<string>, server: string, album: string, key: string) {
    Shelved(items, host, server, key, Track) && items[(server, key)].parentKey == Some(album)
  }

  lemma EpisodesAre(items: Library, host: Option<string>, item: ItemId, server: string, show: string)
    ensures InGroup(items, host, item, (server, Episode, show))
            <==> item.0 == server && EpisodeOf(items, host, server, show, item.1)
  {
    assert item == (item.0, item.1);
  }

  lemma TracksAre(items: Library, host: Option<string>, item: ItemId, server: string, album: string)
    ensures InGroup(items, host, item, (server, Track, album))
            <==> item.0 == server && TrackOf(items, host, server, album, item.1)
  {
    assert item == (item.0, item.1);
  }

  /** A show is listed exactly when the library has an episode of it and nobody finished any. */
  lemma ShowIsUnplayed(plays: seq<Viewing>, items: Library, since: Option<int>, host: Option<string>, server: string,
                       show: string)
    ensures (server, Episode, show) in Unplayed(plays, items, since, host)
            <==> (exists key :: EpisodeOf(items, host, server, show, key))
                 && forall key | EpisodeOf(items, host, server, show, key) :: NobodyFinished(plays, since, server, key)
  {
    GroupIsUnplayed(plays, items, since, host, (server, Episode, show));
    forall item: ItemId
      ensures InGroup(items, host, item, (server, Episode, show))
              <==> item.0 == server && EpisodeOf(items, host, server, show, item.1)
    {
      EpisodesAre(items, host, item, server, show);
    }
    hide Unplayed, NobodyFinished, InGroup, EpisodeOf;
    if key :| EpisodeOf(items, host, server, show, key) {
      assert InGroup(items, host, (server, key), (server, Episode, show));
    }
    assert forall key :: EpisodeOf(items, host, server, show, key)
                         <==> InGroup(items, host, (server, key), (server, Episode, show));
  }

  /** An album is listed exactly when the library has a track of it and nobody finished any. */
  lemma AlbumIsUnplayed(plays: seq<Viewing>, items: Library, since: Option<int>, host: Option<string>, server: string,
                        album: string)
    ensures (server, Track, album) in Unplayed(plays, items, since, host)
            <==> (exists key :: TrackOf(items, host, server, album, key))
                 && forall key | TrackOf(items, host, server, album, key) :: NobodyFinished(plays, since, server, key)
  {
    GroupIsUnplayed(plays, items, since, host, (server, Track, album));
    forall item: ItemId
      ensures InGroup(items, host, item, (server, Track, album))
              <==> item.0 == server && TrackOf(items, host, server, album, item.1)
    {
      TracksAre(items, host, item, server, album);
    }
    hide Unplayed, NobodyFinished, InGroup, TrackOf;
    if key :| TrackOf(items, host, server, album, key) {
      assert InGroup(items, host, (server, key), (server, Track, album));
    }
    assert forall key :: TrackOf(items, host, server, album, key)
                         <==> InGroup(items, host, (server, key), (server, Track, album));
  }
}
