/**
 * The navigation graph's rules: which routes hide the top and bottom bars, the route strings the
 * screens navigate to, the arguments a destination reads back (with its defaults), and the record
 * screen's split of "artist · part". URL encoding and decoding are the functions `encode` and
 * `decode` the caller passes in; the navigation controller itself is not modelled.
 */
module AppNavigation {
  import opened Wrappers
  import opened Strings

  const LoginRoute := "login"
  const HomeRoute := "home"
  const SearchRoute := "search"
  const AnalysisRoute := "analysis"
  const ProfileRoute := "profile"
  const ProfileEditRoute := "profileEdit"
  const PracticeSettingsRoute := "practiceSettings"
  const NotificationSettingsRoute := "notificationSettings"
  const PrivacySettingsRoute := "privacySettings"
  const AppInfoRoute := "appInfo"
  const WithdrawalRoute := "withdrawal"
  const SearchResultsRoute := "searchResults/{query}"
  const SongDetailRoute := "songDetail/{songId}"
  const SongPartSelectRoute := "songPartSelect/{songId}"
  const DancePracticeRoute := "dancePractice/{songTitle}/{artistPart}/{difficulty}/{length}"
  const RecordRoute := "record/{songTitle}/{artistPart}/{difficulty}"
  const PracticeResultRoute := "practiceResult"
  const AnalysisLoadingRoute := "analysisLoading"

  /** The tabs of the bottom bar. */
  const BottomNavRoutes := [HomeRoute, SearchRoute, ProfileRoute]

  /** The routes on which neither bar is shown. */
  const HiddenRoutes := [
    LoginRoute, ProfileEditRoute, PracticeSettingsRoute, NotificationSettingsRoute, PrivacySettingsRoute,
    AppInfoRoute, WithdrawalRoute, SongDetailRoute, SongPartSelectRoute, DancePracticeRoute,
    PracticeResultRoute, AnalysisLoadingRoute, RecordRoute]

  /** `showMainBars`, which is also the bottom bar's visibility; `None` is a back stack with no destination. */
  function ShowMainBars(route: Option<string>): (show: bool)
    ensures route.None? ==> show
    ensures route.Some? ==> (show <==> forall i :: 0 <= i < |HiddenRoutes| ==> HiddenRoutes[i] != route.value)
  {
    route.None? || route.value !in HiddenRoutes
  }

  /** The top bar: the main bars are shown and the route is not one of the screens with their own header. */
  function ShowTopBar(route: Option<string>): (show: bool)
    ensures show ==> ShowMainBars(route)
    ensures route.Some? && route.value in [HomeRoute, ProfileRoute, SearchRoute, SearchResultsRoute] ==> !show
    ensures ShowMainBars(route) && (route.None? || route.value !in [HomeRoute, ProfileRoute, SearchRoute, SearchResultsRoute])
      ==> show
  {
    var r := route.GetOr("");
    ShowMainBars(route) && (route.None? || (r != HomeRoute && r != ProfileRoute && r != SearchRoute && r != SearchResultsRoute))
  }

  /** There are exactly 13 hidden routes, all distinct. */
  lemma HiddenRoutesDistinct()
    ensures |HiddenRoutes| == 13
    ensures forall i, j :: 0 <= i < j < |HiddenRoutes| ==> HiddenRoutes[i] != HiddenRoutes[j]
  {
  }

  /** Every hidden route hides both bars. */
  lemma HiddenRoutesHideBars()
    ensures forall i :: 0 <= i < |HiddenRoutes| ==> !ShowMainBars(Some(HiddenRoutes[i])) && !ShowTopBar(Some(HiddenRoutes[i]))
  {
  }

  /**
   * Every tab shows the bottom bar without the top bar, as do the search results; the analysis tab
   * shows both, and so does a missing route.
   */
  lemma ShownBars()
    ensures forall i :: 0 <= i < |BottomNavRoutes| ==>
      ShowMainBars(Some(BottomNavRoutes[i])) && !ShowTopBar(Some(BottomNavRoutes[i]))
    ensures ShowMainBars(Some(AnalysisRoute)) && ShowTopBar(Some(AnalysisRoute))
    ensures ShowMainBars(Some(SearchResultsRoute)) && !ShowTopBar(Some(SearchResultsRoute))
    ensures ShowMainBars(None) && ShowTopBar(None)
  {
  }

  /** Home's `onSearch`: a non-blank query opens its results; a blank one goes nowhere. */
  function OnSearch(query: string): (target: Option<string>)
    ensures target.Some? <==> !IsBlank(query)
    ensures target.Some? ==> StartsWith(target.value, "searchResults/") && target.value[|"searchResults/"|..] == query
  {
    if IsBlank(query) then None else Some("searchResults/" + query)
  }

  /** The part-select screen's jump to practice: four encoded arguments under "dancePractice". */
  function PracticeTarget(encode: string -> string, songTitle: string, artistPart: string,
                          difficulty: string, length: string): string {
    "dancePractice/" + encode(songTitle) + "/" + encode(artistPart) + "/" + encode(difficulty) + "/" + encode(length)
  }

  /** The practice screen's jump to recording: three encoded arguments under "record". */
  function RecordTarget(encode: string -> string, songTitle: string, artistPart: string, difficulty: string): string {
    "record/" + encode(songTitle) + "/" + encode(artistPart) + "/" + encode(difficulty)
  }

  /** The practice screen's arguments after decoding, each with its default when absent. */
  datatype PracticeArgs = PracticeArgs(songTitle: string, artistPart: string, difficulty: string, length: string)

  /** The record screen's arguments after decoding and splitting "artist · part". */
  datatype RecordArgs = RecordArgs(songTitle: string, difficulty: string, artist: string, part: string)

  /** `getString(name)?.let { decodeArg(it) } ?: default`. */
  function DecodedOr(arg: Option<string>, decode: string -> string, default: string): (r: string)
    ensures arg.Some? ==> r == decode(arg.value)
    ensures arg.None? ==> r == default
  {
    if arg.Some? then decode(arg.value) else default
  }

  /** The practice destination reading its four arguments. */
  function ReadPracticeArgs(decode: string -> string, songTitle: Option<string>, artistPart: Option<string>,
                            difficulty: Option<string>, length: Option<string>): (a: PracticeArgs)
    ensures songTitle.None? ==> a.songTitle == "곡 정보 없음"
    ensures artistPart.None? ==> a.artistPart == "아티스트 정보 없음"
    ensures difficulty.None? ==> a.difficulty == "난이도 정보 없음"
    ensures length.None? ==> a.length == "시간 정보 없음"
    ensures songTitle.Some? ==> a.songTitle == decode(songTitle.value)
    ensures artistPart.Some? ==> a.artistPart == decode(artistPart.value)
    ensures difficulty.Some? ==> a.difficulty == decode(difficulty.value)
    ensures length.Some? ==> a.length == decode(length.value)
  {
    PracticeArgs(DecodedOr(songTitle, decode, "곡 정보 없음"), DecodedOr(artistPart, decode, "아티스트 정보 없음"),
                 DecodedOr(difficulty, decode, "난이도 정보 없음"), DecodedOr(length, decode, "시간 정보 없음"))
  }

  /** The separator between artist and part in `artistPart`. */
  const Dot: char := '·'

  /** The first piece of a split on `c`: the longest prefix of `s` without `c`. */
  function FirstPiece(s: string, c: char): (r: string)
    ensures StartsWith(s, r) && c !in r
    ensures c in s ==> |r| < |s| && s[|r|] == c
    ensures c !in s ==> r == s
    ensures Split(s, [c])[0] == r
  {
    IndexOfChar(s, c);
    Split(s, [c])[0]
  }

  /** The second piece of a split on `c`, when there is one. */
  lemma SplitSecond(s: string, c: char)
    ensures |Split(s, [c])| >= 2 <==> c in s
    ensures c in s ==> Split(s, [c])[1] == FirstPiece(s[|FirstPiece(s, c)| + 1..], c)
  {
    var i := IndexOfFrom(s, [c], 0);
    assert i >= 0 <==> c in s by {
      IndexOfCharFound(s, c);
    }
    if i >= 0 {
      var rest := s[i + 1..];
      var tail := Split(rest, [c]);
      assert Split(s, [c]) == [s[..i]] + tail;
      assert |FirstPiece(s, c)| == i by {
        assert FirstPiece(s, c) == s[..i];
      }
      assert tail[0] == FirstPiece(rest, c);
    } else {
      assert Split(s, [c]) == [s];
    }
  }

  /**
   * `artistPart.split("·").map { it.trim() }`: the artist is the trimmed text before the first
   * dot, and the part the trimmed text between the first and second dots, or the whole untrimmed
   * `artistPart` when it has no dot. The split is never empty, so "Unknown" is never used.
   */
  function SplitArtistPart(artistPart: string): (r: (string, string))
    ensures r.0 == Trim(FirstPiece(artistPart, Dot))
    ensures Dot !in artistPart ==> r.1 == artistPart
    ensures Dot in artistPart ==> r.1 == Trim(FirstPiece(artistPart[|FirstPiece(artistPart, Dot)| + 1..], Dot))
  {
    var parts := Split(artistPart, [Dot]);
    SplitSecond(artistPart, Dot);
    var trimmed := seq(|parts|, i requires 0 <= i < |parts| => Trim(parts[i]));
    (trimmed[0], if |trimmed| >= 2 then trimmed[1] else artistPart)
  }

  /** The record destination reading its three arguments. */
  function ReadRecordArgs(decode: string -> string, songTitle: Option<string>, artistPart: Option<string>,
                          difficulty: Option<string>): (a: RecordArgs)
    ensures songTitle.None? ==> a.songTitle == "제목 없음"
    ensures difficulty.None? ==> a.difficulty == "보통"
    ensures artistPart.None? ==> (a.artist, a.part) == SplitArtistPart("정보 없음")
    ensures artistPart.Some? ==> (a.artist, a.part) == SplitArtistPart(decode(artistPart.value))
    ensures songTitle.Some? ==> a.songTitle == decode(songTitle.value)
    ensures difficulty.Some? ==> a.difficulty == decode(difficulty.value)
  {
    var split := SplitArtistPart(DecodedOr(artistPart, decode, "정보 없음"));
    RecordArgs(DecodedOr(songTitle, decode, "제목 없음"), DecodedOr(difficulty, decode, "보통"), split.0, split.1)
  }

  /** With no artist argument, both record fields are the default text, which holds no dot and no outer space. */
  lemma DefaultArtistPart()
    ensures SplitArtistPart("정보 없음") == ("정보 없음", "정보 없음")
  {
    var d := "정보 없음";
    assert Dot !in d;
    assert TrimStart(d) == d;
    assert TrimEnd(d) == d;
  }

  /** An encoder whose output never holds "/" and which `decode` undoes. */
  ghost predicate RouteSafe(encode: string -> string, decode: string -> string) {
    forall s :: '/' !in encode(s) && decode(encode(s)) == s
  }

  /** Joining four pieces with "/", written out. */
  lemma JoinFour(a: string, b: string, c: string, d: string)
    ensures Join([a, b, c, d], "/") == a + "/" + b + "/" + c + "/" + d
  {
    assert Join([c, d], "/") == c + "/" + d by {
      assert [c, d][1..] == [d];
    }
    assert Join([b, c, d], "/") == b + "/" + (c + "/" + d) by {
      assert [b, c, d][1..] == [c, d];
    }
    assert [a, b, c, d][1..] == [b, c, d];
  }

  /**
   * With a route-safe encoder, the practice route splits into its name and the four encoded
   * arguments, and the destination decodes exactly the values the part-select screen sent.
   */
  lemma PracticeRoundTrip(encode: string -> string, decode: string -> string, songTitle: string,
                          artistPart: string, difficulty: string, length: string)
    requires RouteSafe(encode, decode)
    ensures var pieces := Split(PracticeTarget(encode, songTitle, artistPart, difficulty, length), "/");
      && |pieces| == 5 && pieces[0] == "dancePractice"
      && ReadPracticeArgs(decode, Some(pieces[1]), Some(pieces[2]), Some(pieces[3]), Some(pieces[4]))
         == PracticeArgs(songTitle, artistPart, difficulty, length)
  {
    var e1, e2, e3, e4 := encode(songTitle), encode(artistPart), encode(difficulty), encode(length);
    var pieces := ["dancePractice", e1, e2, e3, e4];
    assert Join(pieces, "/") == PracticeTarget(encode, songTitle, artistPart, difficulty, length) by {
      JoinFour(e1, e2, e3, e4);
      assert pieces[1..] == [e1, e2, e3, e4];
    }
    assert '/' !in "dancePractice";
    SplitJoin(pieces, "/");
  }

  /**
   * With a route-safe encoder, the record route splits into its name and the three encoded
   * arguments, and the destination decodes the title and difficulty that were sent.
   */
  lemma RecordRoundTrip(encode: string -> string, decode: string -> string, songTitle: string,
                        artistPart: string, difficulty: string)
    requires RouteSafe(encode, decode)
    ensures var pieces := Split(RecordTarget(encode, songTitle, artistPart, difficulty), "/");
      && |pieces| == 4 && pieces[0] == "record"
      && var a := ReadRecordArgs(decode, Some(pieces[1]), Some(pieces[2]), Some(pieces[3]));
         && a.songTitle == songTitle && a.difficulty == difficulty
         && (a.artist, a.part) == SplitArtistPart(artistPart)
  {
    var e1, e2, e3 := encode(songTitle), encode(artistPart), encode(difficulty);
    var pieces := ["record", e1, e2, e3];
    assert Join(pieces, "/") == RecordTarget(encode, songTitle, artistPart, difficulty) by {
      JoinFour("record", e1, e2, e3);
    }
    assert '/' !in "record";
    SplitJoin(pieces, "/");
  }

  /**
   * The record screen receives "artist · part" as two trimmed fields, whatever spaces surround
   * the dot, when neither side holds a dot itself.
   */
  lemma ArtistPartRoundTrip(artist: string, part: string)
    requires Dot !in artist && Dot !in part
    ensures SplitArtistPart(artist + [Dot] + part) == (Trim(artist), Trim(part))
  {
    var s := artist + [Dot] + part;
    assert s[..|artist|] == artist && s[|artist|] == Dot;
    assert FirstPiece(s, Dot) == artist;
    assert s[|artist| + 1..] == part;
  }
}
