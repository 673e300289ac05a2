/**
 * The game grid of today's games: the countdown shown on a card whose game has no score,
 * the paging window over the grid, the Next/Previous controls and the choice of what
 * the component shows.
 */
module Games {
  import opened Common
  import opened Text

  const COLUMNS_DISPLAYED := 3
  const ROWS_DISPLAYED := 2
  const GAMES_PER_PAGE := COLUMNS_DISPLAYED * ROWS_DISPLAYED

  const STARTING_SOON := "Game is starting soon!"
  const FETCH_FAILED := "Failed to fetch NBA games"

  datatype TeamRef = TeamRef(teamTricode: string, wins: int, losses: int, score: Option<int>)

  datatype Game = Game(gameId: string, awayTeam: TeamRef, homeTeam: TeamRef, gameEt: string)

  /** The body of the today-games endpoint; `full_json` may be missing. */
  datatype TodayGames = TodayGames(fullJson: Option<seq<Game>>)

  // ---------------------------------------------------------------------------
  // Countdown

  datatype HoursMinutes = HoursMinutes(hours: nat, minutes: nat)

  /** Whole hours and the whole minutes left over, never rounded up. */
  function SplitSeconds(seconds: int): (hm: HoursMinutes)
    requires seconds > 0
    ensures hm.minutes < 60
    ensures hm.hours * 3600 + hm.minutes * 60 <= seconds < hm.hours * 3600 + hm.minutes * 60 + 60
  {
    var hours := seconds / 3600;
    var rest := seconds % 3600;
    var minutes := rest / 60;
    assert seconds == hours * 3600 + rest;
    assert rest == minutes * 60 + rest % 60;
    HoursMinutes(hours, minutes)
  }

  /** `${hours}h ${minutes}m`: starts with a digit and ends with "m". */
  function RenderHoursMinutes(hm: HoursMinutes): (text: string)
    ensures |text| >= 4 && IsDigit(text[0]) && text[|text| - 1] == 'm'
  {
    NatToString(hm.hours) + "h " + NatToString(hm.minutes) + "m"
  }

  /** Two decimal numbers each followed by a non-digit can be told apart from the text. */
  lemma DigitsThenSeparator(a: nat, b: nat, x: string, y: string)
    requires |x| >= 1 && !IsDigit(x[0]) && |y| >= 1 && !IsDigit(y[0])
    requires NatToString(a) + x == NatToString(b) + y
    ensures a == b && x == y
  {
    var sa, sb := NatToString(a), NatToString(b);
    assert sa == (sa + x)[..|sa|];
    assert sb == (sb + y)[..|sb|];
    NatToStringInjective(a, b);
    assert x == (sa + x)[|sa|..];
    assert y == (sb + y)[|sb|..];
  }

  /** Different hours and minutes never render as the same text: the text can be read back. */
  lemma RenderHoursMinutesInjective(p: HoursMinutes, q: HoursMinutes)
    requires RenderHoursMinutes(p) == RenderHoursMinutes(q)
    ensures p == q
  {
    var tp := "h " + NatToString(p.minutes) + "m";
    var tq := "h " + NatToString(q.minutes) + "m";
    assert RenderHoursMinutes(p) == NatToString(p.hours) + tp;
    assert RenderHoursMinutes(q) == NatToString(q.hours) + tq;
    DigitsThenSeparator(p.hours, q.hours, tp, tq);
    assert tp[2..] == NatToString(p.minutes) + "m";
    assert tq[2..] == NatToString(q.minutes) + "m";
    DigitsThenSeparator(p.minutes, q.minutes, "m", "m");
  }

  /**
   * The countdown text for a game `seconds` away (the start time minus now, in whole
   * seconds): the sentinel exactly when the game is not in the future.
   */
  function Countdown(seconds: int): (text: string)
    ensures text == STARTING_SOON <==> seconds <= 0
  {
    if seconds <= 0 then STARTING_SOON
    else
      var t := RenderHoursMinutes(SplitSeconds(seconds));
      assert IsDigit(t[0]) && !IsDigit(STARTING_SOON[0]);
      t
  }

  /**
   * Any hours and minutes that bracket the remaining seconds from below, with minutes
   * under an hour, are the ones the countdown shows.
   */
  lemma CountdownIsFloor(seconds: int, h: nat, m: nat)
    requires seconds > 0 && m < 60
    requires h * 3600 + m * 60 <= seconds < h * 3600 + m * 60 + 60
    ensures Countdown(seconds) == NatToString(h) + "h " + NatToString(m) + "m"
  {
    var hm := SplitSeconds(seconds);
    assert hm.hours == h by {
      assert h * 3600 <= seconds < h * 3600 + 3600;
      assert hm.hours * 3600 <= seconds < hm.hours * 3600 + 3600;
    }
  }

  lemma CountdownExamples()
    ensures Countdown(3661) == "1h 1m"
    ensures Countdown(59) == "0h 0m"
    ensures Countdown(0) == STARTING_SOON
    ensures Countdown(-30) == STARTING_SOON
  {
    CountdownIsFloor(3661, 1, 1);
    CountdownIsFloor(59, 0, 0);
  }

  /** The countdown's hours and minutes together are the whole minutes remaining. */
  lemma TotalMinutes(seconds: int)
    requires seconds > 0
    ensures SplitSeconds(seconds).hours * 60 + SplitSeconds(seconds).minutes == seconds / 60
  {
    var hm := SplitSeconds(seconds);
    var total := hm.hours * 60 + hm.minutes;
    assert total * 60 <= seconds < total * 60 + 60;
  }

  /** As the current time advances towards the start, the countdown never goes up. */
  lemma CountdownMonotone(later: int, earlier: int)
    requires 0 < later <= earlier
    ensures var a, b := SplitSeconds(later), SplitSeconds(earlier);
            a.hours < b.hours || (a.hours == b.hours && a.minutes <= b.minutes)
  {
    TotalMinutes(later);
    TotalMinutes(earlier);
    var a, b := SplitSeconds(later), SplitSeconds(earlier);
    assert later / 60 <= earlier / 60;
    assert a.hours * 60 + a.minutes <= b.hours * 60 + b.minutes;
  }

  // ---------------------------------------------------------------------------
  // Paging window

  /**
   * `games.slice(start, start + GAMES_PER_PAGE)` with `start = index * COLUMNS_DISPLAYED`;
   * `slice` clamps both ends to the length.
   */
  function Window(games: seq<Game>, index: nat): (shown: seq<Game>)
    ensures |shown| <= GAMES_PER_PAGE
    ensures |shown| == if index * COLUMNS_DISPLAYED < |games|
                       then Min(GAMES_PER_PAGE, |games| - index * COLUMNS_DISPLAYED) else 0
    ensures forall k :: 0 <= k < |shown| ==> shown[k] == games[index * COLUMNS_DISPLAYED + k]
  {
    var start := index * COLUMNS_DISPLAYED;
    var end := start + GAMES_PER_PAGE;
    games[Min(start, |games|)..Min(end, |games|)]
  }

  /** Consecutive windows share three games: the step is one row, the window two rows. */
  lemma WindowsOverlap(games: seq<Game>, index: nat)
    ensures forall k :: COLUMNS_DISPLAYED <= k < |Window(games, index)| ==>
      k - COLUMNS_DISPLAYED < |Window(games, index + 1)| &&
      Window(games, index + 1)[k - COLUMNS_DISPLAYED] == Window(games, index)[k]
  {
    var w, v := Window(games, index), Window(games, index + 1);
    forall k | COLUMNS_DISPLAYED <= k < |w|
      ensures k - COLUMNS_DISPLAYED < |v| && v[k - COLUMNS_DISPLAYED] == w[k]
    {
      assert (index + 1) * COLUMNS_DISPLAYED + (k - COLUMNS_DISPLAYED) == index * COLUMNS_DISPLAYED + k;
    }
  }

  /** The window at index `i` shows a game exactly when its first slot is a game. */
  lemma WindowNonEmpty(games: seq<Game>, index: nat)
    ensures Window(games, index) != [] <==> index * COLUMNS_DISPLAYED < |games|
  {
  }

  /** `handleNext`: one step forward when the next window would still start on a game. */
  function NextIndex(index: nat, count: int): (next: nat)
    ensures next == index || next == index + 1
    ensures index * COLUMNS_DISPLAYED < count ==> next * COLUMNS_DISPLAYED < count
  {
    if (index + 1) * COLUMNS_DISPLAYED < count then index + 1 else index
  }

  /** `handlePrevious`: one step back unless already at the first window. */
  function PreviousIndex(index: nat): (previous: nat)
    ensures previous <= index
    ensures previous == index <==> index == 0
  {
    if index > 0 then index - 1 else index
  }

  datatype Press = NextPress | PreviousPress

  /** The index after a sequence of button presses over `count` games. */
  function Navigate(index: nat, count: int, presses: seq<Press>): (final: nat)
    ensures final <= index + |presses| && index <= final + |presses|
    decreases |presses|
  {
    if presses == [] then index
    else
      var i := if presses[0] == NextPress then NextIndex(index, count) else PreviousIndex(index);
      Navigate(i, count, presses[1..])
  }

  /** Next moves by exactly one or not at all, and only when the guard holds. */
  lemma NextSteps(index: nat, count: int)
    ensures NextIndex(index, count) == index + 1 <==> (index + 1) * COLUMNS_DISPLAYED < count
    ensures NextIndex(index, count) == index <==> (index + 1) * COLUMNS_DISPLAYED >= count
  {
  }

  /** Previous moves back by one exactly when the index is positive. */
  lemma PreviousSteps(index: nat)
    ensures index > 0 ==> PreviousIndex(index) == index - 1
    ensures index == 0 ==> PreviousIndex(index) == 0
  {
  }

  /** From an index whose window starts on a game, every press sequence stays on games. */
  lemma {:induction false} NavigationStaysOnGames(index: nat, count: int, presses: seq<Press>)
    requires index * COLUMNS_DISPLAYED < count
    ensures Navigate(index, count, presses) * COLUMNS_DISPLAYED < count
    decreases |presses|
  {
    if presses != [] {
      var i := if presses[0] == NextPress then NextIndex(index, count) else PreviousIndex(index);
      assert i * COLUMNS_DISPLAYED < count;
      NavigationStaysOnGames(i, count, presses[1..]);
    }
  }

  /** Starting from the first window of a non-empty list, the shown window is never empty. */
  lemma ShownWindowNeverEmpty(games: seq<Game>, presses: seq<Press>)
    requires games != []
    ensures Window(games, Navigate(0, |games|, presses)) != []
  {
    NavigationStaysOnGames(0, |games|, presses);
    WindowNonEmpty(games, Navigate(0, |games|, presses));
  }

  /** Fourteen games: windows of 6, 6, 6, 5 and 2 games, and Next is disabled at index 4. */
  lemma FourteenGames(games: seq<Game>)
    requires |games| == 14
    ensures |Window(games, 0)| == 6 && |Window(games, 1)| == 6 && |Window(games, 2)| == 6
    ensures |Window(games, 3)| == 5 && |Window(games, 4)| == 2
    ensures Navigate(0, 14, [NextPress, NextPress, NextPress, NextPress]) == 4
    ensures NextIndex(4, 14) == 4 && PreviousIndex(0) == 0
  {
  }

  // ---------------------------------------------------------------------------
  // What the component shows

  datatype Screen =
    | LoadingScreen
    | ErrorScreen(message: string)
    | EmptyScreen
    | GridScreen(shown: seq<Game>, previousEnabled: bool, nextEnabled: bool)

  /**
   * Loading first, then a non-empty error message, then "No games scheduled for today.",
   * then the grid of the current window with its Previous and Next buttons.
   */
  function ScreenOf(loading: bool, error: Option<string>, games: seq<Game>, index: nat): (s: Screen)
    ensures s.ErrorScreen? ==> error.Some? && s.message == error.value && s.message != ""
    ensures s.GridScreen? ==>
      && games != [] && s.shown == Window(games, index)
      && (s.nextEnabled <==> NextIndex(index, |games|) != index)
      && (s.previousEnabled <==> PreviousIndex(index) != index)
  {
    if loading then LoadingScreen
    else if IsTruthy(error) then ErrorScreen(error.value)
    else if |games| == 0 then EmptyScreen
    else GridScreen(Window(games, index), index != 0,
                    (index + 1) * COLUMNS_DISPLAYED < |games|)
  }

  /** The screen's precedence, and the error screen shows the stored message. */
  lemma ScreenPrecedence(loading: bool, error: Option<string>, games: seq<Game>, index: nat)
    ensures ScreenOf(loading, error, games, index).LoadingScreen? <==> loading
    ensures ScreenOf(loading, error, games, index).ErrorScreen? <==> !loading && IsTruthy(error)
    ensures ScreenOf(loading, error, games, index).ErrorScreen? ==>
      ScreenOf(loading, error, games, index).message == error.value
    ensures ScreenOf(loading, error, games, index).EmptyScreen? <==>
      !loading && !IsTruthy(error) && games == []
    ensures ScreenOf(loading, error, games, index).GridScreen? <==>
      !loading && !IsTruthy(error) && games != []
  {
  }

  /** The state of the `Games` component. */
  class GamesBoard {
    var games: seq<Game>
    var loading: bool
    var error: Option<string>
    var currentIndex: nat

    /** Nothing is loaded while loading, and the window always starts on a game or at 0. */
    ghost predicate Valid()
      reads this
    {
      && (loading ==> games == [] && error == None && currentIndex == 0)
      && (currentIndex == 0 || currentIndex * COLUMNS_DISPLAYED < |games|)
    }

    constructor ()
      ensures Valid()
      ensures loading && games == [] && error == None && currentIndex == 0
    {
      games := [];
      loading := true;
      error := None;
      currentIndex := 0;
    }

    /** The mount-time fetch settles once: a missing `full_json` gives an empty list. */
    method ApplyTodayGames(response: Fetched<TodayGames>)
      requires Valid() && loading
      modifies this
      ensures Valid() && !loading && currentIndex == 0
      ensures response.Rejected? ==> error == Some(response.message) && games == []
      ensures response.Response? && !response.ok ==> error == Some(FETCH_FAILED) && games == []
      ensures response.Response? && response.ok ==>
        error == None && games == response.payload.fullJson.GetOr([])
    {
      match response {
        case Rejected(message) =>
          error := Some(message);
        case Response(ok, payload) =>
          if !ok {
            error := Some(FETCH_FAILED);
          } else {
            games := payload.fullJson.GetOr([]);
          }
      }
      loading := false;
    }

    method HandleNext()
      requires Valid()
      modifies this`currentIndex
      ensures Valid()
      ensures currentIndex == NextIndex(old(currentIndex), |games|)
    {
      if (currentIndex + 1) * COLUMNS_DISPLAYED < |games| {
        currentIndex := currentIndex + 1;
      }
    }

    method HandlePrevious()
      requires Valid()
      modifies this`currentIndex
      ensures Valid()
      ensures currentIndex == PreviousIndex(old(currentIndex))
    {
      if currentIndex > 0 {
        currentIndex := currentIndex - 1;
      }
    }

    function CurrentScreen(): Screen
      reads this
    {
      ScreenOf(loading, error, games, currentIndex)
    }

    /** A grid that is shown never shows an empty window. */
    lemma GridNeverEmpty()
      requires Valid()
      ensures CurrentScreen().GridScreen? ==> CurrentScreen().shown != []
    {
      WindowNonEmpty(games, currentIndex);
    }
  }
}
