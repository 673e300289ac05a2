/**
 * The schedule calendar: each game's label gives its type, the games of a date are
 * grouped into per-type counts, the dates are indexed by calendar day, days are
 * highlighted by the types they hold, and the selected date is kept in browser storage.
 */
module GameCalendar {
  import opened Common
  import opened Text

  const SELECTED_DATE_KEY := "selectedDate"
  const SCHEDULE_FETCH_FAILED := "Failed to fetch schedule"

  datatype GameType = Regular | Preseason | Playoff | Cup

  /** A game of the schedule; only its label matters here. */
  datatype RawGame = RawGame(gameLabel: Option<string>)

  /** One entry of `leagueSchedule.gameDates`; `day` is its date as `toDateString` gives it. */
  datatype DateEntry = DateEntry(day: string, games: seq<RawGame>)

  /** The schedule body; `leagueSchedule.gameDates` may be missing. */
  datatype Schedule = Schedule(gameDates: Option<seq<DateEntry>>)

  /** A `{count, type}` record. */
  datatype Tally = Tally(count: int, gameType: GameType)

  // ---------------------------------------------------------------------------
  // Game type of a label

  /** The keyword that gives a game its type; a regular game has none. */
  function Keyword(t: GameType): string {
    match t
    case Preseason => "preseason"
    case Playoff => "playoffs"
    case Cup => "cup"
    case Regular => ""
  }

  /**
   * "preseason" is looked for first, then "playoffs", then "cup", ignoring case; a game
   * that is not regular has a label holding its keyword.
   */
  function Classify(gameLabel: Option<string>): (t: GameType)
    ensures t != Regular ==>
      gameLabel.Some? && gameLabel.value != "" && Contains(Lower(gameLabel.value), Keyword(t))
  {
    if gameLabel.None? then Regular
    else if Contains(Lower(gameLabel.value), "preseason") then Preseason
    else if Contains(Lower(gameLabel.value), "playoffs") then Playoff
    else if Contains(Lower(gameLabel.value), "cup") then Cup
    else Regular
  }

  /** The first keyword found decides, whatever else the label contains. */
  lemma ClassifyPrecedence(gameLabel: string)
    ensures var low := Lower(gameLabel);
      && (Contains(low, "preseason") ==> Classify(Some(gameLabel)) == Preseason)
      && (!Contains(low, "preseason") && Contains(low, "playoffs") ==> Classify(Some(gameLabel)) == Playoff)
      && (!Contains(low, "preseason") && !Contains(low, "playoffs") && Contains(low, "cup") ==>
            Classify(Some(gameLabel)) == Cup)
      && (!Contains(low, "preseason") && !Contains(low, "playoffs") && !Contains(low, "cup") ==>
            Classify(Some(gameLabel)) == Regular)
  {
  }

  /** Upper-casing or lower-casing a label does not change its type. */
  lemma ClassifyIgnoresCase(gameLabel: string)
    ensures Classify(Some(Upper(gameLabel))) == Classify(Some(gameLabel))
    ensures Classify(Some(Lower(gameLabel))) == Classify(Some(gameLabel))
  {
    LowerOfUpper(gameLabel);
    LowerIdempotent(gameLabel);
  }

  /** A label whose lower-cased text lacks one of the letters of `word` does not contain it. */
  lemma NotContainedWithoutLetter(gameLabel: string, word: string, k: nat)
    requires k < |word|
    requires forall i :: 0 <= i < |gameLabel| ==> LowerChar(gameLabel[i]) != word[k]
    ensures !Contains(Lower(gameLabel), word)
  {
    var low := Lower(gameLabel);
    forall i ensures !OccursAt(low, word, i) {
      if 0 <= i && i + |word| <= |low| {
        assert low[i..i + |word|][k] == low[i + k];
      }
    }
  }

  lemma ClassifyMissingOrEmpty()
    ensures Classify(None) == Regular
    ensures Classify(Some("")) == Regular
  {
  }

  /** "preseason" wins over any other keyword in the label. */
  lemma ClassifyPreseasonFirst()
    ensures Classify(Some("Preseason")) == Preseason
    ensures Classify(Some("Preseason Cup")) == Preseason
  {
    assert OccursAt(Lower("Preseason"), "preseason", 0);
    assert OccursAt(Lower("Preseason Cup"), "preseason", 0);
  }

  lemma ClassifyPlayoffs()
    ensures Classify(Some("NBA PLAYOFFS")) == Playoff
  {
    NotContainedWithoutLetter("NBA PLAYOFFS", "preseason", 1);
    assert OccursAt(Lower("NBA PLAYOFFS"), "playoffs", 4);
  }

  lemma ClassifyCup()
    ensures Classify(Some("Emirates NBA Cup")) == Cup
  {
    NotContainedWithoutLetter("Emirates NBA Cup", "preseason", 7);
    NotContainedWithoutLetter("Emirates NBA Cup", "playoffs", 3);
    assert OccursAt(Lower("Emirates NBA Cup"), "cup", 13);
  }

  /** Only the plural is looked for: a label "Playoff" is a regular game. */
  lemma ClassifySingularPlayoff()
    ensures Classify(Some("Playoff")) == Regular
  {
    NotContainedWithoutLetter("Playoff", "cup", 0);
  }

  // ---------------------------------------------------------------------------
  // Grouping the games of one date by type

  /** Each game of a date contributes `{count: 1, type}`. */
  function TallyOf(game: RawGame): Tally {
    Tally(1, Classify(game.gameLabel))
  }

  function Tallies(games: seq<RawGame>): (ts: seq<Tally>)
    ensures |ts| == |games|
    ensures forall i :: 0 <= i < |games| ==> ts[i] == TallyOf(games[i])
  {
    seq(|games|, i requires 0 <= i < |games| => TallyOf(games[i]))
  }

  /** `acc.find(item => item.type === t)`: the first position holding `t`, or -1. */
  function FindType(acc: seq<Tally>, t: GameType): (j: int)
    ensures -1 <= j < |acc|
    ensures 0 <= j ==> acc[j].gameType == t
    ensures forall k :: 0 <= k < (if j < 0 then |acc| else j) ==> acc[k].gameType != t
    decreases |acc|
  {
    if acc == [] then -1
    else if acc[0].gameType == t then 0
    else
      var j := FindType(acc[1..], t);
      if j < 0 then -1 else j + 1
  }

  /** One step of the reducer: add to the existing record of the type, or append one. */
  function GroupStep(acc: seq<Tally>, e: Tally): (r: seq<Tally>)
    ensures |acc| <= |r| <= |acc| + 1
    ensures forall k :: 0 <= k < |acc| ==> r[k].gameType == acc[k].gameType
    ensures forall k :: 0 <= k < |acc| && acc[k].gameType != e.gameType ==> r[k] == acc[k]
    ensures exists k :: 0 <= k < |r| && r[k].gameType == e.gameType
  {
    var j := FindType(acc, e.gameType);
    if j >= 0 then acc[j := Tally(acc[j].count + e.count, acc[j].gameType)]
    else
      var r := acc + [Tally(e.count, e.gameType)];
      assert r[|acc|].gameType == e.gameType;
      r
  }

  /** The reduce from `[]` over the whole sequence, left to right. */
  function GroupAll(entries: seq<Tally>): (grouped: seq<Tally>)
    ensures |grouped| <= |entries|
    ensures grouped == [] <==> entries == []
    decreases |entries|
  {
    if entries == [] then []
    else GroupStep(GroupAll(entries[..|entries| - 1]), entries[|entries| - 1])
  }

  /** The reducer as the component runs it, changing its accumulator in place. */
  method GroupByType(entries: seq<Tally>) returns (acc: seq<Tally>)
    ensures acc == GroupAll(entries)
  {
    acc := [];
    var i := 0;
    while i < |entries|
      invariant 0 <= i <= |entries|
      invariant acc == GroupAll(entries[..i])
    {
      var e := entries[i];
      var j := 0;
      while j < |acc| && acc[j].gameType != e.gameType
        invariant 0 <= j <= |acc|
        invariant forall k :: 0 <= k < j ==> acc[k].gameType != e.gameType
      {
        j := j + 1;
      }
      assert j < |acc| <==> FindType(acc, e.gameType) >= 0;
      assert j < |acc| ==> FindType(acc, e.gameType) == j;
      if j < |acc| {
        acc := acc[j := Tally(acc[j].count + e.count, acc[j].gameType)];
      } else {
        acc := acc + [Tally(e.count, e.gameType)];
      }
      assert entries[..i + 1][..i] == entries[..i];
      i := i + 1;
    }
    assert entries[..|entries|] == entries;
  }

  /** The game types of a sequence of tallies, in order. */
  function Kinds(ts: seq<Tally>): (ks: seq<GameType>)
    ensures |ks| == |ts|
    ensures forall i :: 0 <= i < |ts| ==> ks[i] == ts[i].gameType
  {
    seq(|ts|, i requires 0 <= i < |ts| => ts[i].gameType)
  }

  /** The distinct elements of `ts`, in order of first appearance. */
  function Dedup(ts: seq<GameType>): seq<GameType>
    decreases |ts|
  {
    if ts == [] then []
    else
      var d := Dedup(ts[..|ts| - 1]);
      if ts[|ts| - 1] in d then d else d + [ts[|ts| - 1]]
  }

  predicate NoDuplicates(s: seq<GameType>) {
    forall a, b :: 0 <= a < b < |s| ==> s[a] != s[b]
  }

  /** Where `t` first appears in `ts`. */
  function FirstIndex(ts: seq<GameType>, t: GameType): (r: nat)
    requires t in ts
    ensures r < |ts| && ts[r] == t
    ensures forall k :: 0 <= k < r ==> ts[k] != t
  {
    if ts[0] == t then 0 else 1 + FirstIndex(ts[1..], t)
  }

  /** `Dedup` keeps every element once and nothing else. */
  lemma {:induction false} DedupFacts(ts: seq<GameType>)
    ensures NoDuplicates(Dedup(ts))
    ensures forall t :: t in Dedup(ts) <==> t in ts
    decreases |ts|
  {
    if ts != [] {
      var p := ts[..|ts| - 1];
      DedupFacts(p);
      assert ts == p + [ts[|ts| - 1]];
    }
  }

  /** `Dedup` lists the elements in the order in which each first appears. */
  lemma {:induction false} DedupFirstAppearanceOrder(ts: seq<GameType>, a: nat, b: nat)
    requires a < b < |Dedup(ts)|
    ensures Dedup(ts)[a] in ts && Dedup(ts)[b] in ts
    ensures FirstIndex(ts, Dedup(ts)[a]) < FirstIndex(ts, Dedup(ts)[b])
    decreases |ts|
  {
    DedupFacts(ts);
    var n := |ts| - 1;
    var p, x := ts[..n], ts[n];
    var d := Dedup(p);
    DedupFacts(p);
    assert ts == p + [x];
    forall y | y in p ensures FirstIndex(ts, y) == FirstIndex(p, y) {
      var r := FirstIndex(p, y);
      assert ts[r] == y;
    }
    if b < |d| {
      DedupFirstAppearanceOrder(p, a, b);
    } else {
      assert Dedup(ts)[b] == x && x !in p;
      assert FirstIndex(ts, x) == n;
      assert Dedup(ts)[a] == d[a] && d[a] in p;
    }
  }

  /** The sum of the counts of a sequence of tallies. */
  function SumCounts(ts: seq<Tally>): int
    decreases |ts|
  {
    if ts == [] then 0 else SumCounts(ts[..|ts| - 1]) + ts[|ts| - 1].count
  }

  /** The summed counts of the tallies of type `t`. */
  function TotalFor(ts: seq<Tally>, t: GameType): int
    decreases |ts|
  {
    if ts == [] then 0
    else TotalFor(ts[..|ts| - 1], t) + (if ts[|ts| - 1].gameType == t then ts[|ts| - 1].count else 0)
  }

  lemma {:induction false} SumCountsUpdate(ts: seq<Tally>, j: nat, x: Tally)
    requires j < |ts|
    ensures SumCounts(ts[j := x]) == SumCounts(ts) - ts[j].count + x.count
    decreases |ts|
  {
    var n := |ts| - 1;
    if j < n {
      SumCountsUpdate(ts[..n], j, x);
      assert ts[j := x][..n] == ts[..n][j := x];
    } else {
      assert ts[j := x][..n] == ts[..n];
    }
  }

  lemma {:induction false} TotalForAbsent(ts: seq<Tally>, t: GameType)
    requires t !in Kinds(ts)
    ensures TotalFor(ts, t) == 0
    decreases |ts|
  {
    if ts != [] {
      var n := |ts| - 1;
      assert Kinds(ts[..n]) == Kinds(ts)[..n];
      TotalForAbsent(ts[..n], t);
    }
  }

  /** The grouped types are the distinct types of the input, by first appearance. */
  lemma {:induction false} GroupKinds(entries: seq<Tally>)
    ensures Kinds(GroupAll(entries)) == Dedup(Kinds(entries))
    decreases |entries|
  {
    if entries != [] {
      var n := |entries| - 1;
      var p, e := entries[..n], entries[n];
      GroupKinds(p);
      var acc := GroupAll(p);
      assert Kinds(entries)[..n] == Kinds(p);
      var j := FindType(acc, e.gameType);
      if j >= 0 {
        assert e.gameType in Kinds(acc);
        assert Kinds(GroupStep(acc, e)) == Kinds(acc);
      } else {
        assert e.gameType !in Kinds(acc);
        assert Kinds(GroupStep(acc, e)) == Kinds(acc) + [e.gameType];
      }
    }
  }

  /** Each grouped record carries the summed counts of its type in the input. */
  lemma {:induction false} GroupCounts(entries: seq<Tally>)
    ensures forall k :: 0 <= k < |GroupAll(entries)| ==>
      GroupAll(entries)[k].count == TotalFor(entries, GroupAll(entries)[k].gameType)
    decreases |entries|
  {
    if entries != [] {
      var n := |entries| - 1;
      var p, e := entries[..n], entries[n];
      GroupCounts(p);
      GroupKinds(p);
      DedupFacts(Kinds(p));
      var acc := GroupAll(p);
      var g := GroupAll(entries);
      var j := FindType(acc, e.gameType);
      forall k | 0 <= k < |g| ensures g[k].count == TotalFor(entries, g[k].gameType) {
        if k < |acc| {
          if k != j {
            assert g[k] == acc[k];
            if j >= 0 {
              assert Kinds(acc)[k] != Kinds(acc)[j];
            } else {
              assert acc[k].gameType != e.gameType;
            }
          }
        } else {
          assert j < 0 && g[k] == Tally(e.count, e.gameType);
          assert e.gameType !in Kinds(acc);
          TotalForAbsent(p, e.gameType);
        }
      }
    }
  }

  /** Grouping keeps the total count. */
  lemma {:induction false} GroupSum(entries: seq<Tally>)
    ensures SumCounts(GroupAll(entries)) == SumCounts(entries)
    decreases |entries|
  {
    if entries != [] {
      var n := |entries| - 1;
      var p, e := entries[..n], entries[n];
      GroupSum(p);
      var acc := GroupAll(p);
      assert GroupAll(entries) == GroupStep(acc, e);
      var j := FindType(acc, e.gameType);
      if j >= 0 {
        var x := Tally(acc[j].count + e.count, acc[j].gameType);
        assert GroupStep(acc, e) == acc[j := x];
        SumCountsUpdate(acc, j, x);
      } else {
        var r := acc + [Tally(e.count, e.gameType)];
        assert GroupStep(acc, e) == r;
        assert r[..|acc|] == acc;
      }
    }
  }

  /** With every input count at least one, so is every grouped count. */
  lemma {:induction false} GroupCountsPositive(entries: seq<Tally>)
    requires forall i :: 0 <= i < |entries| ==> entries[i].count >= 1
    ensures forall k :: 0 <= k < |GroupAll(entries)| ==> GroupAll(entries)[k].count >= 1
    decreases |entries|
  {
    if entries != [] {
      GroupCountsPositive(entries[..|entries| - 1]);
    }
  }

  /** The grouped list stored for a date with these games. */
  function DayGroups(games: seq<RawGame>): (grouped: seq<Tally>)
    ensures |grouped| <= |games|
    ensures grouped == [] <==> games == []
  {
    GroupAll(Tallies(games))
  }

  lemma {:induction false} TalliesSum(games: seq<RawGame>)
    ensures SumCounts(Tallies(games)) == |games|
    decreases |games|
  {
    if games != [] {
      var n := |games| - 1;
      assert Tallies(games)[..n] == Tallies(games[..n]);
      TalliesSum(games[..n]);
    }
  }

  /**
   * For the games of one date: the types are distinct and in order of first appearance,
   * each count is at least one, the counts add up to the number of games, and a type is
   * listed exactly when some game's label has it.
   */
  lemma DayGroupsSummary(games: seq<RawGame>)
    ensures var g := DayGroups(games);
      && Kinds(g) == Dedup(Kinds(Tallies(games)))
      && NoDuplicates(Kinds(g))
      && (forall k :: 0 <= k < |g| ==> g[k].count >= 1)
      && SumCounts(g) == |games|
      && (forall t :: t in Kinds(g) <==> exists i :: 0 <= i < |games| && Classify(games[i].gameLabel) == t)
  {
    var ts := Tallies(games);
    GroupKinds(ts);
    DedupFacts(Kinds(ts));
    GroupCountsPositive(ts);
    GroupSum(ts);
    TalliesSum(games);
    forall t ensures t in Kinds(ts) <==> exists i :: 0 <= i < |games| && Classify(games[i].gameLabel) == t {
      if t in Kinds(ts) {
        var i :| 0 <= i < |ts| && Kinds(ts)[i] == t;
        assert Classify(games[i].gameLabel) == t;
      }
      if i :| 0 <= i < |games| && Classify(games[i].gameLabel) == t {
        assert Kinds(ts)[i] == t;
      }
    }
  }

  // ---------------------------------------------------------------------------
  // The index by calendar day

  /** `forEach` over the date entries, each assigning its day's grouped list. */
  function IndexAll(entries: seq<DateEntry>): (index: map<string, seq<Tally>>)
    ensures entries != [] ==> var last := entries[|entries| - 1];
      last.day in index && index[last.day] == DayGroups(last.games)
    decreases |entries|
  {
    if entries == [] then map[]
    else
      var n := |entries| - 1;
      IndexAll(entries[..n])[entries[n].day := DayGroups(entries[n].games)]
  }

  /** A schedule without `leagueSchedule.gameDates` indexes nothing. */
  function IndexOf(schedule: Schedule): (index: map<string, seq<Tally>>)
    ensures schedule.gameDates.None? ==> index == map[]
    ensures schedule.gameDates.Some? ==> forall day :: day in index <==>
      exists e :: e in schedule.gameDates.value && e.day == day
  {
    if schedule.gameDates.Some? then
      var entries := schedule.gameDates.value;
      IndexKeys(entries);
      assert forall e :: e in entries <==> exists i :: 0 <= i < |entries| && entries[i] == e;
      IndexAll(entries)
    else map[]
  }

  /** Builds `gamesByDate` the way the fetch handler does, one date entry at a time. */
  method BuildIndex(schedule: Schedule) returns (gamesByDate: map<string, seq<Tally>>)
    ensures schedule.gameDates.None? ==> gamesByDate == map[]
    ensures gamesByDate == IndexOf(schedule)
  {
    gamesByDate := map[];
    if schedule.gameDates.Some? {
      var entries := schedule.gameDates.value;
      var i := 0;
      while i < |entries|
        invariant 0 <= i <= |entries|
        invariant gamesByDate == IndexAll(entries[..i])
      {
        var grouped := GroupByType(Tallies(entries[i].games));
        gamesByDate := gamesByDate[entries[i].day := grouped];
        assert entries[..i + 1][..i] == entries[..i];
        i := i + 1;
      }
      assert entries[..|entries|] == entries;
    }
  }

  /** The index has a key exactly for the days of the entries. */
  lemma {:induction false} IndexKeys(entries: seq<DateEntry>)
    ensures forall day :: day in IndexAll(entries) <==>
      exists i :: 0 <= i < |entries| && entries[i].day == day
    decreases |entries|
  {
    if entries != [] {
      var n := |entries| - 1;
      IndexKeys(entries[..n]);
      assert IndexAll(entries).Keys == IndexAll(entries[..n]).Keys + {entries[n].day};
      forall day ensures day in IndexAll(entries) <==>
        exists i :: 0 <= i < |entries| && entries[i].day == day
      {
        if i :| 0 <= i < |entries| && entries[i].day == day {
          if i < n {
            assert entries[..n][i].day == day;
          }
        }
        if day in IndexAll(entries[..n]) {
          var i :| 0 <= i < n && entries[..n][i].day == day;
          assert entries[i].day == day;
        }
      }
    }
  }

  /** Of several entries for one day, the last one decides what the index holds. */
  lemma {:induction false} IndexLastWins(entries: seq<DateEntry>, i: nat)
    requires i < |entries|
    requires forall j :: i < j < |entries| ==> entries[j].day != entries[i].day
    ensures entries[i].day in IndexAll(entries)
    ensures IndexAll(entries)[entries[i].day] == DayGroups(entries[i].games)
    decreases |entries|
  {
    var n := |entries| - 1;
    if i < n {
      IndexLastWins(entries[..n], i);
    }
  }

  /** The index entry of a day sums to the number of games of the day's last entry. */
  lemma DayCountsSum(entries: seq<DateEntry>, i: nat)
    requires i < |entries|
    requires forall j :: i < j < |entries| ==> entries[j].day != entries[i].day
    ensures entries[i].day in IndexAll(entries)
    ensures SumCounts(IndexAll(entries)[entries[i].day]) == |entries[i].games|
  {
    IndexLastWins(entries, i);
    DayGroupsSummary(entries[i].games);
  }

  // ---------------------------------------------------------------------------
  // Day highlighting

  /** `games[day]?.some(game => game.type === t)`. */
  predicate HasType(index: map<string, seq<Tally>>, day: string, t: GameType) {
    day in index && exists k :: 0 <= k < |index[day]| && index[day][k].gameType == t
  }

  predicate IsSpecial(t: GameType) {
    t == Preseason || t == Playoff || t == Cup
  }

  datatype DayModifiers = DayModifiers(playoff: bool, preseason: bool, cup: bool, regular: bool)

  /** The calendar's four modifier predicates for one day. */
  function ModifiersOf(index: map<string, seq<Tally>>, day: string): (m: DayModifiers)
    ensures m.regular ==> !m.playoff && !m.preseason && !m.cup
    ensures day !in index ==> m == DayModifiers(false, false, false, false)
  {
    DayModifiers(
      HasType(index, day, Playoff),
      HasType(index, day, Preseason),
      HasType(index, day, Cup),
      HasType(index, day, Regular) &&
        !(day in index && exists k :: 0 <= k < |index[day]| && IsSpecial(index[day][k].gameType)))
  }

  /**
   * A day is marked regular only when it has regular games and none of another type, and
   * every day with games carries at least one mark.
   */
  lemma ModifierRules(index: map<string, seq<Tally>>, day: string)
    ensures var m := ModifiersOf(index, day);
      && (m.regular <==> HasType(index, day, Regular) && !m.playoff && !m.preseason && !m.cup)
      && (day in index && index[day] != [] ==> m.playoff || m.preseason || m.cup || m.regular)
      && (day !in index ==> !m.playoff && !m.preseason && !m.cup && !m.regular)
  {
    if day in index && index[day] != [] {
      var t := index[day][0].gameType;
      assert HasType(index, day, t);
    }
  }

  /** A day's marks follow the labels of the games of its last entry in the schedule. */
  lemma ModifiersFollowLabels(entries: seq<DateEntry>, i: nat, t: GameType)
    requires i < |entries|
    requires forall j :: i < j < |entries| ==> entries[j].day != entries[i].day
    ensures HasType(IndexAll(entries), entries[i].day, t) <==>
      exists g :: 0 <= g < |entries[i].games| && Classify(entries[i].games[g].gameLabel) == t
  {
    var games := entries[i].games;
    IndexLastWins(entries, i);
    DayGroupsSummary(games);
    var grouped := DayGroups(games);
    if HasType(IndexAll(entries), entries[i].day, t) {
      var k :| 0 <= k < |grouped| && grouped[k].gameType == t;
      assert Kinds(grouped)[k] == t;
    }
    if t in Kinds(grouped) {
      var k :| 0 <= k < |grouped| && Kinds(grouped)[k] == t;
      assert grouped[k].gameType == t;
    }
  }

  /** Some game of the list has a label of type `t`. */
  predicate HasLabel(games: seq<RawGame>, t: GameType) {
    exists g :: 0 <= g < |games| && Classify(games[g].gameLabel) == t
  }

  /**
   * The four marks of a day follow the labels of its last entry: a special type is marked
   * when some game has it, and regular only when some game is regular and none is special.
   */
  lemma DayMarksFollowLabels(entries: seq<DateEntry>, i: nat)
    requires i < |entries|
    requires forall j :: i < j < |entries| ==> entries[j].day != entries[i].day
    ensures var games := entries[i].games;
      var m := ModifiersOf(IndexAll(entries), entries[i].day);
      && (m.playoff <==> HasLabel(games, Playoff))
      && (m.preseason <==> HasLabel(games, Preseason))
      && (m.cup <==> HasLabel(games, Cup))
      && (m.regular <==> HasLabel(games, Regular) && !HasLabel(games, Preseason) &&
                         !HasLabel(games, Playoff) && !HasLabel(games, Cup))
  {
    ModifiersFollowLabels(entries, i, Playoff);
    ModifiersFollowLabels(entries, i, Preseason);
    ModifiersFollowLabels(entries, i, Cup);
    ModifiersFollowLabels(entries, i, Regular);
    ModifierRules(IndexAll(entries), entries[i].day);
  }

  // ---------------------------------------------------------------------------
  // Date selection and its persistence

  /** A JavaScript `Date`, seen through `toDateString()` and `toISOString()`. */
  datatype Date = Date(day: string, iso: string)

  /** `date?.toDateString()`: absent for a null date. */
  function DayOf(date: Option<Date>): Option<string> {
    if date.Some? then Some(date.value.day) else None
  }

  /** The storage after a selection is saved: the key is set to the ISO text, or removed. */
  function Persist(storage: map<string, string>, date: Option<Date>): (r: map<string, string>)
    ensures forall k :: k != SELECTED_DATE_KEY ==>
      (k in r <==> k in storage) && (k in r ==> r[k] == storage[k])
    ensures date.Some? ==> SELECTED_DATE_KEY in r && r[SELECTED_DATE_KEY] == date.value.iso
    ensures date.None? ==> SELECTED_DATE_KEY !in r
  {
    if date.Some? then storage[SELECTED_DATE_KEY := date.value.iso]
    else storage - {SELECTED_DATE_KEY}
  }

  /** The initial selection: the stored text, parsed, when it is present and non-empty. */
  function Restore(storage: map<string, string>, parse: string -> Date): (r: Option<Date>)
    ensures r.Some? <==> SELECTED_DATE_KEY in storage && storage[SELECTED_DATE_KEY] != ""
    ensures r.Some? ==> r.value == parse(storage[SELECTED_DATE_KEY])
  {
    var saved := if SELECTED_DATE_KEY in storage then Some(storage[SELECTED_DATE_KEY]) else None;
    if IsTruthy(saved) then Some(parse(saved.value)) else None
  }

  /** The selected date, the browser storage and the dates handed to `onDateSelect`. */
  datatype Selection = Selection(selected: Option<Date>, storage: map<string, string>,
                                 notified: seq<Option<Date>>)

  /** `handleDateSelect`: nothing happens when the day is the current one. */
  function SelectDate(s: Selection, date: Option<Date>): (r: Selection)
    ensures DayOf(r.selected) == DayOf(date)
    ensures r.notified == s.notified || r.notified == s.notified + [date]
  {
    if DayOf(date) == DayOf(s.selected) then s
    else Selection(date, Persist(s.storage, date), s.notified + [date])
  }

  /** Choosing the current day again (two null dates included) changes nothing. */
  lemma SelectSameDayIsNoOp(s: Selection, date: Option<Date>)
    requires DayOf(date) == DayOf(s.selected)
    ensures SelectDate(s, date) == s
  {
  }

  /**
   * Choosing another day selects it, notifies the callback once with it, and touches only
   * the storage key of the selection.
   */
  lemma SelectNewDay(s: Selection, date: Option<Date>)
    requires DayOf(date) != DayOf(s.selected)
    ensures var r := SelectDate(s, date);
      && r.selected == date
      && r.notified == s.notified + [date]
      && (date.Some? ==> SELECTED_DATE_KEY in r.storage && r.storage[SELECTED_DATE_KEY] == date.value.iso)
      && (date.None? ==> SELECTED_DATE_KEY !in r.storage)
      && (forall k :: k != SELECTED_DATE_KEY ==>
            (k in r.storage <==> k in s.storage) && (k in r.storage ==> r.storage[k] == s.storage[k]))
  {
  }

  /** Selecting the same date twice writes and notifies only once. */
  lemma SelectTwice(s: Selection, date: Option<Date>)
    ensures SelectDate(SelectDate(s, date), date) == SelectDate(s, date)
  {
  }

  /**
   * After a change of day, a restart restores the chosen date, given that parsing a
   * date's ISO text gives that date back (and that the ISO text is not empty).
   */
  lemma RestoreAfterSelect(s: Selection, date: Option<Date>, parse: string -> Date)
    requires DayOf(date) != DayOf(s.selected)
    requires date.Some? ==> date.value.iso != "" && parse(date.value.iso) == date.value
    ensures Restore(SelectDate(s, date).storage, parse) == date
  {
  }

  // ---------------------------------------------------------------------------
  // The component

  datatype CalendarScreen = CalendarLoading | CalendarError(message: string) | CalendarShown

  /** The state of the `GameCalendar` component, with the browser storage it writes. */
  class Calendar {
    var gamesByDate: map<string, seq<Tally>>
    var loading: bool
    var error: Option<string>
    var selectedDate: Option<Date>
    var storage: map<string, string>
    var notified: seq<Option<Date>>

    /** Mounting restores the selection from storage; nothing has been notified yet. */
    constructor (saved: map<string, string>, parse: string -> Date)
      ensures gamesByDate == map[] && loading && error == None
      ensures selectedDate == Restore(saved, parse) && storage == saved && notified == []
    {
      gamesByDate := map[];
      loading := true;
      error := None;
      selectedDate := Restore(saved, parse);
      storage := saved;
      notified := [];
    }

    function CurrentSelection(): Selection
      reads this
    {
      Selection(selectedDate, storage, notified)
    }

    /**
     * The schedule fetch settles: the index is replaced on success and left as it was on
     * failure, and loading ends either way.
     */
    method ApplySchedule(response: Fetched<Schedule>)
      modifies this
      ensures !loading
      ensures response.Response? && response.ok ==>
        error == None && gamesByDate == IndexOf(response.payload)
      ensures response.Response? && !response.ok ==>
        error == Some(SCHEDULE_FETCH_FAILED) && gamesByDate == old(gamesByDate)
      ensures response.Rejected? ==> error == Some(response.message) && gamesByDate == old(gamesByDate)
      ensures CurrentSelection() == old(CurrentSelection())
    {
      loading := true;
      error := None;
      match response {
        case Rejected(message) =>
          error := Some(message);
        case Response(ok, payload) =>
          if !ok {
            error := Some(SCHEDULE_FETCH_FAILED);
          } else {
            var index := BuildIndex(payload);
            gamesByDate := index;
          }
      }
      loading := false;
    }

    method HandleDateSelect(date: Option<Date>)
      modifies this
      ensures CurrentSelection() == SelectDate(old(CurrentSelection()), date)
      ensures gamesByDate == old(gamesByDate) && loading == old(loading) && error == old(error)
    {
      if DayOf(date) == DayOf(selectedDate) {
        return;
      }
      selectedDate := date;
      notified := notified + [date];
      if date.Some? {
        storage := storage[SELECTED_DATE_KEY := date.value.iso];
      } else {
        storage := storage - {SELECTED_DATE_KEY};
      }
    }

    /** Loading first, then a (non-empty) error message, then the calendar. */
    function CurrentScreen(): CalendarScreen
      reads this
    {
      if loading then CalendarLoading
      else if IsTruthy(error) then CalendarError(error.value)
      else CalendarShown
    }

    /** The loading message hides everything; an empty error message is not shown. */
    lemma ScreenOrder()
      ensures CurrentScreen().CalendarLoading? <==> loading
      ensures CurrentScreen().CalendarError? <==> !loading && error.Some? && error.value != ""
      ensures CurrentScreen().CalendarError? ==> CurrentScreen().message == error.value
      ensures CurrentScreen().CalendarShown? <==> !loading && (error.None? || error.value == "")
    {
    }
  }
}
