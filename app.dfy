/**
 * The game-stats endpoint of the back end: box-score tables given as a header row and
 * data rows become lists of records, or the endpoint answers with an error and status 500.
 */
module App {
  import opened Common

  /**
   * `dict(zip(headers, row))`: the pairs up to the shorter of the two are assigned in
   * order, so a repeated header ends up with the value of its last column.
   */
  function ZipDict<V>(headers: seq<string>, row: seq<V>): (record: map<string, V>)
    ensures forall k :: k in record ==> k in headers
    decreases |headers|
  {
    var n := Min(|headers|, |row|);
    if n == 0 then map[]
    else
      var pre := ZipDict(headers[..n - 1], row[..n - 1]);
      assert forall k :: k in headers[..n - 1] ==> k in headers;
      pre[headers[n - 1] := row[n - 1]]
  }

  /** A record has a key for each header paired with a value, and no other. */
  lemma {:induction false} ZipKeys<V>(headers: seq<string>, row: seq<V>)
    ensures ZipDict(headers, row).Keys == set j | 0 <= j < Min(|headers|, |row|) :: headers[j]
    decreases |headers|
  {
    var n := Min(|headers|, |row|);
    if n > 0 {
      var h, r := headers[..n - 1], row[..n - 1];
      ZipKeys(h, r);
      assert Min(|h|, |r|) == n - 1;
      var pre := set j | 0 <= j < n - 1 :: h[j];
      var all := set j | 0 <= j < n :: headers[j];
      assert all == pre + {headers[n - 1]} by {
        forall x | x in all ensures x in pre + {headers[n - 1]} {
          var j :| 0 <= j < n && headers[j] == x;
          if j < n - 1 { assert h[j] == x; }
        }
        forall x | x in pre ensures x in all {
          var j :| 0 <= j < n - 1 && h[j] == x;
          assert headers[j] == x;
        }
      }
    }
  }

  /** A header's value is taken from the last column with that header. */
  lemma {:induction false} ZipLastWins<V>(headers: seq<string>, row: seq<V>, j: nat)
    requires j < Min(|headers|, |row|)
    requires forall j' :: j < j' < Min(|headers|, |row|) ==> headers[j'] != headers[j]
    ensures headers[j] in ZipDict(headers, row)
    ensures ZipDict(headers, row)[headers[j]] == row[j]
    decreases |headers|
  {
    var n := Min(|headers|, |row|);
    if j < n - 1 {
      ZipLastWins(headers[..n - 1], row[..n - 1], j);
    }
  }

  predicate Distinct(headers: seq<string>) {
    forall a, b :: 0 <= a < b < |headers| ==> headers[a] != headers[b]
  }

  /**
   * With distinct headers and a row at least as long, the record's keys are exactly the
   * headers and each maps to the value in its own column.
   */
  lemma ZipFullRow<V>(headers: seq<string>, row: seq<V>)
    requires Distinct(headers) && |row| >= |headers|
    ensures ZipDict(headers, row).Keys == set h | h in headers
    ensures forall j :: 0 <= j < |headers| ==> ZipDict(headers, row)[headers[j]] == row[j]
  {
    ZipKeys(headers, row);
    forall j | 0 <= j < |headers| ensures ZipDict(headers, row)[headers[j]] == row[j] {
      ZipLastWins(headers, row, j);
    }
    forall h | h in headers ensures h in ZipDict(headers, row) {
      var j :| 0 <= j < |headers| && headers[j] == h;
      ZipLastWins(headers, row, j);
    }
  }

  /** A header row longer than the data row is cut to the row's length, and the other way round. */
  lemma ZipTruncates<V>(headers: seq<string>, row: seq<V>)
    ensures ZipDict(headers, row) == ZipDict(headers[..Min(|headers|, |row|)], row[..Min(|headers|, |row|)])
  {
    var n := Min(|headers|, |row|);
    if n > 0 {
      assert headers[..n][..n - 1] == headers[..n - 1];
      assert row[..n][..n - 1] == row[..n - 1];
    }
  }

  lemma ZipExamples()
    ensures ZipDict(["PTS", "PTS"], [10, 20]) == map["PTS" := 20]
    ensures ZipDict(["PTS", "AST", "REB"], [10, 5]) == map["PTS" := 10, "AST" := 5]
    ensures ZipDict(["PTS"], [10, 5, 7]) == map["PTS" := 10]
  {
    assert ["PTS", "PTS"][..1] == ["PTS"];
    assert [10, 20][..1] == [10];
    assert ["PTS", "AST", "REB"][..1] == ["PTS"];
    assert [10, 5][..1] == [10];
  }

  /** `reshape_data`: one record per data row, in row order. */
  function ReshapeData<V>(headers: seq<string>, data: seq<seq<V>>): (records: seq<map<string, V>>)
    ensures |records| == |data|
    ensures forall i :: 0 <= i < |data| ==> records[i] == ZipDict(headers, data[i])
  {
    seq(|data|, i requires 0 <= i < |data| => ZipDict(headers, data[i]))
  }

  /** A box-score table as `get_dict()` returns it; either key may be missing. */
  datatype RawTable<V> = RawTable(headers: Option<seq<string>>, data: Option<seq<seq<V>>>)

  datatype BoxScore<V> = BoxScore(playerStats: RawTable<V>, teamStats: RawTable<V>)

  /** The JSON body of the endpoint: both lists, or an error message alone. */
  datatype StatsReply<V> =
    | StatsBody(playerStats: seq<map<string, V>>, teamStats: seq<map<string, V>>)
    | ErrorBody(error: string)

  /** The HTTP status that goes with a reply. */
  function Status<V>(reply: StatsReply<V>): int {
    if reply.StatsBody? then 200 else 500
  }

  /** `str(KeyError(key))` for a key without a quote in it, such as "headers" or "data". */
  function KeyErrorMessage(key: string): string {
    "'" + key + "'"
  }

  /** Reshapes one table, raising on the first missing key (`headers` is read first). */
  function ReshapeTable<V>(table: RawTable<V>): (r: Result<seq<map<string, V>>>)
    ensures r.Ok? <==> Complete(table)
    ensures table.headers.None? ==> r == Err("'headers'")
    ensures table.headers.Some? && table.data.None? ==> r == Err("'data'")
    ensures r.Ok? ==> r.value == ReshapeData(table.headers.value, table.data.value)
  {
    if table.headers.None? then Err(KeyErrorMessage("headers"))
    else if table.data.None? then Err(KeyErrorMessage("data"))
    else Ok(ReshapeData(table.headers.value, table.data.value))
  }

  /**
   * `get_game_stats`: the box-score call, the player table, then the team table; any
   * exception becomes the error reply.
   */
  function GetGameStats<V>(boxscore: Result<BoxScore<V>>): (reply: StatsReply<V>)
    ensures boxscore.Err? ==> reply == ErrorBody(boxscore.message)
    ensures boxscore.Ok? && reply.ErrorBody? ==> reply.error == "'headers'" || reply.error == "'data'"
  {
    match boxscore
    case Err(message) => ErrorBody(message)
    case Ok(b) =>
      match ReshapeTable(b.playerStats)
      case Err(message) => ErrorBody(message)
      case Ok(players) =>
        match ReshapeTable(b.teamStats)
        case Err(message) => ErrorBody(message)
        case Ok(teams) => StatsBody(players, teams)
  }

  predicate Complete<V>(table: RawTable<V>) {
    table.headers.Some? && table.data.Some?
  }

  /**
   * The endpoint answers with both lists, each reshaped from its own table, exactly when
   * the box score was fetched and both tables have both keys; otherwise with the message
   * of the first failure and status 500.
   */
  lemma GameStatsOutcome<V>(boxscore: Result<BoxScore<V>>)
    ensures var reply := GetGameStats(boxscore);
      && (reply.StatsBody? <==>
            boxscore.Ok? && Complete(boxscore.value.playerStats) && Complete(boxscore.value.teamStats))
      && (reply.StatsBody? ==>
            var b := boxscore.value;
            && Status(reply) == 200
            && reply.playerStats == ReshapeData(b.playerStats.headers.value, b.playerStats.data.value)
            && reply.teamStats == ReshapeData(b.teamStats.headers.value, b.teamStats.data.value))
      && (reply.ErrorBody? ==> Status(reply) == 500)
      && (boxscore.Ok? && boxscore.value.playerStats.headers.None? ==>
            reply == ErrorBody("'headers'"))
      && (boxscore.Ok? && !Complete(boxscore.value.playerStats) ==>
            reply == ErrorBody(ReshapeTable(boxscore.value.playerStats).message))
      && (boxscore.Ok? && Complete(boxscore.value.playerStats) && !Complete(boxscore.value.teamStats) ==>
            reply == ErrorBody(ReshapeTable(boxscore.value.teamStats).message))
  {
  }

  /** The player records depend on the player table only. */
  lemma PlayerStatsIgnoreTeamTable<V>(b1: BoxScore<V>, b2: BoxScore<V>)
    requires b1.playerStats == b2.playerStats
    requires GetGameStats(Ok(b1)).StatsBody? && GetGameStats(Ok(b2)).StatsBody?
    ensures GetGameStats(Ok(b1)).playerStats == GetGameStats(Ok(b2)).playerStats
  {
  }
}
