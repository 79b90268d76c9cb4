/** The leaderboard of components/Leaderboard.tsx: the filter and the
    score/time ordering applied to the fetched rows, the outcome of the
    fetch, and the rank badge of each row. */
module LeaderboardComponent {
  import opened Types
  import JsString

  /** A score or time cell of a fetched row, after `Number()` coercion:
      `Blank` is a missing, null or empty cell, `Num(n)` a JSON number and
      `NumText(n)` a non-empty string whose numeric value is `n`. */
  datatype Cell = Blank | Num(n: int) | NumText(n: int)

  /** One fetched row: participant name (absent when missing or null),
      score and elapsed seconds. */
  datatype Entry = Entry(name: Option<string>, score: Cell, time: Cell)

  const NoScore: int := 0
  const NoTime: int := 9999
  const LoadFailed: string := "فشل تحميل البيانات"
  const ConnectionFailed: string := "تعذر الاتصال بقاعدة البيانات"

  /** `Number(cell || fallback)`: a blank cell and the number zero are falsy
      and give the fallback; a non-empty string is truthy even when it
      reads as zero. */
  function CellValue(c: Cell, fallback: int): (v: int)
    ensures c.Blank? ==> v == fallback
    ensures c.Num? ==> v == (if c.n == 0 then fallback else c.n)
    ensures c.NumText? ==> v == c.n
  {
    match c
    case Blank => fallback
    case Num(n) => if n == 0 then fallback else n
    case NumText(n) => n
  }

  function ScoreKey(e: Entry): (k: int) { CellValue(e.score, NoScore) }
  function TimeKey(e: Entry): (k: int) { CellValue(e.time, NoTime) }

  /** The filter: a name that is present, non-empty and not only
      whitespace. */
  predicate Listed(e: Entry): (b: bool)
    ensures b <==> e.name.Some? && JsString.HasContent(e.name.value)
  {
    e.name.Some? && e.name.value != "" && JsString.Trim(e.name.value) != ""
  }

  /** The sort comparator: negative when `a` goes first. */
  function Compare(a: Entry, b: Entry): (c: int)
    ensures c <= 0 <==> RanksBefore(a, b)
  {
    if ScoreKey(a) != ScoreKey(b) then ScoreKey(b) - ScoreKey(a) else TimeKey(a) - TimeKey(b)
  }

  /** Ranking order: higher score first, then lower time. */
  predicate RanksBefore(a: Entry, b: Entry)
  {
    ScoreKey(a) > ScoreKey(b) || (ScoreKey(a) == ScoreKey(b) && TimeKey(a) <= TimeKey(b))
  }

  /** The comparator lets `a` stay before `b` exactly when `a` ranks before
      `b`. */
  lemma CompareMeansRank(a: Entry, b: Entry)
    ensures Compare(a, b) <= 0 <==> RanksBefore(a, b)
    ensures Compare(a, b) == -Compare(b, a)
  {
  }

  ghost predicate Ranked(s: seq<Entry>)
  {
    forall i :: 0 <= i < |s| - 1 ==> RanksBefore(s[i], s[i + 1])
  }

  /** Ranking order is transitive, so adjacent order gives order between
      every pair. */
  lemma {:induction false} RankedPairwise(s: seq<Entry>, i: nat, j: nat)
    requires Ranked(s) && i < j < |s|
    ensures RanksBefore(s[i], s[j])
    decreases j - i
  {
    if i + 1 < j {
      RankedPairwise(s, i + 1, j);
    }
  }

  /** The entries of `s` that the filter keeps, in order. */
  function FilterListed(s: seq<Entry>): (r: seq<Entry>)
    ensures |r| <= |s|
    ensures forall i :: 0 <= i < |r| ==> Listed(r[i])
  {
    if s == [] then []
    else (if Listed(s[0]) then [s[0]] else []) + FilterListed(s[1..])
  }

  /** The filter keeps each listed row as often as it was fetched and drops
      every other row. */
  lemma {:induction false} FilterCounts(s: seq<Entry>)
    ensures forall e :: multiset(FilterListed(s))[e] == if Listed(e) then multiset(s)[e] else 0
  {
    if s != [] {
      FilterCounts(s[1..]);
      assert s == [s[0]] + s[1..];
    }
  }

  /** Places `x` before the first element it ranks before, so that it goes
      ahead of every element with the same keys. */
  function Insert(x: Entry, s: seq<Entry>): (r: seq<Entry>)
    ensures |r| == |s| + 1
  {
    if s == [] then [x]
    else if Compare(x, s[0]) <= 0 then [x] + s
    else [s[0]] + Insert(x, s[1..])
  }

  /** A stable sort by the comparator, as `Array.prototype.sort` is. */
  function SortEntries(s: seq<Entry>): (r: seq<Entry>)
    ensures |r| == |s|
  {
    if s == [] then [] else Insert(s[0], SortEntries(s[1..]))
  }

  /** What `fetchData` stores for a successful response. */
  function Rank(rows: seq<Entry>): (r: seq<Entry>)
    ensures |r| <= |rows|
  {
    SortEntries(FilterListed(rows))
  }

  /** The entries of `s` whose score and time keys are `score` and `time`,
      in order: a stable sort keeps each of these sequences as it was. */
  function WithKeys(s: seq<Entry>, score: int, time: int): (r: seq<Entry>)
    ensures |r| <= |s|
  {
    if s == [] then []
    else (if ScoreKey(s[0]) == score && TimeKey(s[0]) == time then [s[0]] else []) + WithKeys(s[1..], score, time)
  }

  lemma {:induction false} InsertPermutes(x: Entry, s: seq<Entry>)
    ensures multiset(Insert(x, s)) == multiset(s) + multiset{x}
  {
    if s != [] && Compare(x, s[0]) > 0 {
      InsertPermutes(x, s[1..]);
      assert s == [s[0]] + s[1..];
    }
  }

  lemma {:induction false} InsertRanked(x: Entry, s: seq<Entry>)
    requires Ranked(s)
    ensures Ranked(Insert(x, s))
    ensures Insert(x, s) != [] && (Insert(x, s)[0] == x || (s != [] && Insert(x, s)[0] == s[0]))
  {
    if s != [] && Compare(x, s[0]) > 0 {
      InsertRanked(x, s[1..]);
      var t := Insert(x, s[1..]);
      assert Ranked(s[1..]) by {
        forall i | 0 <= i < |s[1..]| - 1 ensures RanksBefore(s[1..][i], s[1..][i + 1]) {
          assert s[1..][i] == s[i + 1] && s[1..][i + 1] == s[i + 2];
        }
      }
      assert RanksBefore(s[0], t[0]);
      forall i | 0 <= i < |[s[0]] + t| - 1 ensures RanksBefore(([s[0]] + t)[i], ([s[0]] + t)[i + 1]) {
        if i > 0 { assert ([s[0]] + t)[i] == t[i - 1] && ([s[0]] + t)[i + 1] == t[i]; }
      }
    }
  }

  lemma {:induction false} WithKeysPrepend(x: Entry, s: seq<Entry>, score: int, time: int)
    ensures WithKeys([x] + s, score, time)
         == (if ScoreKey(x) == score && TimeKey(x) == time then [x] else []) + WithKeys(s, score, time)
  {
    assert ([x] + s)[1..] == s;
  }

  lemma {:induction false} InsertStable(x: Entry, s: seq<Entry>, score: int, time: int)
    ensures WithKeys(Insert(x, s), score, time) == WithKeys([x] + s, score, time)
  {
    if s != [] && Compare(x, s[0]) > 0 {
      var t := Insert(x, s[1..]);
      InsertStable(x, s[1..], score, time);
      WithKeysPrepend(s[0], t, score, time);
      WithKeysPrepend(x, s[1..], score, time);
      WithKeysPrepend(x, s, score, time);
      assert s == [s[0]] + s[1..];
      WithKeysPrepend(s[0], s[1..], score, time);
    }
  }

  /** The sort returns the same entries. */
  lemma {:induction false} SortPermutes(s: seq<Entry>)
    ensures multiset(SortEntries(s)) == multiset(s)
  {
    if s != [] {
      SortPermutes(s[1..]);
      InsertPermutes(s[0], SortEntries(s[1..]));
      assert s == [s[0]] + s[1..];
    }
  }

  /** The sort returns the entries in ranking order. */
  lemma {:induction false} SortRanks(s: seq<Entry>)
    ensures Ranked(SortEntries(s))
  {
    if s != [] {
      SortRanks(s[1..]);
      InsertRanked(s[0], SortEntries(s[1..]));
    }
  }

  /** The sort is stable: entries with equal keys keep their input order. */
  lemma {:induction false} SortStable(s: seq<Entry>, score: int, time: int)
    ensures WithKeys(SortEntries(s), score, time) == WithKeys(s, score, time)
  {
    if s != [] {
      SortStable(s[1..], score, time);
      InsertStable(s[0], SortEntries(s[1..]), score, time);
      WithKeysPrepend(s[0], SortEntries(s[1..]), score, time);
      WithKeysPrepend(s[0], s[1..], score, time);
      assert s == [s[0]] + s[1..];
    }
  }

  /** The ranking keeps exactly the listed rows, each as often as it was
      fetched, orders them by score descending and then time ascending, and
      keeps fetch order among rows with equal keys. */
  lemma RankCorrect(rows: seq<Entry>)
    ensures forall e :: multiset(Rank(rows))[e] == if Listed(e) then multiset(rows)[e] else 0
    ensures forall e :: e in Rank(rows) <==> e in rows && Listed(e)
    ensures forall i :: 0 <= i < |Rank(rows)| - 1 ==>
      && ScoreKey(Rank(rows)[i]) >= ScoreKey(Rank(rows)[i + 1])
      && (ScoreKey(Rank(rows)[i]) == ScoreKey(Rank(rows)[i + 1]) ==> TimeKey(Rank(rows)[i]) <= TimeKey(Rank(rows)[i + 1]))
    ensures forall score, time :: WithKeys(Rank(rows), score, time) == WithKeys(FilterListed(rows), score, time)
  {
    var kept := FilterListed(rows);
    FilterCounts(rows);
    SortPermutes(kept);
    SortRanks(kept);
    forall score, time ensures WithKeys(Rank(rows), score, time) == WithKeys(kept, score, time) {
      SortStable(kept, score, time);
    }
    forall e ensures e in Rank(rows) <==> e in rows && Listed(e) {
      assert e in Rank(rows) <==> multiset(Rank(rows))[e] > 0;
      assert e in rows <==> multiset(rows)[e] > 0;
    }
  }

  /** The filter keeps fetch order within each group of equal keys: taking
      one group of the kept rows is keeping the listed rows of that group. */
  lemma {:induction false} FilterKeepsGroupOrder(rows: seq<Entry>, score: int, time: int)
    ensures WithKeys(FilterListed(rows), score, time) == FilterListed(WithKeys(rows, score, time))
  {
    if rows != [] {
      var x, rest := rows[0], rows[1..];
      var kept, g := FilterListed(rest), WithKeys(rest, score, time);
      var both: seq<Entry> := if Listed(x) && ScoreKey(x) == score && TimeKey(x) == time then [x] else [];
      assert rows == [x] + rest;
      FilterKeepsGroupOrder(rest, score, time);
      FilterPrepend(x, rest);
      WithKeysPrepend(x, rest, score, time);
      if Listed(x) {
        assert FilterListed(rows) == [x] + kept;
        WithKeysPrepend(x, kept, score, time);
      } else {
        assert FilterListed(rows) == kept;
      }
      assert WithKeys(FilterListed(rows), score, time) == both + FilterListed(g);
      if ScoreKey(x) == score && TimeKey(x) == time {
        assert WithKeys(rows, score, time) == [x] + g;
        FilterPrepend(x, g);
      } else {
        assert WithKeys(rows, score, time) == g;
      }
      assert FilterListed(WithKeys(rows, score, time)) == both + FilterListed(g);
    }
  }

  lemma FilterPrepend(x: Entry, s: seq<Entry>)
    ensures FilterListed([x] + s) == (if Listed(x) then [x] else []) + FilterListed(s)
  {
    assert ([x] + s)[1..] == s;
  }

  /** Rows with equal score and time appear in the ranking in the order in
      which they were fetched, blank-named rows left out. */
  lemma RankKeepsFetchOrder(rows: seq<Entry>, score: int, time: int)
    ensures WithKeys(Rank(rows), score, time) == FilterListed(WithKeys(rows, score, time))
  {
    SortStable(FilterListed(rows), score, time);
    FilterKeepsGroupOrder(rows, score, time);
  }

  /** An entry without a time sorts after every timed entry with the same
      score (times are seconds, below the 9999 fallback). */
  lemma UntimedSortsLast(timed: Entry, untimed: Entry)
    requires ScoreKey(timed) == ScoreKey(untimed)
    requires untimed.time.Blank? || untimed.time == Num(0)
    requires 0 < TimeKey(timed) < NoTime
    ensures Compare(timed, untimed) < 0
  {
  }

  /** A name whose first code point is not whitespace is listed. */
  lemma NamedEntryListed(e: Entry)
    requires e.name.Some? && e.name.value != [] && !JsString.IsTrimmed(e.name.value[0])
    ensures Listed(e)
  {
    assert JsString.HasContent(e.name.value);
  }

  /** A name that starts with a non-whitespace code point. */
  predicate PlainName(n: string)
  {
    n != [] && !JsString.IsTrimmed(n[0])
  }

  /** The ordering example, for any three plainly named rows: scores 10 with
      20 s, 10 with 15 s, and 5 with 1 s rank as the second, the first, the
      third. */
  lemma RankExample(na: string, nb: string, nc: string)
    requires PlainName(na) && PlainName(nb) && PlainName(nc)
    ensures var a := Entry(Some(na), Num(10), Num(20));
            var b := Entry(Some(nb), Num(10), Num(15));
            var c := Entry(Some(nc), Num(5), Num(1));
            Rank([a, b, c]) == [b, a, c]
  {
    var a := Entry(Some(na), Num(10), Num(20));
    var b := Entry(Some(nb), Num(10), Num(15));
    var c := Entry(Some(nc), Num(5), Num(1));
    NamedEntryListed(a);
    NamedEntryListed(b);
    NamedEntryListed(c);
    FilterKeepsAll([a, b, c]);
    assert Compare(a, c) < 0 && Compare(b, c) < 0 && Compare(a, b) > 0;
    assert SortEntries([c]) == [c] by { assert [c][1..] == []; }
    assert SortEntries([b, c]) == [b, c] by { assert [b, c][1..] == [c]; }
    assert Insert(a, [c]) == [a, c];
    assert Insert(a, [b, c]) == [b, a, c] by { assert [b, c][1..] == [c]; }
    assert SortEntries([a, b, c]) == [b, a, c] by { assert [a, b, c][1..] == [b, c]; }
  }

  /** A fetch in which every row is listed keeps every row, in order. */
  lemma {:induction false} FilterKeepsAll(s: seq<Entry>)
    requires forall i :: 0 <= i < |s| ==> Listed(s[i])
    ensures FilterListed(s) == s
  {
    if s != [] {
      var rest := s[1..];
      assert forall i :: 0 <= i < |rest| ==> Listed(rest[i]) by {
        forall i | 0 <= i < |rest| ensures Listed(rest[i]) { assert rest[i] == s[i + 1]; }
      }
      FilterKeepsAll(rest);
      assert Listed(s[0]);
      assert FilterListed(s) == [s[0]] + rest;
    }
  }

  /** The text or number shown in a row's badge. */
  datatype RankIcon = Emoji(symbol: string) | Position(n: int)

  /** `getRankIcon(index)`: medals for the first three rows, the
      one-based position otherwise. */
  function GetRankIcon(index: int): (r: RankIcon)
    ensures index == 0 <==> r == Emoji("👑")
    ensures index == 1 <==> r == Emoji("🥈")
    ensures index == 2 <==> r == Emoji("🥉")
    ensures r.Position? <==> index !in {0, 1, 2}
    ensures r.Position? ==> r.n == index + 1
  {
    if index == 0 then Emoji("👑")
    else if index == 1 then Emoji("🥈")
    else if index == 2 then Emoji("🥉")
    else Position(index + 1)
  }

  const DefaultBadge: string := "bg-gray-100 text-gray-500"

  /** `getBadgeColor(index)`: gold, silver and bronze classes for the first
      three rows, one default for every other row. */
  function GetBadgeColor(index: int): (c: string)
    ensures c == DefaultBadge <==> index !in {0, 1, 2}
  {
    match index
    case 0 => "bg-yellow-400 text-white shadow-yellow-200"
    case 1 => "bg-gray-300 text-white shadow-gray-200"
    case 2 => "bg-orange-400 text-white shadow-orange-200"
    case _ => DefaultBadge
  }

  /** The first three rows get three different badges. */
  lemma PodiumBadgesDistinct()
    ensures GetBadgeColor(0) != GetBadgeColor(1) && GetBadgeColor(1) != GetBadgeColor(2)
    ensures GetBadgeColor(0) != GetBadgeColor(2)
  {
  }

  /** One displayed row. */
  datatype Row = Row(badge: string, icon: RankIcon, entry: Entry)

  /** What the component shows. */
  datatype Panel = Spinner | ErrorPanel(message: string) | NoEntries | Rows(rows: seq<Row>)

  /** The result of the request: `Threw` when `fetch` or `response.json()`
      throws, otherwise the `ok` flag and the `data` field (`None` when it
      is not an array). */
  datatype FetchOutcome = Threw | Response(ok: bool, data: Option<seq<Entry>>)

  class Leaderboard {
    var data: seq<Entry>
    var isLoading: bool
    var error: Option<string>

    constructor ()
      ensures data == [] && isLoading && error == None
    {
      data, isLoading, error := [], true, None;
    }

    /** `fetchData` after the request settles: a good response stores the
        ranking, a malformed one or a thrown request stores the matching
        message, and loading ends in every case. */
    method FetchData(outcome: FetchOutcome)
      modifies this
      ensures !isLoading
      ensures outcome.Response? && outcome.ok && outcome.data.Some? ==>
        data == Rank(outcome.data.value) && error == old(error)
      ensures outcome.Response? && !(outcome.ok && outcome.data.Some?) ==>
        data == old(data) && error == Some(LoadFailed)
      ensures outcome.Threw? ==> data == old(data) && error == Some(ConnectionFailed)
    {
      match outcome {
        case Threw =>
          error := Some(ConnectionFailed);
        case Response(ok, rows) =>
          if ok && rows.Some? {
            data := Rank(rows.value);
          } else {
            error := Some(LoadFailed);
          }
      }
      isLoading := false;
    }

    /** The rendering dispatch: the spinner while loading, then the error,
        then the empty notice, then one badge row per entry. */
    function View(): (p: Panel)
      reads this
      ensures p.Spinner? <==> isLoading
      ensures p.ErrorPanel? <==> !isLoading && error.Some?
      ensures p.ErrorPanel? ==> p.message == error.value
      ensures p.NoEntries? <==> !isLoading && error.None? && data == []
      ensures p.Rows? ==> |p.rows| == |data| && forall i :: 0 <= i < |data| ==>
        p.rows[i] == Row(GetBadgeColor(i), GetRankIcon(i), data[i])
    {
      if isLoading then Spinner
      else if error.Some? then ErrorPanel(error.value)
      else if data == [] then NoEntries
      else
        var d := data;
        Rows(seq(|d|, i requires 0 <= i < |d| => Row(GetBadgeColor(i), GetRankIcon(i), d[i])))
    }
  }

  /** Mounting the leaderboard and settling its fetch never leaves the
      spinner; a failed fetch shows its message and an empty list. */
  method MountAndFetch(outcome: FetchOutcome) returns (shown: Panel, rows: seq<Entry>)
    ensures !shown.Spinner?
    ensures outcome.Threw? ==> shown == ErrorPanel(ConnectionFailed) && rows == []
    ensures outcome.Response? && !(outcome.ok && outcome.data.Some?) ==> shown == ErrorPanel(LoadFailed) && rows == []
    ensures outcome.Response? && outcome.ok && outcome.data.Some? ==>
      && rows == Rank(outcome.data.value)
      && (shown == NoEntries <==> rows == [])
  {
    var board := new Leaderboard();
    board.FetchData(outcome);
    shown, rows := board.View(), board.data;
  }
}
